/**
 * At-least-once delivery of Airtable changes: an event that is delivered again later is absorbed,
 * so replaying a change list, or walking it with a cursor that falls back, ends in the same files.
 */
module AirtableReplay {
  import opened Wrappers
  import opened JsStrings
  import opened AirtableAdapter

  // ---------------------------------------------------------------------------
  // One file
  // ---------------------------------------------------------------------------

  /** The event acts on the file at a path. */
  predicate On(event: Event, path: Str) { !event.Broken? && event.path == path }

  function Local(file: Option<File>, event: Event, path: Str, client: Client): Option<File> {
    if On(event, path) then Applied(file, event, client) else file
  }

  function LocalAll(file: Option<File>, events: seq<Event>, path: Str, client: Client): Option<File> {
    if events == [] then file
    else Local(LocalAll(file, events[..|events| - 1], path, client), events[|events| - 1], path, client)
  }

  /** Each file is decided by the events on its own path. */
  lemma {:induction false} EachFileOnItsOwn(files: Files, events: seq<Event>, path: Str, client: Client)
    ensures FileAt(IngestAll(files, events, client), path) == LocalAll(FileAt(files, path), events, path, client)
  {
    if events == [] {
    } else {
      EachFileOnItsOwn(files, events[..|events| - 1], path, client);
    }
  }

  /** The object a payload has at a key, or an empty one. */
  function Entries(payload: Payload, key: Str): map<Str, Str> {
    if key in payload && payload[key].Nested? then payload[key].entries else map[]
  }

  /** The delta lays an object over the value at the key. */
  predicate Lays(delta: Payload, key: Str) { IsRecordMap(key) && key in delta && delta[key].Nested? }

  /** Two payloads that a delta makes equal at a key. */
  ghost predicate AgreeAt(a: Payload, b: Payload, delta: Payload, key: Str) {
    if Lays(delta, key) then
      forall k :: k !in delta[key].entries ==>
        (k in Entries(a, key) <==> k in Entries(b, key))
          && (k in Entries(a, key) ==> Entries(a, key)[k] == Entries(b, key)[k])
    else key in delta || key == WEBHOOK || Find(a, key) == Find(b, key)
  }

  ghost predicate Agree(a: Payload, b: Payload, delta: Payload) { forall key :: AgreeAt(a, b, delta, key) }

  lemma KeysDiffer()
    ensures !IsRecordMap(WEBHOOK)
  {
    assert WEBHOOK[0] == 95 && FIELDS[0] == 102 && CELLS[0] == 99;
  }

  /** What merging does at a key. */
  lemma MergeAt(stored: Payload, delta: Payload, key: Str)
    ensures Find(Merge(stored, delta), key) ==
      if key in delta then Some(if IsRecordMap(key) then MergeValue(Find(stored, key), delta[key]) else delta[key])
      else if key == WEBHOOK then None else Find(stored, key)
  {
    KeysDiffer();
  }

  lemma MergeEntries(stored: Payload, delta: Payload, key: Str)
    requires IsRecordMap(key)
    ensures Entries(Merge(stored, delta), key) ==
      if key !in delta then Entries(stored, key)
      else if delta[key].Nested? then Entries(stored, key) + delta[key].entries else map[]
  {
    KeysDiffer();
    MergeAt(stored, delta, key);
  }

  /** Payloads that agree merge to the same payload. */
  lemma AgreeMerge(a: Payload, b: Payload, delta: Payload)
    requires Agree(a, b, delta)
    ensures Merge(a, delta) == Merge(b, delta)
  {
    forall key ensures Find(Merge(a, delta), key) == Find(Merge(b, delta), key) {
      assert AgreeAt(a, b, delta, key);
      MergeAt(a, delta, key);
      MergeAt(b, delta, key);
      if Lays(delta, key) { SameLaid(a, b, delta, key); }
    }
    SamePayload(Merge(a, delta), Merge(b, delta));
  }

  lemma SameLaid(a: Payload, b: Payload, delta: Payload, key: Str)
    requires Lays(delta, key) && AgreeAt(a, b, delta, key)
    ensures MergeValue(Find(a, key), delta[key]) == MergeValue(Find(b, key), delta[key])
  {
    assert Entries(a, key) + delta[key].entries == Entries(b, key) + delta[key].entries;
    assert map[] + delta[key].entries == delta[key].entries;
  }

  lemma SamePayload(a: Payload, b: Payload)
    requires forall key :: Find(a, key) == Find(b, key)
    ensures a == b
  {
    forall key ensures (key in a <==> key in b) && (key in a ==> a[key] == b[key]) {
      assert Find(a, key) == Find(b, key);
    }
  }

  /** Merging the same payload onto both keeps them in agreement. */
  lemma AgreeKept(a: Payload, b: Payload, delta: Payload, other: Payload)
    requires Agree(a, b, delta)
    ensures Agree(Merge(a, other), Merge(b, other), delta)
  {
    forall key ensures AgreeAt(Merge(a, other), Merge(b, other), delta, key) {
      assert AgreeAt(a, b, delta, key);
      MergeAt(a, other, key);
      MergeAt(b, other, key);
      if IsRecordMap(key) {
        MergeEntries(a, other, key);
        MergeEntries(b, other, key);
      }
    }
  }

  /** A payload agrees with itself after merging the delta. */
  lemma AgreeStart(a: Payload, delta: Payload)
    ensures Agree(Merge(a, delta), a, delta)
  {
    forall key ensures AgreeAt(Merge(a, delta), a, delta, key) {
      MergeAt(a, delta, key);
      if IsRecordMap(key) { MergeEntries(a, delta, key); }
    }
  }

  // ---------------------------------------------------------------------------
  // Absorption
  // ---------------------------------------------------------------------------

  /** The event makes the same file of both. */
  ghost predicate Levelled(a: Option<File>, b: Option<File>, event: Event, client: Client) {
    match event
    case Upsert(_, _, _, delta) => Agree(Existing(a, client), Existing(b, client), delta)
    case Delete(_, _, _, _) => true
    case Broken(_) => a == b
  }

  lemma LevelledApplied(a: Option<File>, b: Option<File>, event: Event, client: Client)
    requires Levelled(a, b, event, client)
    ensures Applied(a, event, client) == Applied(b, event, client)
  {
    if event.Upsert? { AgreeMerge(Existing(a, client), Existing(b, client), event.payload); }
  }

  lemma AgreeSame(a: Payload, delta: Payload)
    ensures Agree(a, a, delta)
  {
    forall key ensures AgreeAt(a, a, delta, key) {}
  }

  lemma LevelledKept(a: Option<File>, b: Option<File>, event: Event, other: Event, path: Str, client: Client)
    requires Levelled(a, b, event, client)
    ensures Levelled(Local(a, other, path, client), Local(b, other, path, client), event, client)
  {
    if event.Upsert? && On(other, path) {
      if other.Upsert? && client.hasRead {
        AgreeKept(Existing(a, client), Existing(b, client), event.payload, other.payload);
      } else {
        AgreeSame(Existing(Local(a, other, path, client), client), event.payload);
      }
    }
  }

  lemma LevelledStart(a: Option<File>, event: Event, path: Str, client: Client)
    requires On(event, path)
    ensures Levelled(Local(a, event, path, client), a, event, client)
  {
    if event.Upsert? {
      if client.hasRead { AgreeStart(Existing(a, client), event.payload); } else { AgreeSame(map[], event.payload); }
    }
  }

  lemma {:induction false} LevelledAll(a: Option<File>, b: Option<File>, event: Event, events: seq<Event>, path: Str,
                                       client: Client)
    requires Levelled(a, b, event, client)
    ensures Levelled(LocalAll(a, events, path, client), LocalAll(b, events, path, client), event, client)
  {
    if events == [] {
    } else {
      LevelledAll(a, b, event, events[..|events| - 1], path, client);
      LevelledKept(LocalAll(a, events[..|events| - 1], path, client), LocalAll(b, events[..|events| - 1], path, client),
                   event,
                   events[|events| - 1], path, client);
    }
  }

  /** An event that comes again after the given ones may be left out the first time. */
  lemma AbsorbLocal(file: Option<File>, event: Event, events: seq<Event>, path: Str, client: Client)
    ensures Local(LocalAll(Local(file, event, path, client), events, path, client), event, path, client)
      == Local(LocalAll(file, events, path, client), event, path, client)
  {
    if On(event, path) {
      LevelledStart(file, event, path, client);
      LevelledAll(Local(file, event, path, client), file, event, events, path, client);
      LevelledApplied(LocalAll(Local(file, event, path, client), events, path, client),
                      LocalAll(file, events, path, client), event, client);
    }
  }

  lemma SameFiles(a: Files, b: Files)
    requires forall p :: FileAt(a, p) == FileAt(b, p)
    ensures a == b
  {
    forall p ensures (p in a <==> p in b) && (p in a ==> a[p] == b[p]) { assert FileAt(a, p) == FileAt(b, p); }
  }

  lemma IngestOne(files: Files, event: Event, client: Client)
    ensures IngestAll(files, [event], client) == Ingest(files, event, client)
  {
    assert [event][..0] == [];
  }

  lemma AbsorbAt(files: Files, event: Event, events: seq<Event>, path: Str, client: Client)
    ensures FileAt(Ingest(IngestAll(Ingest(files, event, client), events, client), event, client), path)
      == FileAt(Ingest(IngestAll(files, events, client), event, client), path)
  {
    EachFileOnItsOwn(Ingest(files, event, client), events, path, client);
    EachFileOnItsOwn(files, events, path, client);
    AbsorbLocal(FileAt(files, path), event, events, path, client);
    assert FileAt(Ingest(files, event, client), path) == Local(FileAt(files, path), event, path, client);
  }

  /** Ingesting an event, then others, then the event again, is ingesting the others and then the event. */
  lemma Absorb(files: Files, event: Event, events: seq<Event>, client: Client)
    ensures Ingest(IngestAll(Ingest(files, event, client), events, client), event, client)
      == Ingest(IngestAll(files, events, client), event, client)
  {
    var a := Ingest(IngestAll(Ingest(files, event, client), events, client), event, client);
    var b := Ingest(IngestAll(files, events, client), event, client);
    forall p ensures FileAt(a, p) == FileAt(b, p) { AbsorbAt(files, event, events, p, client); }
    SameFiles(a, b);
  }

  /** An event that some later event repeats changes nothing. */
  lemma AbsorbInto(files: Files, event: Event, events: seq<Event>, client: Client)
    requires event in events
    ensures IngestAll(Ingest(files, event, client), events, client) == IngestAll(files, events, client)
  {
    var i :| 0 <= i < |events| && events[i] == event;
    var before, after := events[..i], events[i + 1..];
    assert events == (before + [event]) + after;
    IngestConcat(Ingest(files, event, client), before + [event], after, client);
    IngestConcat(files, before + [event], after, client);
    IngestConcat(Ingest(files, event, client), before, [event], client);
    IngestConcat(files, before, [event], client);
    IngestOne(IngestAll(Ingest(files, event, client), before, client), event, client);
    IngestOne(IngestAll(files, before, client), event, client);
    Absorb(files, event, before, client);
  }

  // ---------------------------------------------------------------------------
  // Replays
  // ---------------------------------------------------------------------------

  lemma ConsIngest(files: Files, first: Event, rest: seq<Event>, client: Client)
    ensures IngestAll(files, [first] + rest, client) == IngestAll(Ingest(files, first, client), rest, client)
  {
    IngestConcat(files, [first], rest, client);
    IngestOne(files, first, client);
  }

  /** Events that are all repeated later change nothing. */
  lemma {:induction false} RepeatedLater(files: Files, early: seq<Event>, late: seq<Event>, client: Client)
    requires forall e :: e in early ==> e in late
    ensures IngestAll(files, early + late, client) == IngestAll(files, late, client)
    decreases |early|
  {
    if early == [] {
      assert early + late == late;
    } else {
      var rest := early[1..];
      assert early + late == [early[0]] + (rest + late) && early == [early[0]] + rest;
      ConsIngest(files, early[0], rest + late, client);
      assert early[0] in rest + late;
      AbsorbInto(files, early[0], rest + late, client);
      RepeatedLater(files, rest, late, client);
    }
  }

  /** Replaying a whole change list is idempotent. */
  lemma ReplayIsIdempotent(files: Files, events: seq<Event>, client: Client)
    ensures IngestAll(IngestAll(files, events, client), events, client) == IngestAll(files, events, client)
  {
    RepeatedLater(files, events, events, client);
    IngestConcat(files, events, events, client);
  }

  /** The same, for the change descriptors of a notification. */
  lemma DescriptorsReplay(files: Files, descriptors: seq<Descriptor>, client: Client, context: Context)
    ensures
      var events := ExpandAll(descriptors, context);
      IngestAll(IngestAll(files, events, client), events, client) == IngestAll(files, events, client)
  {
    ReplayIsIdempotent(files, ExpandAll(descriptors, context), client);
  }

  /** One delivery attempt: from a position, up to another. */
  datatype Attempt = Attempt(from: nat, upTo: nat)

  /** Each attempt starts no later than where the one before it stopped. */
  predicate Walk(attempts: seq<Attempt>, n: nat, start: nat) {
    if attempts == [] then start == n
    else
      && attempts[0].from <= start && attempts[0].from <= attempts[0].upTo <= n
      && Walk(attempts[1..], n, attempts[0].upTo)
  }

  function Delivered(attempts: seq<Attempt>, events: seq<Event>, start: nat): seq<Event>
    requires Walk(attempts, |events|, start)
  {
    if attempts == [] then []
    else events[attempts[0].from..attempts[0].upTo] + Delivered(attempts[1..], events, attempts[0].upTo)
  }

  /** From here, ingesting the list from any position already reached gives what the whole list gives. */
  ghost predicate OnTrack(now: Files, goal: Files, events: seq<Event>, reached: nat, client: Client)
    requires reached <= |events|
  {
    forall j :: 0 <= j <= reached ==> IngestAll(now, events[j..], client) == goal
  }

  lemma OneMore(now: Files, goal: Files, events: seq<Event>, reached: nat, client: Client)
    requires reached < |events| && OnTrack(now, goal, events, reached, client)
    ensures OnTrack(Ingest(now, events[reached], client), goal, events, reached + 1, client)
  {
    var event := events[reached];
    forall j | 0 <= j <= reached + 1 ensures IngestAll(Ingest(now, event, client), events[j..], client) == goal {
      if j == reached + 1 {
        assert events[reached..] == [event] + events[reached + 1..];
        ConsIngest(now, event, events[reached + 1..], client);
        assert IngestAll(now, events[reached..], client) == goal;
      } else {
        assert events[j..][reached - j] == event;
        AbsorbInto(now, event, events[j..], client);
        assert IngestAll(now, events[j..], client) == goal;
      }
    }
  }

  lemma SliceFront(events: seq<Event>, from: nat, upTo: nat)
    requires from < upTo <= |events|
    ensures events[from..upTo][..upTo - 1 - from] == events[from..upTo - 1] && events[from..upTo] != []
    ensures events[from..upTo][upTo - 1 - from] == events[upTo - 1]
  {}

  lemma {:induction false} MoreOnTrack(now: Files, goal: Files, events: seq<Event>, from: nat, upTo: nat,
                                       client: Client)
    requires from <= upTo <= |events| && OnTrack(now, goal, events, from, client)
    ensures OnTrack(IngestAll(now, events[from..upTo], client), goal, events, upTo, client)
    decreases upTo
  {
    if from == upTo {
      assert events[from..upTo] == [];
    } else {
      MoreOnTrack(now, goal, events, from, upTo - 1, client);
      SliceFront(events, from, upTo);
      OneMore(IngestAll(now, events[from..upTo - 1], client), goal, events, upTo - 1, client);
    }
  }

  lemma {:induction false} WalkOnTrack(now: Files, goal: Files, attempts: seq<Attempt>, events: seq<Event>, start: nat,
                                       client: Client)
    requires start <= |events| && Walk(attempts, |events|, start) && OnTrack(now, goal, events, start, client)
    ensures IngestAll(now, Delivered(attempts, events, start), client) == goal
    decreases |attempts|
  {
    if attempts == [] {
      assert events[|events|..] == [];
      assert IngestAll(now, events[|events|..], client) == goal;
    } else {
      var first := attempts[0];
      var part, rest := events[first.from..first.upTo], Delivered(attempts[1..], events, first.upTo);
      assert OnTrack(now, goal, events, first.from, client);
      MoreOnTrack(now, goal, events, first.from, first.upTo, client);
      WalkOnTrack(IngestAll(now, part, client), goal, attempts[1..], events, first.upTo, client);
      IngestConcat(now, part, rest, client);
    }
  }

  /**
   * However often delivery stops and falls back to a position it had already reached, once it
   * comes to the end the files are those of a single delivery.
   */
  lemma AtLeastOnceIsOnce(files: Files, attempts: seq<Attempt>, events: seq<Event>, client: Client)
    requires Walk(attempts, |events|, 0)
    ensures IngestAll(files, Delivered(attempts, events, 0), client) == IngestAll(files, events, client)
  {
    assert events[0..] == events;
    WalkOnTrack(files, IngestAll(files, events, client), attempts, events, 0, client);
  }

  // ---------------------------------------------------------------------------
  // Deliveries with failing calls
  // ---------------------------------------------------------------------------

  /** An upsert on the path met a failed read, and so forgot what was stored. */
  predicate Forgot(tries: Delivery, path: Str) {
    exists i :: 0 <= i < |tries| && tries[i].1 == ReadFails && tries[i].0.Upsert? && tries[i].0.path == path
  }

  lemma AbsorbIntoLocal(file: Option<File>, event: Event, events: seq<Event>, path: Str, client: Client)
    requires event in events
    ensures LocalAll(Local(file, event, path, client), events, path, client) == LocalAll(file, events, path, client)
  {
    var files: Files := if file.Some? then map[path := file.value] else map[];
    AbsorbInto(files, event, events, client);
    EachFileOnItsOwn(Ingest(files, event, client), events, path, client);
    EachFileOnItsOwn(files, events, path, client);
    assert FileAt(Ingest(files, event, client), path) == Local(file, event, path, client);
  }

  lemma DeliverCons(files: Files, first: (Event, Luck), rest: Delivery, client: Client)
    ensures Deliver(files, [first] + rest, client) == Deliver(Try(files, first.0, first.1, client), rest, client)
  {
    DeliverConcat(files, [first], rest, client);
    assert [first][..0] == [];
  }

  /** One try, followed later by all events without failures: only a failed read matters. */
  lemma TryThenAll(files: Files, event: Event, luck: Luck, events: seq<Event>, path: Str, client: Client)
    requires event in events
    ensures LocalAll(FileAt(Try(files, event, luck, client), path), events, path, client)
      == LocalAll(if Forgot([(event, luck)], path) then None else FileAt(files, path), events, path, client)
  {
    var file := FileAt(files, path);
    assert [(event, luck)][0] == (event, luck);
    if On(event, path) {
      AbsorbIntoLocal(file, event, events, path, client);
      AbsorbIntoLocal(None, event, events, path, client);
    }
  }

  /**
   * What a delivery with any failing calls, followed by one of all its events without, leaves in each
   * file: what the clean delivery alone would have, had the paths with a failed read been empty.
   */
  lemma {:induction false} CleanAfterRough(files: Files, tries: Delivery, events: seq<Event>, path: Str, client: Client)
    requires forall i :: 0 <= i < |tries| ==> tries[i].0 in events
    ensures FileAt(IngestAll(Deliver(files, tries, client), events, client), path)
      == LocalAll(if Forgot(tries, path) then None else FileAt(files, path), events, path, client)
    decreases |tries|
  {
    if tries == [] {
      EachFileOnItsOwn(files, events, path, client);
    } else {
      var first, rest := tries[0], tries[1..];
      assert tries == [first] + rest;
      DeliverCons(files, first, rest, client);
      forall i | 0 <= i < |rest| ensures rest[i].0 in events { assert rest[i] == tries[i + 1]; }
      CleanAfterRough(Try(files, first.0, first.1, client), rest, events, path, client);
      TryThenAll(files, first.0, first.1, events, path, client);
      ForgotFirst(first, rest, path);
    }
  }

  lemma ForgotFirst(first: (Event, Luck), rest: Delivery, path: Str)
    ensures Forgot([first] + rest, path) <==> Forgot([first], path) || Forgot(rest, path)
  {
    var tries := [first] + rest;
    assert tries[0] == first && [first][0] == first && forall i :: 0 <= i < |rest| ==> tries[i + 1] == rest[i];
    if Forgot(rest, path) {
      var i :| 0 <= i < |rest| && rest[i].1 == ReadFails && rest[i].0.Upsert? && rest[i].0.path == path;
      assert tries[i + 1] == rest[i];
    }
  }

  // ---------------------------------------------------------------------------
  // When events rebuild a file
  // ---------------------------------------------------------------------------

  /** An upsert on the path that has the key in its payload. */
  predicate Brings(event: Event, path: Str, key: Str) { event.Upsert? && event.path == path && key in event.payload }

  ghost predicate Brought(events: seq<Event>, path: Str, key: Str) {
    exists e :: e in events && Brings(e, path, key)
  }

  /** An upsert on the path that has the entry in an object at the key. */
  ghost predicate EntryBrought(events: seq<Event>, path: Str, key: Str, entry: Str) {
    exists e :: e in events && Brings(e, path, key) && e.payload[key].Nested? && entry in e.payload[key].entries
  }

  /** The stored object at the key shows through: it is a record map, and only objects are laid over it. */
  ghost predicate Overlaid(stored: Value, events: seq<Event>, path: Str, key: Str) {
    IsRecordMap(key) && stored.Nested? && forall e :: e in events && Brings(e, path, key) ==> e.payload[key].Nested?
  }

  /** The events rewrite what is stored at the key. */
  ghost predicate RewritesKey(stored: Value, events: seq<Event>, path: Str, key: Str) {
    && Brought(events, path, key)
    && (Overlaid(stored, events, path, key) ==> forall k :: k in stored.entries ==> EntryBrought(events, path, key, k))
  }

  /**
   * The events rewrite the stored file: there is none, or one of them starts afresh, or at least one is
   * on the path and together they rewrite every stored key but the webhook part.
   */
  ghost predicate Rewrites(events: seq<Event>, files: Files, path: Str, client: Client) {
    || path !in files
    || (exists e :: e in events && On(e, path) && (e.Delete? || !client.hasRead))
    || ((exists e :: e in events && On(e, path))
        && forall key :: key in files[path].payload && key != WEBHOOK ==>
             RewritesKey(files[path].payload[key], events, path, key))
  }

  /** The events rebuild the file at a path whether or not what was stored there is remembered. */
  predicate Rebuilds(events: seq<Event>, files: Files, path: Str, client: Client) {
    LocalAll(None, events, path, client) == LocalAll(FileAt(files, path), events, path, client)
  }

  /** All events on the path are upserts. */
  ghost predicate OnlyUpserts(events: seq<Event>, path: Str) {
    forall e :: e in events && On(e, path) ==> e.Upsert?
  }

  /** Without and with the stored value, what the events leave at a key. */
  ghost predicate Traced(stored: Option<Value>, events: seq<Event>, path: Str, key: Str,
                         without: Option<Value>, with: Option<Value>)
  {
    if !Brought(events, path, key) then without == None && with == stored
    else if stored.Some? && Overlaid(stored.value, events, path, key) then
      && without.Some? && without.value.Nested?
      && with == Some(Nested(stored.value.entries + without.value.entries))
      && (forall k :: k in without.value.entries <==> EntryBrought(events, path, key, k))
    else without == with
  }

  lemma BroughtSnoc(front: seq<Event>, last: Event, path: Str, key: Str)
    ensures Brought(front + [last], path, key) <==> Brought(front, path, key) || Brings(last, path, key)
    ensures forall k :: EntryBrought(front + [last], path, key, k) <==>
      EntryBrought(front, path, key, k)
      || (Brings(last, path, key) && last.payload[key].Nested? && k in last.payload[key].entries)
  {
    assert last in front + [last] && forall e :: e in front ==> e in front + [last];
  }

  lemma OverlaidSnoc(stored: Value, front: seq<Event>, last: Event, path: Str, key: Str)
    ensures Overlaid(stored, front + [last], path, key)
      <==> Overlaid(stored, front, path, key) && (Brings(last, path, key) ==> last.payload[key].Nested?)
  {
    assert last in front + [last] && forall e :: e in front ==> e in front + [last];
  }

  /** What an upsert makes of the value at a key. */
  function Laid(value: Option<Value>, delta: Value, key: Str): Value {
    if IsRecordMap(key) then MergeValue(value, delta) else delta
  }

  lemma LaidTwice(stored: map<Str, Str>, before: map<Str, Str>, delta: map<Str, Str>)
    ensures (stored + before) + delta == stored + (before + delta)
  {}

  lemma TraceStep(stored: Option<Value>, front: seq<Event>, last: Event, path: Str, key: Str,
                  without: Option<Value>, with: Option<Value>)
    requires Traced(stored, front, path, key, without, with) && Brings(last, path, key)
    ensures Traced(stored, front + [last], path, key,
                   Some(Laid(without, last.payload[key], key)), Some(Laid(with, last.payload[key], key)))
  {
    BroughtSnoc(front, last, path, key);
    if stored.Some? {
      OverlaidSnoc(stored.value, front, last, path, key);
      if Overlaid(stored.value, front + [last], path, key) && Brought(front, path, key) {
        LaidTwice(stored.value.entries, without.value.entries, last.payload[key].entries);
      }
    }
    if !Brought(front, path, key) { NothingBrought(front, path, key); }
  }

  lemma NothingBrought(events: seq<Event>, path: Str, key: Str)
    requires !Brought(events, path, key)
    ensures forall k :: !EntryBrought(events, path, key, k)
  {}

  lemma TraceSkip(stored: Option<Value>, front: seq<Event>, last: Event, path: Str, key: Str,
                  without: Option<Value>, with: Option<Value>)
    requires Traced(stored, front, path, key, without, with) && !Brings(last, path, key)
    ensures Traced(stored, front + [last], path, key, without, with)
  {
    BroughtSnoc(front, last, path, key);
    if stored.Some? { OverlaidSnoc(stored.value, front, last, path, key); }
  }

  lemma {:induction false} TraceAll(file: File, events: seq<Event>, path: Str, client: Client, key: Str)
    requires client.hasRead && OnlyUpserts(events, path) && key != WEBHOOK
    ensures Traced(Find(file.payload, key), events, path, key,
                   Find(Existing(LocalAll(None, events, path, client), client), key),
                   Find(Existing(LocalAll(Some(file), events, path, client), client), key))
  {
    if events == [] {
    } else {
      var front, last := events[..|events| - 1], events[|events| - 1];
      assert events == front + [last];
      TraceAll(file, front, path, client, key);
      var a, b := LocalAll(None, front, path, client), LocalAll(Some(file), front, path, client);
      if On(last, path) {
        MergeAt(Existing(a, client), last.payload, key);
        MergeAt(Existing(b, client), last.payload, key);
      }
      if Brings(last, path, key) {
        TraceStep(Find(file.payload, key), front, last, path, key, Find(Existing(a, client), key),
                  Find(Existing(b, client), key));
      } else {
        TraceSkip(Find(file.payload, key), front, last, path, key, Find(Existing(a, client), key),
                  Find(Existing(b, client), key));
      }
    }
  }

  /** A key ends up the same exactly when it was not stored or the events rewrite it. */
  lemma TracedSame(stored: Option<Value>, events: seq<Event>, path: Str, key: Str,
                   without: Option<Value>, with: Option<Value>)
    requires Traced(stored, events, path, key, without, with)
    ensures without == with <==> stored.None? || RewritesKey(stored.value, events, path, key)
  {
    if stored.Some? && Brought(events, path, key) && Overlaid(stored.value, events, path, key) {
      var was, given := stored.value.entries, without.value.entries;
      if forall k :: k in was ==> k in given {
        assert was + given == given;
      } else {
        var k :| k in was && k !in given;
        assert k in was + given;
      }
    }
  }

  /** What upserts leave, but for the payload, does not depend on what was stored; nor does the webhook part. */
  lemma {:induction false} SameFrame(file: File, events: seq<Event>, path: Str, client: Client)
    requires client.hasRead && OnlyUpserts(events, path) && exists e :: e in events && On(e, path)
    ensures
      var a, b := LocalAll(None, events, path, client), LocalAll(Some(file), events, path, client);
      && a.Some? && b.Some? && a.value.header == b.value.header && a.value.deleted == b.value.deleted
      && Find(a.value.payload, WEBHOOK) == Find(b.value.payload, WEBHOOK)
  {
    var front, last := events[..|events| - 1], events[|events| - 1];
    assert events == front + [last] && last in events && forall e :: e in front ==> e in events;
    if On(last, path) {
      KeysDiffer();
      MergeAt(Existing(LocalAll(None, front, path, client), client), last.payload, WEBHOOK);
      MergeAt(Existing(LocalAll(Some(file), front, path, client), client), last.payload, WEBHOOK);
    } else {
      SameFrame(file, front, path, client);
    }
  }

  lemma {:induction false} Untouched(file: Option<File>, events: seq<Event>, path: Str, client: Client)
    requires forall e :: e in events ==> !On(e, path)
    ensures LocalAll(file, events, path, client) == file
  {
    if events == [] {
    } else {
      assert events[|events| - 1] in events && forall e :: e in events[..|events| - 1] ==> e in events;
      Untouched(file, events[..|events| - 1], path, client);
    }
  }

  lemma UpsertsRebuild(file: File, events: seq<Event>, path: Str, client: Client)
    requires client.hasRead && OnlyUpserts(events, path) && exists e :: e in events && On(e, path)
    ensures LocalAll(None, events, path, client) == LocalAll(Some(file), events, path, client)
      <==> forall key :: key in file.payload && key != WEBHOOK ==> RewritesKey(file.payload[key], events, path, key)
  {
    var a, b := LocalAll(None, events, path, client), LocalAll(Some(file), events, path, client);
    SameFrame(file, events, path, client);
    forall key | key != WEBHOOK
      ensures Find(a.value.payload, key) == Find(b.value.payload, key)
        <==> key !in file.payload || RewritesKey(file.payload[key], events, path, key)
    {
      TraceAll(file, events, path, client, key);
      TracedSame(Find(file.payload, key), events, path, key, Find(a.value.payload, key), Find(b.value.payload, key));
    }
    if forall key :: Find(a.value.payload, key) == Find(b.value.payload, key) {
      SamePayload(a.value.payload, b.value.payload);
    }
  }

  /** They do when nothing was stored, when the client never reads, and when a deletion is among them. */
  lemma {:induction false} RebuildsWhen(events: seq<Event>, files: Files, path: Str, client: Client)
    requires path !in files || (exists e :: e in events && On(e, path) && (!client.hasRead || e.Delete?))
    ensures Rebuilds(events, files, path, client)
  {
    if path in files {
      var front, last := events[..|events| - 1], events[|events| - 1];
      assert events == front + [last];
      if On(last, path) && (last.Delete? || !client.hasRead) {
      } else {
        RebuildsWhen(front, files, path, client);
      }
    }
  }

  /** The events rebuild a file exactly when they rewrite it. */
  lemma RebuildsIff(events: seq<Event>, files: Files, path: Str, client: Client)
    ensures Rebuilds(events, files, path, client) <==> Rewrites(events, files, path, client)
  {
    if path !in files || (exists e :: e in events && On(e, path) && (e.Delete? || !client.hasRead)) {
      RebuildsWhen(events, files, path, client);
    } else if exists e :: e in events && On(e, path) {
      UpsertsRebuild(files[path], events, path, client);
    } else {
      Untouched(None, events, path, client);
      Untouched(Some(files[path]), events, path, client);
    }
  }

  /**
   * A clean replay heals a delivery with failing calls, as if nothing had failed, exactly when the
   * events rewrite every file one of whose reads failed. Failed writes and deletes always heal.
   */
  lemma ReplayHeals(files: Files, tries: Delivery, events: seq<Event>, client: Client)
    requires forall i :: 0 <= i < |tries| ==> tries[i].0 in events
    ensures IngestAll(Deliver(files, tries, client), events, client) == IngestAll(files, events, client)
      <==> forall p :: Forgot(tries, p) ==> Rewrites(events, files, p, client)
  {
    var healed, clean := IngestAll(Deliver(files, tries, client), events, client), IngestAll(files, events, client);
    forall p
      ensures FileAt(healed, p) == FileAt(clean, p) <==> (Forgot(tries, p) ==> Rewrites(events, files, p, client))
    {
      EachFileOnItsOwn(files, events, p, client);
      CleanAfterRough(files, tries, events, p, client);
      RebuildsIff(events, files, p, client);
    }
    if forall p :: FileAt(healed, p) == FileAt(clean, p) { SameFiles(healed, clean); }
  }

  /** Stored fields that the events do not rewrite are lost for good. */
  lemma {:induction false} FieldsLost(file: Option<File>, events: seq<Event>, path: Str, client: Client, key: Str)
    requires client.hasRead && CarryFields(events) && key in FieldsOf(file)
    requires forall e :: e in events && On(e, path) ==> e.Upsert? && key !in Entries(e.payload, FIELDS)
    ensures key in FieldsOf(LocalAll(file, events, path, client))
      && key !in FieldsOf(LocalAll(None, events, path, client))
  {
    FieldsAreOverlay(file, events, path, client);
    FieldsAreOverlay(None, events, path, client);
    OverlayKeeps(FieldsOf(file), events, path, key);
    OverlayKeeps(map[], events, path, key);
  }

  lemma {:induction false} OverlayKeeps(start: map<Str, Str>, events: seq<Event>, path: Str, key: Str)
    requires forall e :: e in events && On(e, path) ==> e.Upsert? && key !in Entries(e.payload, FIELDS)
    ensures key in Overlay(start, events, path) <==> key in start
  {
    if events == [] {
    } else {
      assert events == events[..|events| - 1] + [events[|events| - 1]];
      OverlayKeeps(start, events[..|events| - 1], path, key);
    }
  }

  // ---------------------------------------------------------------------------
  // Fields
  // ---------------------------------------------------------------------------

  /** The fields of the upserts on a path since the last deletion, laid over one another; None after a deletion. */
  function Overlay(start: map<Str, Str>, events: seq<Event>, path: Str): map<Str, Str> {
    if events == [] then start
    else
      var before, last := Overlay(start, events[..|events| - 1], path), events[|events| - 1];
      if !On(last, path) then before
      else if last.Delete? then map[]
      else before + Entries(last.payload, FIELDS)
  }

  /** Upserts carry their fields as an object; deletions carry none. */
  predicate CarryFields(events: seq<Event>) {
    forall i :: 0 <= i < |events| ==>
      match events[i]
      case Upsert(_, _, _, payload) => FIELDS in payload && payload[FIELDS].Nested?
      case Delete(_, _, _, payload) => FIELDS !in payload
      case Broken(_) => true
  }

  function FieldsOf(file: Option<File>): map<Str, Str> {
    if file.Some? then Entries(file.value.payload, FIELDS) else map[]
  }

  /** The stored fields are the last-write-wins overlay of all deltas after the last deletion. */
  lemma {:induction false} FieldsAreOverlay(file: Option<File>, events: seq<Event>, path: Str, client: Client)
    requires client.hasRead && CarryFields(events)
    ensures FieldsOf(LocalAll(file, events, path, client)) == Overlay(FieldsOf(file), events, path)
  {
    if events == [] {
    } else {
      var front, last := events[..|events| - 1], events[|events| - 1];
      FieldsAreOverlay(file, front, path, client);
      if On(last, path) && last.Upsert? {
        MergeEntries(Existing(LocalAll(file, front, path, client), client), last.payload, FIELDS);
      }
    }
  }

  lemma KeysApart()
    ensures FIELDS != U("baseId") && FIELDS != U("tableId") && FIELDS != U("id") && FIELDS != WEBHOOK
  {
    assert U("baseId")[0] == 98 && U("tableId")[0] == 116 && U("id")[0] == 105 && FIELDS[0] == 102 && WEBHOOK[0] == 95;
  }

  lemma {:induction false} DeletesCarryNone(baseId: Str, tableId: Str, ids: seq<Option<Str>>, context: Context)
    ensures CarryFields(DeleteEvents(baseId, tableId, ids, context))
  {
    KeysApart();
    if ids == [] {
    } else {
      DeletesCarryNone(baseId, tableId, ids[..|ids| - 1], context);
    }
  }

  lemma TableCarries(baseId: Str, table: (Str, Option<TableChange>), context: Context)
    ensures CarryFields(TableEvents(baseId, table, context))
  {
    if table.1.Some? { DeletesCarryNone(baseId, table.0, table.1.value.destroyed, context); }
  }

  lemma {:induction false} TablesCarry(baseId: Str, tables: seq<(Str, Option<TableChange>)>, context: Context)
    ensures CarryFields(TablesEvents(baseId, tables, context))
  {
    if tables == [] {
    } else {
      TablesCarry(baseId, tables[..|tables| - 1], context);
      TableCarries(baseId, tables[|tables| - 1], context);
    }
  }

  /** Expanded change descriptors always carry their fields so, so what is said of overlays holds of them. */
  lemma {:induction false} DescriptorsCarryFields(descriptors: seq<Descriptor>, context: Context)
    requires forall i :: 0 <= i < |descriptors| ==> descriptors[i].Changes?
    ensures CarryFields(ExpandAll(descriptors, context))
  {
    if descriptors == [] {
    } else {
      DescriptorsCarryFields(descriptors[..|descriptors| - 1], context);
      var last := descriptors[|descriptors| - 1];
      TablesCarry(match ReadString(last.baseId) case Some(id) => id case None => context.baseId, last.tables, context);
    }
  }
}
