/**
 * Airtable notifications from fetch to files: whatever pages a change log is fetched in, and however
 * far each notification falls back, ingesting what is fetched is ingesting the log once
 * (packages/airtable/src/fetch-on-demand.ts:36-71 and packages/airtable/src/airtable-adapter.ts:226-292).
 */
module AirtableDelivery {
  import opened Wrappers
  import opened AirtableAdapter
  import opened AirtableReplay
  import opened AirtableFetch

  type Log = seq<Descriptor>

  /** A notification: the server as it then was, the cursor it starts from, and how long the log then was. */
  datatype Notification = Notification(server: Server<Descriptor>, from: nat, upTo: nat)

  /** Each notification pages the log as far as it then reached, from no later than the one before stopped. */
  ghost predicate Follows(notifications: seq<Notification>, log: Log, start: nat) {
    if notifications == [] then start == |log|
    else
      var first := notifications[0];
      && first.from <= start && first.from <= first.upTo <= |log| && Serves(first.server, log[..first.upTo])
      && Follows(notifications[1..], log, first.upTo)
  }

  /** How many requests a notification may need. */
  function Needed(n: Notification): nat { if n.from <= n.upTo then n.upTo - n.from + 1 else 0 }

  ghost predicate Fetches(n: Notification) {
    Ends(n.server, Some(n.from), Needed(n)) && Fetched(n.server, Some(n.from), Needed(n)).Some?
  }

  /** The descriptors a notification fetches; none when a request fails. */
  ghost function FetchedBy(n: Notification): Log {
    if Fetches(n) then Fetched(n.server, Some(n.from), Needed(n)).value.0 else []
  }

  /** The files after fetching and ingesting for each notification in turn. */
  ghost function Receive(files: Files, notifications: seq<Notification>, client: Client, context: Context): Files
    decreases |notifications|
  {
    if notifications == [] then files
    else
      var events := ExpandAll(FetchedBy(notifications[0]), context);
      Receive(IngestAll(files, events, client), notifications[1..], client, context)
  }

  lemma FetchesSlice(n: Notification, log: Log)
    requires n.from <= n.upTo <= |log| && Serves(n.server, log[..n.upTo])
    ensures Fetches(n) && FetchedBy(n) == log[n.from..n.upTo]
  {
    FetchesRestOfLog(n.server, log[..n.upTo], n.from);
    assert log[..n.upTo][n.from..] == log[n.from..n.upTo];
  }

  lemma ExpandSnoc(front: Log, last: Descriptor, context: Context)
    ensures ExpandAll(front + [last], context) == ExpandAll(front, context) + Expand(last, context)
  {
    assert (front + [last])[..|front|] == front;
  }

  lemma Regroup(a: seq<Event>, b: seq<Event>, c: seq<Event>)
    ensures (a + b) + c == a + (b + c)
  {}

  lemma {:induction false} ExpandConcat(a: Log, b: Log, context: Context)
    ensures ExpandAll(a + b, context) == ExpandAll(a, context) + ExpandAll(b, context)
  {
    if b == [] {
      assert a + b == a;
    } else {
      var front, last := b[..|b| - 1], b[|b| - 1];
      assert b == front + [last] && a + b == (a + front) + [last];
      ExpandConcat(a, front, context);
      ExpandSnoc(a + front, last, context);
      ExpandSnoc(front, last, context);
      Regroup(ExpandAll(a, context), ExpandAll(front, context), Expand(last, context));
    }
  }

  /** Where in the events a position of the log lies. */
  function Position(log: Log, k: nat, context: Context): nat
    requires k <= |log|
  {
    |ExpandAll(log[..k], context)|
  }

  /** The events of a stretch of the log are a stretch of its events. */
  lemma Stretch(log: Log, from: nat, upTo: nat, context: Context)
    requires from <= upTo <= |log|
    ensures Position(log, from, context) <= Position(log, upTo, context) <= |ExpandAll(log, context)|
    ensures ExpandAll(log[from..upTo], context)
      == ExpandAll(log, context)[Position(log, from, context)..Position(log, upTo, context)]
  {
    assert log == log[..upTo] + log[upTo..] && log[..upTo] == log[..from] + log[from..upTo];
    ExpandConcat(log[..upTo], log[upTo..], context);
    ExpandConcat(log[..from], log[from..upTo], context);
  }

  /** The attempts, over the events, that the notifications come to. */
  ghost function Attempts(notifications: seq<Notification>, log: Log, start: nat, context: Context): seq<Attempt>
    requires Follows(notifications, log, start)
  {
    if notifications == [] then []
    else
      var n := notifications[0];
      [Attempt(Position(log, n.from, context), Position(log, n.upTo, context))]
      + Attempts(notifications[1..], log, n.upTo, context)
  }

  lemma {:induction false} AttemptsWalk(notifications: seq<Notification>, log: Log, start: nat, context: Context)
    requires start <= |log| && Follows(notifications, log, start)
    ensures Walk(Attempts(notifications, log, start, context), |ExpandAll(log, context)|, Position(log, start, context))
    decreases |notifications|
  {
    if notifications == [] {
      assert log[..|log|] == log;
    } else {
      var n := notifications[0];
      Stretch(log, n.from, n.upTo, context);
      Stretch(log, n.from, start, context);
      AttemptsWalk(notifications[1..], log, n.upTo, context);
    }
  }

  lemma {:induction false} ReceivesDelivered(files: Files, notifications: seq<Notification>, log: Log, start: nat,
                                             client: Client, context: Context)
    requires start <= |log| && Follows(notifications, log, start)
    requires Walk(Attempts(notifications, log, start, context), |ExpandAll(log, context)|,
                  Position(log, start, context))
    ensures
      var delivered := Delivered(Attempts(notifications, log, start, context), ExpandAll(log, context),
                                 Position(log, start, context));
      Receive(files, notifications, client, context) == IngestAll(files, delivered, client)
    decreases |notifications|
  {
    if notifications == [] {
    } else {
      var n, events := notifications[0], ExpandAll(log, context);
      FetchesSlice(n, log);
      Stretch(log, n.from, n.upTo, context);
      AttemptsWalk(notifications[1..], log, n.upTo, context);
      var part, rest := ExpandAll(FetchedBy(n), context), Attempts(notifications[1..], log, n.upTo, context);
      ReceivesDelivered(IngestAll(files, part, client), notifications[1..], log, n.upTo, client, context);
      IngestConcat(files, part, Delivered(rest, events, Position(log, n.upTo, context)), client);
    }
  }

  /**
   * Whatever page sizes the server chooses and however far notifications fall back, once they have
   * followed the log to its end the files are those of ingesting the whole log once.
   */
  lemma NotificationsAreTheLog(files: Files, notifications: seq<Notification>, log: Log, client: Client,
                               context: Context)
    requires Follows(notifications, log, 0)
    ensures Receive(files, notifications, client, context) == IngestAll(files, ExpandAll(log, context), client)
  {
    AttemptsWalk(notifications, log, 0, context);
    ReceivesDelivered(files, notifications, log, 0, client, context);
    assert log[..0] == [];
    AtLeastOnceIsOnce(files, Attempts(notifications, log, 0, context), ExpandAll(log, context), client);
  }
}
