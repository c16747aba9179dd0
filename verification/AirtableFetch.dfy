/**
 * The cursor loop of fetchOnDemand (packages/airtable/src/fetch-on-demand.ts:35-71, 120-131): what it
 * returns whenever it ends, on which servers it ends, and that on a server that pages a log it
 * returns the rest of the log, each payload once and in order.
 */
module AirtableFetch {
  import opened Wrappers

  /** A normalised page: the payloads that are objects, and the optional cursor. */
  datatype Page<T> = Page(payloads: seq<T>, cursor: Option<nat>, mightHaveMore: bool)

  /** The answer to a request with a cursor; None when the request fails or is not an object. */
  type Server<!T> = Option<nat> -> Option<Page<T>>

  /** The loop goes on: there may be more, and the page names another cursor. */
  predicate Continues<T>(page: Page<T>, cursor: Option<nat>) {
    page.mightHaveMore && page.cursor.Some? && page.cursor != cursor
  }

  /** Started at this cursor, the loop stops within n requests. */
  ghost predicate Ends<T>(server: Server<T>, cursor: Option<nat>, n: nat)
    decreases n
  {
    n > 0
    && (server(cursor).None? || !Continues(server(cursor).value, cursor)
        || Ends(server, server(cursor).value.cursor, n - 1))
  }

  /** When one request is enough, and else one more than the next cursor needs. */
  lemma StopsWhen<T>(server: Server<T>, cursor: Option<nat>, n: nat)
    ensures Ends(server, cursor, 1) <==>
      || server(cursor).None? || !server(cursor).value.mightHaveMore || server(cursor).value.cursor.None?
      || server(cursor).value.cursor == cursor
    ensures !Ends(server, cursor, 1) ==>
      (Ends(server, cursor, n + 1) <==> Ends(server, server(cursor).value.cursor, n))
  {}

  /** All payloads from a cursor on, and the last page; None when a request fails. */
  ghost function Fetched<T>(server: Server<T>, cursor: Option<nat>, n: nat): Option<(seq<T>, Page<T>)>
    requires Ends(server, cursor, n)
    decreases n
  {
    var page :- server(cursor);
    if !Continues(page, cursor) then Some((page.payloads, page))
    else
      var (rest, last) :- Fetched(server, page.cursor, n - 1);
      Some((page.payloads + rest, last))
  }

  /** How many requests were allowed for does not matter. */
  lemma {:induction false} FetchedAnyway<T>(server: Server<T>, cursor: Option<nat>, m: nat, n: nat)
    requires Ends(server, cursor, m) && Ends(server, cursor, n)
    ensures Fetched(server, cursor, m) == Fetched(server, cursor, n)
    decreases m
  {
    if server(cursor).Some? && Continues(server(cursor).value, cursor) {
      FetchedAnyway(server, server(cursor).value.cursor, m - 1, n - 1);
    }
  }

  function After<T>(payloads: seq<T>, rest: Option<(seq<T>, Page<T>)>): Option<(seq<T>, Page<T>)> {
    match rest case None => None case Some((more, last)) => Some((payloads + more, last))
  }

  lemma AfterNothing<T>(rest: Option<(seq<T>, Page<T>)>)
    ensures After([], rest) == rest
  {
    if rest.Some? { assert [] + rest.value.0 == rest.value.0; }
  }

  lemma OnePageMore<T>(server: Server<T>, cursor: Option<nat>, n: nat, payloads: seq<T>)
    requires Ends(server, cursor, n) && server(cursor).Some?
    ensures
      var page := server(cursor).value;
      After(payloads, Fetched(server, cursor, n)) ==
        if !Continues(page, cursor) then Some((payloads + page.payloads, page))
        else After(payloads + page.payloads, Fetched(server, page.cursor, n - 1))
  {
    var page := server(cursor).value;
    if Continues(page, cursor) && Fetched(server, page.cursor, n - 1).Some? {
      var more := Fetched(server, page.cursor, n - 1).value.0;
      assert payloads + (page.payloads + more) == payloads + page.payloads + more;
    }
  }

  /** The loop of fetchOnDemand; `None` for the last page stands for a request that fails, and so throws. */
  method FetchOnDemand<T>(server: Server<T>, start: Option<nat>, ghost n: nat)
    returns (payloads: seq<T>, lastPage: Option<Page<T>>)
    requires Ends(server, start, n)
    ensures lastPage.None? <==> Fetched(server, start, n).None?
    ensures lastPage.Some? ==> Fetched(server, start, n) == Some((payloads, lastPage.value))
  {
    var cursor := start;
    ghost var left := n;
    payloads, lastPage := [], None;
    AfterNothing(Fetched(server, start, n));
    while true
      invariant Ends(server, cursor, left)
      invariant Fetched(server, start, n) == After(payloads, Fetched(server, cursor, left))
      decreases left
    {
      var response := server(cursor);
      if response.None? { return [], None; }
      var page := response.value;
      OnePageMore(server, cursor, left, payloads);
      payloads := payloads + page.payloads;
      if !Continues(page, cursor) { return payloads, Some(page); }
      cursor := page.cursor;
      left := left - 1;
    }
  }

  // ---------------------------------------------------------------------------
  // On which servers it ends
  // ---------------------------------------------------------------------------

  /** Wherever the loop goes on, the cursor moves up, and never past the bound. */
  ghost predicate Advances<T>(server: Server<T>, bound: nat) {
    forall c: Option<nat> :: server(c).Some? && Continues(server(c).value, c) ==>
      server(c).value.cursor.value <= bound && (c.Some? ==> c.value < server(c).value.cursor.value)
  }

  function Distance(cursor: Option<nat>, bound: nat): nat {
    match cursor case None => bound + 1 case Some(c) => if c <= bound then bound - c else 0
  }

  /** On every server whose cursors advance to a bound. */
  lemma {:induction false} AdvancingServersEnd<T>(server: Server<T>, cursor: Option<nat>, bound: nat)
    requires Advances(server, bound)
    ensures Ends(server, cursor, Distance(cursor, bound) + 1)
    decreases Distance(cursor, bound)
  {
    if server(cursor).Some? && Continues(server(cursor).value, cursor) {
      AdvancingServersEnd(server, server(cursor).value.cursor, bound);
      EndsLater(server, server(cursor).value.cursor, Distance(server(cursor).value.cursor, bound) + 1,
                Distance(cursor, bound));
    }
  }

  lemma {:induction false} EndsLater<T>(server: Server<T>, cursor: Option<nat>, m: nat, n: nat)
    requires Ends(server, cursor, m) && m <= n
    ensures Ends(server, cursor, n)
    decreases m
  {
    if server(cursor).Some? && Continues(server(cursor).value, cursor) {
      EndsLater(server, server(cursor).value.cursor, m - 1, n - 1);
    }
  }

  /** The cursor of the k-th request after the first; None when the loop has ended by then. */
  ghost function At<T>(server: Server<T>, start: Option<nat>, k: nat): Option<Option<nat>> {
    if k == 0 then Some(start)
    else
      match At(server, start, k - 1)
      case None => None
      case Some(c) => if server(c).None? || !Continues(server(c).value, c) then None else Some(server(c).value.cursor)
  }

  lemma {:induction false} AtShifted<T>(server: Server<T>, start: Option<nat>, k: nat)
    requires server(start).Some? && Continues(server(start).value, start)
    ensures At(server, start, k + 1) == At(server, server(start).value.cursor, k)
  {
    if k > 0 { AtShifted(server, start, k - 1); }
  }

  lemma {:induction false} AtEnded<T>(server: Server<T>, start: Option<nat>, k: nat, m: nat)
    requires At(server, start, k).None? && k <= m
    ensures At(server, start, m).None?
    decreases m
  {
    if k < m { AtEnded(server, start, k, m - 1); }
  }

  /** The loop ends within n requests exactly when there is no n-th further one. */
  lemma {:induction false} EndsWhenNoneIsLeft<T>(server: Server<T>, start: Option<nat>, n: nat)
    ensures Ends(server, start, n) <==> At(server, start, n).None?
    decreases n
  {
    if n > 0 {
      if server(start).Some? && Continues(server(start).value, start) {
        EndsWhenNoneIsLeft(server, server(start).value.cursor, n - 1);
        AtShifted(server, start, n - 1);
      } else {
        assert At(server, start, 0) == Some(start) && At(server, start, 1).None?;
        AtEnded(server, start, 1, n);
      }
    }
  }

  /** Some request repeats the cursor of an earlier one. */
  ghost predicate Repeats<T>(server: Server<T>, start: Option<nat>) {
    exists i: nat, j: nat :: i < j && RepeatsAt(server, start, i, j)
  }

  ghost predicate RepeatsAt<T>(server: Server<T>, start: Option<nat>, i: nat, j: nat) {
    At(server, start, i).Some? && At(server, start, i) == At(server, start, j)
  }

  /** From a repeated cursor on, the requests go round. */
  lemma {:induction false} GoesRound<T>(server: Server<T>, start: Option<nat>, i: nat, j: nat, m: nat)
    requires At(server, start, i) == At(server, start, j)
    ensures At(server, start, i + m) == At(server, start, j + m)
  {
    if m > 0 { GoesRound(server, start, i, j, m - 1); }
  }

  lemma {:induction false} GoesOn<T>(server: Server<T>, start: Option<nat>, i: nat, j: nat, k: nat)
    requires i < j && RepeatsAt(server, start, i, j)
    ensures At(server, start, k).Some?
    decreases k
  {
    if k <= j {
      if At(server, start, k).None? { AtEnded(server, start, k, j); }
    } else {
      GoesRound(server, start, i, j, k - j);
      GoesOn(server, start, i, j, i + (k - j));
    }
  }

  /** A loop that repeats a cursor never ends, on any server. */
  lemma RepeatingNeverEnds<T>(server: Server<T>, start: Option<nat>, n: nat)
    requires Repeats(server, start)
    ensures !Ends(server, start, n)
  {
    var i: nat, j: nat :| i < j && RepeatsAt(server, start, i, j);
    GoesOn(server, start, i, j, n);
    EndsWhenNoneIsLeft(server, start, n);
  }

  /** The cursors that the server returns to the loop stay below the bound. */
  ghost predicate Bounded<T>(server: Server<T>, start: Option<nat>, bound: nat) {
    forall k: nat :: k > 0 && At(server, start, k).Some? ==>
      At(server, start, k).value.Some? && At(server, start, k).value.value < bound
  }

  /** There are no more distinct numbers below a bound than the bound. */
  lemma {:induction false} Pigeonhole(s: seq<nat>, bound: nat)
    requires forall i :: 0 <= i < |s| ==> s[i] < bound
    requires forall i, j :: 0 <= i < j < |s| ==> s[i] != s[j]
    ensures |s| <= bound
    decreases bound
  {
    if s == [] {
    } else {
      assert s[0] < bound;
      if i :| 0 <= i < |s| && s[i] == bound - 1 {
        Pigeonhole(s[..i] + s[i + 1..], bound - 1);
      } else {
        Pigeonhole(s, bound - 1);
      }
    }
  }

  lemma BoundedEnds<T>(server: Server<T>, start: Option<nat>, bound: nat)
    requires Bounded(server, start, bound) && !Repeats(server, start)
    ensures At(server, start, bound + 1).None?
  {
    if At(server, start, bound + 1).Some? {
      forall k: nat | k <= bound + 1 ensures At(server, start, k).Some? {
        if At(server, start, k).None? { AtEnded(server, start, k, bound + 1); }
      }
      var cursors := seq(bound + 1, k requires 0 <= k < bound + 1 => At(server, start, k + 1).value.value);
      forall i, j | 0 <= i < j < |cursors| ensures cursors[i] != cursors[j] {
        assert !RepeatsAt(server, start, i + 1, j + 1);
      }
      Pigeonhole(cursors, bound);
    }
  }

  /**
   * On a server whose cursors are bounded the loop ends exactly when no request repeats the cursor of
   * an earlier one, and then within one request more than the bound.
   */
  lemma EndsUnlessItRepeats<T>(server: Server<T>, start: Option<nat>, bound: nat)
    requires Bounded(server, start, bound)
    ensures (exists n: nat :: Ends(server, start, n)) <==> !Repeats(server, start)
    ensures Ends(server, start, bound + 1) <==> !Repeats(server, start)
  {
    if Repeats(server, start) {
      forall n: nat ensures !Ends(server, start, n) { RepeatingNeverEnds(server, start, n); }
    } else {
      BoundedEnds(server, start, bound);
      EndsWhenNoneIsLeft(server, start, bound + 1);
    }
  }

  /** So it never ends on a server whose cursors alternate: only a cursor that repeats at once stops it. */
  lemma AlternatingServerNeverEnds<T>(server: Server<T>, a: nat, b: nat, n: nat)
    requires a != b && server(Some(a)).Some? && server(Some(b)).Some?
    requires server(Some(a)).value.mightHaveMore && server(Some(a)).value.cursor == Some(b)
    requires server(Some(b)).value.mightHaveMore && server(Some(b)).value.cursor == Some(a)
    ensures !Ends(server, Some(a), n)
  {
    assert At(server, Some(a), 0) == Some(Some(a));
    assert At(server, Some(a), 1) == Some(Some(b));
    assert At(server, Some(a), 2) == Some(Some(a));
    assert RepeatsAt(server, Some(a), 0, 2);
    RepeatingNeverEnds(server, Some(a), n);
  }

  /**
   * A server that pages a log: from a cursor it returns some of what follows, at least one payload when
   * there is more.
   */
  ghost predicate Serves<T>(server: Server<T>, log: seq<T>) {
    forall c: nat :: c <= |log| ==> server(Some(c)).Some? && ServesPage(server(Some(c)).value, c, log)
  }

  predicate ServesPage<T(==)>(page: Page<T>, c: nat, log: seq<T>)
    requires c <= |log|
  {
    && page.cursor.Some? && c <= page.cursor.value <= |log|
    && page.payloads == log[c..page.cursor.value]
    && (page.mightHaveMore <==> page.cursor.value < |log|)
    && (page.mightHaveMore ==> c < page.cursor.value)
  }

  lemma NextPage<T>(server: Server<T>, cursor: Option<nat>, n: nat, page: Page<T>, rest: seq<T>, last: Page<T>)
    requires server(cursor) == Some(page) && Continues(page, cursor)
    requires Ends(server, page.cursor, n) && Fetched(server, page.cursor, n) == Some((rest, last))
    ensures Ends(server, cursor, n + 1) && Fetched(server, cursor, n + 1) == Some((page.payloads + rest, last))
  {}

  /** What is left of the log is what fetching from a position returns. */
  ghost predicate Returns<T>(server: Server<T>, start: nat, n: nat, rest: seq<T>, end: nat) {
    && Ends(server, Some(start), n) && Fetched(server, Some(start), n).Some?
    && Fetched(server, Some(start), n).value.0 == rest && Fetched(server, Some(start), n).value.1.cursor == Some(end)
  }

  lemma ReturnsAnyway<T>(server: Server<T>, start: nat, m: nat, n: nat, rest: seq<T>, end: nat)
    requires Returns(server, start, m, rest, end) && m <= n
    ensures Returns(server, start, n, rest, end)
  {
    EndsLater(server, Some(start), m, n);
    FetchedAnyway(server, Some(start), m, n);
  }

  lemma PageThenRest<T>(server: Server<T>, start: nat, n: nat, page: Page<T>, next: nat, rest: seq<T>, end: nat)
    requires server(Some(start)) == Some(page) && Continues(page, Some(start)) && page.cursor == Some(next)
    requires Returns(server, next, n, rest, end)
    ensures Returns(server, start, n + 1, page.payloads + rest, end)
  {
    var (more, last) := Fetched(server, Some(next), n).value;
    NextPage(server, Some(start), n, page, more, last);
  }

  /** Whatever page sizes the server chooses, fetching from a position ends and returns the rest of the log. */
  lemma {:induction false} FetchesRestOfLog<T>(server: Server<T>, log: seq<T>, start: nat)
    requires Serves(server, log) && start <= |log|
    ensures Returns(server, start, |log| - start + 1, log[start..], |log|)
    decreases |log| - start
  {
    var page := server(Some(start)).value;
    assert ServesPage(page, start, log);
    if Continues(page, Some(start)) {
      FetchesRestOfLog(server, log, page.cursor.value);
      RestAfterPage(server, log, start, page, page.cursor.value);
    } else {
      LastPage(server, log, start);
    }
  }

  lemma RestAfterPage<T>(server: Server<T>, log: seq<T>, start: nat, page: Page<T>, next: nat)
    requires start < next <= |log| && server(Some(start)) == Some(page) && Continues(page, Some(start))
    requires page.cursor == Some(next) && page.payloads == log[start..next]
    requires Returns(server, next, |log| - next + 1, log[next..], |log|)
    ensures Returns(server, start, |log| - start + 1, log[start..], |log|)
  {
    ReturnsAnyway(server, next, |log| - next + 1, |log| - start, log[next..], |log|);
    PageThenRest(server, start, |log| - start, page, next, log[next..], |log|);
    assert log[start..next] + log[next..] == log[start..];
  }

  lemma LastPage<T>(server: Server<T>, log: seq<T>, start: nat)
    requires start <= |log| && server(Some(start)).Some? && ServesPage(server(Some(start)).value, start, log)
    requires !Continues(server(Some(start)).value, Some(start))
    ensures Returns(server, start, |log| - start + 1, log[start..], |log|)
  {
    assert log[start..|log|] == log[start..];
  }
}
