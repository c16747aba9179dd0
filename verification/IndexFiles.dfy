/**
 * IndexFileReconciler: upserts and removes of an index file are queued during a batch and
 * flushed once (packages/core/src/emit-auxiliary/index.ts:289-376). Rows are keyed by id; the
 * order in which a file lists them is not part of this model.
 */
module IndexFiles {
  import opened Wrappers
  import opened JsStrings

  type Table<R> = map<Str, R>

  datatype Action<R> = Upsert(id: Str, row: R) | Remove(id: Str)

  /** The queued rows, later rows winning. */
  function Upserts<R>(actions: seq<Action<R>>): Table<R> {
    if actions == [] then map[]
    else
      var before := Upserts(actions[..|actions| - 1]);
      match actions[|actions| - 1] case Upsert(id, row) => before[id := row] case Remove(_) => before
  }

  function Removes<R>(actions: seq<Action<R>>): set<Str> {
    if actions == [] then {}
    else
      Removes(actions[..|actions| - 1])
      + match actions[|actions| - 1] case Remove(id) => {id} case Upsert(_, _) => {}
  }

  /** What a flush writes: the removes first, then the upserts. */
  function Flushed<R>(table: Table<R>, actions: seq<Action<R>>): Table<R> {
    (table - Removes(actions)) + Upserts(actions)
  }

  /** What a flush leaves in the file when its read or its write may fail. */
  function Rewritten<R>(stored: Table<R>, actions: seq<Action<R>>, readOk: bool, writeOk: bool): Table<R> {
    if actions == [] || !writeOk then stored else Flushed(if readOk then stored else map[], actions)
  }

  /** What the actions mean one after the other. */
  function InOrder<R>(table: Table<R>, actions: seq<Action<R>>): Table<R> {
    if actions == [] then table
    else
      var before := InOrder(table, actions[..|actions| - 1]);
      match actions[|actions| - 1] case Upsert(id, row) => before[id := row] case Remove(id) => before - {id}
  }

  /** The reconciler of one index file during one batch. */
  class IndexFileReconciler<R> {
    var upserts: seq<(Str, R)>
    var removes: set<Str>
    ghost var actions: seq<Action<R>>

    ghost predicate Valid()
      reads this
    {
      && ToTable(upserts) == Upserts(actions)
      && (upserts == [] <==> Upserts(actions) == map[])
      && removes == Removes(actions)
    }

    constructor ()
      ensures Valid() && actions == []
    {
      upserts, removes, actions := [], {}, [];
    }

    method QueueUpsert(id: Str, row: R)
      requires Valid()
      modifies this
      ensures Valid() && actions == old(actions) + [Upsert(id, row)]
    {
      Snoc(actions, Upsert(id, row));
      assert (upserts + [(id, row)])[..|upserts|] == upserts;
      assert id in Upserts(actions + [Upsert(id, row)]);
      upserts, actions := upserts + [(id, row)], actions + [Upsert(id, row)];
    }

    method QueueRemove(id: Str)
      requires Valid()
      modifies this
      ensures Valid() && actions == old(actions) + [Remove(id)]
    {
      Snoc(actions, Remove(id));
      removes, actions := removes + {id}, actions + [Remove(id)];
    }

    /**
     * Reads, merges and writes the file once. A read that fails, like a missing or malformed file,
     * counts as an empty file; a write that fails leaves the file.
     */
    method Flush(stored: Table<R>, readOk: bool, writeOk: bool) returns (table: Table<R>, written: nat, failed: bool)
      requires Valid()
      ensures table == Rewritten(stored, actions, readOk, writeOk)
      ensures written == (if actions != [] && writeOk then 1 else 0) && failed == (actions != [] && !writeOk)
    {
      NothingQueued(actions);
      if |upserts| == 0 && removes == {} { return stored, 0, false; }
      var existing := if readOk then stored else map[];
      var byId := existing - removes;
      for i := 0 to |upserts|
        invariant byId == (existing - removes) + ToTable(upserts[..i])
      {
        assert upserts[..i + 1][..i] == upserts[..i];
        byId := byId[upserts[i].0 := upserts[i].1];
      }
      assert upserts[..|upserts|] == upserts;
      if !writeOk { return stored, 0, true; }
      return byId, 1, false;
    }
  }

  function ToTable<R>(rows: seq<(Str, R)>): Table<R> {
    if rows == [] then map[] else ToTable(rows[..|rows| - 1])[rows[|rows| - 1].0 := rows[|rows| - 1].1]
  }

  lemma Snoc<R>(actions: seq<Action<R>>, last: Action<R>)
    ensures Upserts(actions + [last])
      == if last.Upsert? then Upserts(actions)[last.id := last.row] else Upserts(actions)
    ensures Removes(actions + [last]) == Removes(actions) + if last.Remove? then {last.id} else {}
  {
    assert (actions + [last])[..|actions|] == actions;
  }

  lemma NothingQueued<R>(actions: seq<Action<R>>)
    ensures actions == [] <==> Upserts(actions) == map[] && Removes(actions) == {}
  {
    if actions != [] {
      var last := actions[|actions| - 1];
      assert last.Upsert? ==> last.id in Upserts(actions);
      assert last.Remove? ==> last.id in Removes(actions);
    }
  }

  // ---------------------------------------------------------------------------
  // When queueing is the same as acting in order
  // ---------------------------------------------------------------------------

  /** The last action on an id, if any. */
  function LastOn<R>(actions: seq<Action<R>>, id: Str): Option<Action<R>> {
    if actions == [] then None
    else if actions[|actions| - 1].id == id then Some(actions[|actions| - 1])
    else LastOn(actions[..|actions| - 1], id)
  }

  predicate RemovedLast<R>(actions: seq<Action<R>>, id: Str) {
    LastOn(actions, id).Some? && LastOn(actions, id).value.Remove?
  }

  /** No id is removed last after having been upserted. */
  ghost predicate Settled<R>(actions: seq<Action<R>>) {
    forall i :: 0 <= i < |actions| && actions[i].Upsert? ==> !RemovedLast(actions, actions[i].id)
  }

  lemma {:induction false} LastOnSome<R>(actions: seq<Action<R>>, id: Str)
    ensures LastOn(actions, id).Some? <==> exists i :: 0 <= i < |actions| && actions[i].id == id
    ensures LastOn(actions, id).Some? ==> LastOn(actions, id).value.id == id && LastOn(actions, id).value in actions
  {
    if actions == [] {
    } else {
      LastOnSome(actions[..|actions| - 1], id);
      var front := actions[..|actions| - 1];
      if i :| 0 <= i < |front| && front[i].id == id { assert actions[i].id == id; }
    }
  }

  lemma {:induction false} UpsertsOf<R>(actions: seq<Action<R>>, id: Str)
    ensures id in Upserts(actions) <==> exists i :: 0 <= i < |actions| && actions[i].Upsert? && actions[i].id == id
    ensures LastOn(actions, id).Some? && LastOn(actions, id).value.Upsert? ==>
      id in Upserts(actions) && Upserts(actions)[id] == LastOn(actions, id).value.row
  {
    if actions == [] {
    } else {
      var front := actions[..|actions| - 1];
      UpsertsOf(front, id);
      if i :| 0 <= i < |front| && front[i].Upsert? && front[i].id == id { assert actions[i] == front[i]; }
    }
  }

  lemma {:induction false} RemovesOf<R>(actions: seq<Action<R>>, id: Str)
    ensures LastOn(actions, id).Some? && LastOn(actions, id).value.Remove? ==> id in Removes(actions)
    ensures LastOn(actions, id).None? ==> id !in Removes(actions)
  {
    if actions == [] {
    } else {
      RemovesOf(actions[..|actions| - 1], id);
    }
  }

  lemma {:induction false} InOrderOf<R>(table: Table<R>, actions: seq<Action<R>>, id: Str)
    ensures match LastOn(actions, id)
      case None => (id in InOrder(table, actions) <==> id in table)
        && (id in table ==> InOrder(table, actions)[id] == table[id])
      case Some(Upsert(_, row)) => id in InOrder(table, actions) && InOrder(table, actions)[id] == row
      case Some(Remove(_)) => id !in InOrder(table, actions)
  {
    if actions == [] {
    } else {
      InOrderOf(table, actions[..|actions| - 1], id);
    }
  }

  lemma FlushedAt<R>(table: Table<R>, actions: seq<Action<R>>, id: Str)
    requires id in Upserts(actions) ==> !RemovedLast(actions, id)
    ensures (id in Flushed(table, actions) <==> id in InOrder(table, actions))
      && (id in Flushed(table, actions) ==> Flushed(table, actions)[id] == InOrder(table, actions)[id])
  {
    LastOnSome(actions, id);
    UpsertsOf(actions, id);
    RemovesOf(actions, id);
    InOrderOf(table, actions, id);
  }

  /**
   * Flushing a queue has the effect of its actions in order exactly when no id is removed last
   * after having been upserted: the upsert would win over the later remove.
   */
  lemma FlushIsInOrder<R>(table: Table<R>, actions: seq<Action<R>>)
    ensures Flushed(table, actions) == InOrder(table, actions) <==> Settled(actions)
  {
    if Settled(actions) {
      forall id ensures (id in Flushed(table, actions) <==> id in InOrder(table, actions))
        && (id in Flushed(table, actions) ==> Flushed(table, actions)[id] == InOrder(table, actions)[id])
      {
        UpsertsOf(actions, id);
        FlushedAt(table, actions, id);
      }
    } else {
      var i :| 0 <= i < |actions| && actions[i].Upsert? && RemovedLast(actions, actions[i].id);
      UpsertsOf(actions, actions[i].id);
      InOrderOf(table, actions, actions[i].id);
      assert actions[i].id in Flushed(table, actions) && actions[i].id !in InOrder(table, actions);
    }
  }

  /** A flush whose read failed gives what it should exactly when every stored row is written or removed by it. */
  lemma FailedReadForgets<R>(stored: Table<R>, actions: seq<Action<R>>)
    requires actions != []
    ensures Rewritten(stored, actions, false, true) == Rewritten(stored, actions, true, true)
      <==> forall id :: id in stored ==> id in Upserts(actions) || id in Removes(actions)
  {
    var blind, seeing := Rewritten(stored, actions, false, true), Rewritten(stored, actions, true, true);
    if id :| id in stored && id !in Upserts(actions) && id !in Removes(actions) {
      assert id in seeing && id !in blind;
    } else {
      assert forall id :: id in seeing <==> id in blind;
    }
  }

  lemma {:induction false} InOrderConcat<R>(table: Table<R>, a: seq<Action<R>>, b: seq<Action<R>>)
    ensures InOrder(table, a + b) == InOrder(InOrder(table, a), b)
  {
    if b == [] {
      assert a + b == a;
    } else {
      assert (a + b)[..|a + b| - 1] == a + b[..|b| - 1];
      InOrderConcat(table, a, b[..|b| - 1]);
    }
  }
}
