/**
 * Confluence ingestion: one event fans out to a canonical file and its aliases, and the by-id
 * alias is read back to delete the paths a record no longer has
 * (packages/confluence/src/confluence-adapter.ts:114-290, 442-485).
 */
module ConfluenceAdapter {
  import opened Wrappers
  import opened JsStrings
  import opened StatusSlugs
  import opened ConfluencePaths
  import opened AliasStore

  datatype Event = Event(eventType: Str, kind: Kind, objectId: Str, payload: Payload)

  /** What a stored file holds, seen through JSON.parse. */
  datatype Content = Wrapper(kind: Kind, objectId: Str, payload: Payload) | Other

  type Files = map<Str, Content>

  /**
   * The client of one event: which of the optional calls it has and which calls succeed. An event
   * reads one path and deletes or writes each path at most once. `updates` tells which successful
   * writes report an update.
   */
  datatype Client = Client(hasRead: bool, hasDelete: bool, readOk: Str -> bool, deleteOk: Str -> bool,
                           writeOk: Str -> bool, updates: Str -> bool)

  datatype Result = Result(written: nat, updated: nat, deleted: nat, paths: seq<Str>, errors: seq<Str>)

  datatype Outcome = Done(files: Files, result: Result) | Rejected(files: Files)

  /** The paths of a record and its by-id path; None when printing throws. */
  datatype Layout = Layout(targets: (Kind, Str, Payload) -> Option<seq<Str>>, anchor: (Kind, Str) -> Option<Str>)

  function PrintAll(places: seq<Place>): seq<Str> { seq(|places|, i requires 0 <= i < |places| => Print(places[i])) }

  function LayoutOf(u: Unicode): Layout {
    Layout((kind, id, payload) => match Places(kind, id, FieldsOf(payload), TextOf(u))
                                  case Some(places) => Some(PrintAll(places)) case None => None,
           (kind, id) => match Anchor(kind, id, TextOf(u)) case Some(place) => Some(Print(place)) case None => None)
  }

  function TargetsOf(event: Event, layout: Layout): Option<seq<Str>> {
    layout.targets(event.kind, event.objectId, event.payload)
  }

  // ---------------------------------------------------------------------------
  // The function computed
  // ---------------------------------------------------------------------------

  function Filter(paths: seq<Str>, keep: Str -> bool): seq<Str> {
    if paths == [] then []
    else Filter(paths[..|paths| - 1], keep) + if keep(paths[|paths| - 1]) then [paths[|paths| - 1]] else []
  }

  function Not(keep: Str -> bool): Str -> bool { p => !keep(p) }

  function And(a: Str -> bool, b: Str -> bool): Str -> bool { p => a(p) && b(p) }

  /** The files after deleting those of the paths whose delete succeeds. */
  function Removed(files: Files, paths: seq<Str>, ok: Str -> bool): Files {
    map p | p in files && !(p in paths && ok(p)) :: files[p]
  }

  /** The files after writing those of the paths whose write succeeds. */
  function Written(files: Files, paths: seq<Str>, ok: Str -> bool, content: Content): Files {
    files + map p | p in paths && ok(p) :: content
  }

  /** computeStalePaths; None when it throws. */
  function StalePaths(files: Files, event: Event, current: seq<Str>, client: Client, layout: Layout): Option<seq<Str>> {
    if !client.hasRead then Some([])
    else
      var anchor :- layout.anchor(event.kind, event.objectId);
      if !client.readOk(anchor) || anchor !in files || files[anchor].Other? then Some([])
      else
        var prior :- layout.targets(event.kind, event.objectId, files[anchor].payload);
        Some(Outdated(prior, current))
  }

  /** `String.prototype.includes` */
  predicate Contains(text: Str, part: Str) { part <= text || (text != [] && Contains(text[1..], part)) }

  /** isDeleteEvent */
  predicate IsDelete(event: Event, lower: Str -> Str) {
    Contains(lower(event.eventType), U("deleted")) || event.payload.deleted
  }

  function Rendering(event: Event): Content { Wrapper(event.kind, event.objectId, event.payload) }

  function DeleteResult(paths: seq<Str>, client: Client): Result {
    if !client.hasDelete then Result(0, 0, 0, paths, paths)
    else
      var succeeded := Filter(paths, client.deleteOk);
      Result(0, 0, |succeeded|, succeeded, Filter(paths, Not(client.deleteOk)))
  }

  function WriteResult(paths: seq<Str>, stale: seq<Str>, client: Client): Result {
    var deletes := if client.hasDelete then stale else [];
    Result(|Filter(paths, And(client.writeOk, Not(client.updates)))|,
           |Filter(paths, And(client.writeOk, client.updates))|,
           |Filter(deletes, client.deleteOk)|,
           Filter(deletes, client.deleteOk) + Filter(paths, client.writeOk),
           Filter(deletes, Not(client.deleteOk)) + Filter(paths, Not(client.writeOk)))
  }

  function Ingest(files: Files, event: Event, client: Client, layout: Layout, lower: Str -> Str): Outcome {
    match TargetsOf(event, layout)
    case None => Done(files, Result(0, 0, 0, [], [[]]))
    case Some(targets) =>
      if IsDelete(event, lower) then
        Done(if client.hasDelete then Removed(files, targets, client.deleteOk) else files,
             DeleteResult(targets, client))
      else
        match StalePaths(files, event, targets, client, layout)
        case None => Rejected(files)
        case Some(stale) =>
          var kept := if client.hasDelete then Removed(files, stale, client.deleteOk) else files;
          Done(Written(kept, targets, client.writeOk, Rendering(event)), WriteResult(targets, stale, client))
  }

  // ---------------------------------------------------------------------------
  // The adapter
  // ---------------------------------------------------------------------------

  class Adapter {
    var files: Files
    const client: Client
    const layout: Layout
    const lower: Str -> Str

    constructor (files: Files, client: Client, layout: Layout, lower: Str -> Str)
      ensures this.files == files && this.client == client && this.layout == layout && this.lower == lower
    {
      this.files, this.client, this.layout, this.lower := files, client, layout, lower;
    }

    method FanoutDelete(paths: seq<Str>) returns (result: Result)
      modifies this
      ensures files == if client.hasDelete then Removed(old(files), paths, client.deleteOk) else old(files)
      ensures result == DeleteResult(paths, client)
    {
      if !client.hasDelete { return Result(0, 0, 0, paths, paths); }
      var deleted, succeeded, errors := DeleteEach(paths);
      return Result(0, 0, deleted, succeeded, errors);
    }

    method DeleteEach(paths: seq<Str>) returns (deleted: nat, succeeded: seq<Str>, errors: seq<Str>)
      modifies this
      ensures files == Removed(old(files), paths, client.deleteOk)
      ensures succeeded == Filter(paths, client.deleteOk) && errors == Filter(paths, Not(client.deleteOk))
      ensures deleted == |succeeded|
    {
      deleted, succeeded, errors := 0, [], [];
      for i := 0 to |paths|
        invariant files == Removed(old(files), paths[..i], client.deleteOk)
        invariant succeeded == Filter(paths[..i], client.deleteOk) && errors == Filter(paths[..i], Not(client.deleteOk))
        invariant deleted == |succeeded|
      {
        FilterStep(paths, i, client.deleteOk);
        FilterStep(paths, i, Not(client.deleteOk));
        if client.deleteOk(paths[i]) {
          files := files - {paths[i]};
          deleted := deleted + 1;
          succeeded := succeeded + [paths[i]];
        } else {
          errors := errors + [paths[i]];
        }
      }
      assert paths[..|paths|] == paths;
    }

    method WriteEach(paths: seq<Str>, content: Content)
      returns (written: nat, updated: nat, succeeded: seq<Str>, errors: seq<Str>)
      modifies this
      ensures files == Written(old(files), paths, client.writeOk, content)
      ensures succeeded == Filter(paths, client.writeOk) && errors == Filter(paths, Not(client.writeOk))
      ensures written == |Filter(paths, And(client.writeOk, Not(client.updates)))|
      ensures updated == |Filter(paths, And(client.writeOk, client.updates))|
    {
      written, updated, succeeded, errors := 0, 0, [], [];
      for i := 0 to |paths|
        invariant files == Written(old(files), paths[..i], client.writeOk, content)
        invariant succeeded == Filter(paths[..i], client.writeOk) && errors == Filter(paths[..i], Not(client.writeOk))
        invariant written == |Filter(paths[..i], And(client.writeOk, Not(client.updates)))|
        invariant updated == |Filter(paths[..i], And(client.writeOk, client.updates))|
      {
        WriteStep(paths, i, client);
        WrittenStep(old(files), paths, i, client.writeOk, content);
        if client.writeOk(paths[i]) {
          files := files[paths[i] := content];
          if client.updates(paths[i]) { updated := updated + 1; } else { written := written + 1; }
          succeeded := succeeded + [paths[i]];
        } else {
          errors := errors + [paths[i]];
        }
      }
      assert paths[..|paths|] == paths;
    }

    method FanoutWrite(paths: seq<Str>, content: Content, stale: seq<Str>) returns (result: Result)
      modifies this
      ensures
        var kept := if client.hasDelete then Removed(old(files), stale, client.deleteOk) else old(files);
        files == Written(kept, paths, client.writeOk, content)
      ensures result == WriteResult(paths, stale, client)
    {
      var deleted, removed, failed := 0, [], [];
      if |stale| > 0 && client.hasDelete {
        deleted, removed, failed := DeleteEach(stale);
      } else {
        assert Removed(files, [], client.deleteOk) == files;
      }
      var written, updated, succeeded, errors := WriteEach(paths, content);
      return Result(written, updated, deleted, removed + succeeded, failed + errors);
    }

    method ComputeStalePaths(event: Event, current: seq<Str>) returns (stale: Option<seq<Str>>)
      ensures stale == StalePaths(files, event, current, client, layout)
    {
      if !client.hasRead { return Some([]); }
      var anchor := layout.anchor(event.kind, event.objectId);
      if anchor.None? { return None; }
      if !client.readOk(anchor.value) || anchor.value !in files { return Some([]); }
      var content := files[anchor.value];
      if content.Other? { return Some([]); }
      var prior := layout.targets(event.kind, event.objectId, content.payload);
      if prior.None? { return None; }
      var outdated: seq<Str> := [];
      for i := 0 to |prior.value|
        invariant outdated == Outdated(prior.value[..i], current)
      {
        assert prior.value[..i + 1][..i] == prior.value[..i];
        if prior.value[i] !in prior.value[..i] && prior.value[i] !in current {
          outdated := outdated + [prior.value[i]];
        }
      }
      assert prior.value[..|prior.value|] == prior.value;
      return Some(outdated);
    }

    method IngestWebhook(event: Event) returns (rejected: bool, result: Result)
      modifies this
      ensures Ingest(old(files), event, client, layout, lower)
        == if rejected then Rejected(files) else Done(files, result)
    {
      rejected, result := false, Result(0, 0, 0, [], [[]]);
      var targets := TargetsOf(event, layout);
      if targets.None? { return; }
      if IsDelete(event, lower) {
        result := FanoutDelete(targets.value);
        return;
      }
      var stale := ComputeStalePaths(event, targets.value);
      if stale.None? { return true, result; }
      result := FanoutWrite(targets.value, Rendering(event), stale.value);
    }
  }

  lemma FilterStep(paths: seq<Str>, i: nat, keep: Str -> bool)
    requires i < |paths|
    ensures Filter(paths[..i + 1], keep) == Filter(paths[..i], keep) + if keep(paths[i]) then [paths[i]] else []
  {
    assert paths[..i + 1][..i] == paths[..i];
  }

  /** How one write changes the four tallies. */
  lemma WriteStep(paths: seq<Str>, i: nat, client: Client)
    requires i < |paths|
    ensures
      var p, before, after := paths[i], paths[..i], paths[..i + 1];
      && Filter(after, client.writeOk) == Filter(before, client.writeOk) + (if client.writeOk(p) then [p] else [])
      && Filter(after, Not(client.writeOk))
        == Filter(before, Not(client.writeOk)) + (if client.writeOk(p) then [] else [p])
      && |Filter(after, And(client.writeOk, Not(client.updates)))|
         == |Filter(before, And(client.writeOk, Not(client.updates)))|
           + (if client.writeOk(p) && !client.updates(p) then 1 else 0)
      && |Filter(after, And(client.writeOk, client.updates))|
         == |Filter(before, And(client.writeOk, client.updates))|
           + (if client.writeOk(p) && client.updates(p) then 1 else 0)
  {
    FilterStep(paths, i, client.writeOk);
    FilterStep(paths, i, Not(client.writeOk));
    FilterStep(paths, i, And(client.writeOk, Not(client.updates)));
    FilterStep(paths, i, And(client.writeOk, client.updates));
  }

  lemma WrittenStep(files: Files, paths: seq<Str>, i: nat, ok: Str -> bool, content: Content)
    requires i < |paths|
    ensures Written(files, paths[..i + 1], ok, content)
      == if ok(paths[i]) then Written(files, paths[..i], ok, content)[paths[i] := content]
         else Written(files, paths[..i], ok, content)
  {
    assert paths[..i + 1] == paths[..i] + [paths[i]];
  }

  // ---------------------------------------------------------------------------
  // Good layouts
  // ---------------------------------------------------------------------------

  /** Each record's paths are distinct, hold its by-id path, and depend only on its kind, trimmed id and payload. */
  ghost predicate GoodLayout(layout: Layout) {
    && (forall k: Kind, id: Str, p: Payload :: layout.targets(k, id, p).Some? ==>
         && Distinct(layout.targets(k, id, p).value)
         && layout.anchor(k, id).Some? && layout.anchor(k, id).value in layout.targets(k, id, p).value)
    && (forall k: Kind, a: Str, b: Str, p: Payload :: Trim(a) == Trim(b) ==>
         layout.targets(k, a, p) == layout.targets(k, b, p))
    && (forall k: Kind, a: Str, l: Kind, b: Str ::
         layout.anchor(k, a).Some? && layout.anchor(k, a) == layout.anchor(l, b) ==>
         k == l && Trim(a) == Trim(b))
    && (forall k: Kind, a: Str, b: Str :: Trim(a) == Trim(b) ==> layout.anchor(k, a) == layout.anchor(k, b))
  }

  lemma ListedDistinct(places: seq<Place>, kind: Kind, id: Str)
    requires Listed(places, kind, id, 0, 7)
    ensures Distinct(PrintAll(places))
  {
    forall i, j | 0 <= i < j < |places| ensures Print(places[i]) != Print(places[j]) {
      if Print(places[i]) == Print(places[j]) { PrintInjective(places[i], places[j]); }
    }
  }

  lemma TargetsGood(u: Unicode, k: Kind, id: Str, p: Payload)
    requires LayoutOf(u).targets(k, id, p).Some?
    ensures Distinct(LayoutOf(u).targets(k, id, p).value)
    ensures LayoutOf(u).anchor(k, id).Some? && LayoutOf(u).anchor(k, id).value in LayoutOf(u).targets(k, id, p).value
  {
    TextIsGood(u);
    PlacesListed(k, id, FieldsOf(p), TextOf(u));
    var places, anchor := Places(k, id, FieldsOf(p), TextOf(u)).value, Anchor(k, id, TextOf(u)).value;
    ListedDistinct(places, k, TextOf(u).segment(id).value);
    var i :| 0 <= i < |places| && places[i] == anchor;
    assert PrintAll(places)[i] == Print(anchor);
  }

  lemma AnchorsDiffer(u: Unicode, k: Kind, a: Str, l: Kind, b: Str)
    requires LayoutOf(u).anchor(k, a).Some? && LayoutOf(u).anchor(k, a) == LayoutOf(u).anchor(l, b)
    ensures k == l && Trim(a) == Trim(b)
  {
    TextIsGood(u);
    PrintedAnchors(k, a, l, b, TextOf(u));
  }

  lemma LayoutIsGood(u: Unicode)
    ensures GoodLayout(LayoutOf(u))
  {
    var layout := LayoutOf(u);
    forall k: Kind, id: Str, p: Payload | layout.targets(k, id, p).Some?
      ensures Distinct(layout.targets(k, id, p).value)
      ensures layout.anchor(k, id).Some? && layout.anchor(k, id).value in layout.targets(k, id, p).value
    {
      TargetsGood(u, k, id, p);
    }
    forall k: Kind, a: Str, b: Str, p: Payload | Trim(a) == Trim(b)
      ensures layout.targets(k, a, p) == layout.targets(k, b, p) && layout.anchor(k, a) == layout.anchor(k, b)
    {
      TextIsGood(u);
      PlacesOfTrimmed(k, a, b, FieldsOf(p), TextOf(u));
    }
    forall k: Kind, a: Str, l: Kind, b: Str | layout.anchor(k, a).Some? && layout.anchor(k, a) == layout.anchor(l, b)
      ensures k == l && Trim(a) == Trim(b)
    {
      AnchorsDiffer(u, k, a, l, b);
    }
  }
}
