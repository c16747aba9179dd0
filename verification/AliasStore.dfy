/**
 * A store in which every record is kept at several paths with the same content: what it means
 * for the store to mirror the live records, and what replacing or deleting one record does.
 */
module AliasStore {
  import opened Wrappers
  import opened JsStrings

  /** Which record a content belongs to, and at which paths it is kept; None when printing them throws. */
  datatype Scheme<!C, !K> = Scheme(key: C -> K, targets: C -> Option<seq<Str>>)

  predicate Distinct(paths: seq<Str>) { forall i, j :: 0 <= i < j < |paths| ==> paths[i] != paths[j] }

  /** The earlier paths that are no longer current, each once, in order. */
  function Outdated(prior: seq<Str>, current: seq<Str>): seq<Str> {
    if prior == [] then []
    else
      var last, before := prior[|prior| - 1], Outdated(prior[..|prior| - 1], current);
      before + if last in prior[..|prior| - 1] || last in current then [] else [last]
  }

  lemma {:induction false} OutdatedMembers(prior: seq<Str>, current: seq<Str>)
    ensures forall p :: p in Outdated(prior, current) <==> p in prior && p !in current
    ensures Distinct(Outdated(prior, current))
  {
    if prior == [] {
    } else {
      OutdatedMembers(prior[..|prior| - 1], current);
      assert prior == prior[..|prior| - 1] + [prior[|prior| - 1]];
    }
  }

  predicate Has<C, K>(content: C, p: Str, scheme: Scheme<C, K>) {
    scheme.targets(content).Some? && p in scheme.targets(content).value
  }

  /** No path belongs to two live records. */
  ghost predicate Disjoint<C, K(!new)>(live: map<K, C>, scheme: Scheme<C, K>) {
    forall j: K, k: K, p: Str :: j in live && k in live && j != k && Has(live[j], p, scheme) ==>
      !Has(live[k], p, scheme)
  }

  /** The content's paths belong to no other live record. */
  ghost predicate Own<C, K(!new)>(live: map<K, C>, content: C, scheme: Scheme<C, K>) {
    forall j: K, p: Str :: j in live && j != scheme.key(content) && Has(content, p, scheme) ==> !Has(live[j], p, scheme)
  }

  /** Some live record has the path. */
  ghost predicate Owned<C, K(!new)>(live: map<K, C>, p: Str, scheme: Scheme<C, K>) {
    exists k: K :: k in live && Has(live[k], p, scheme)
  }

  ghost predicate LiveKeys<C, K(!new)>(live: map<K, C>, scheme: Scheme<C, K>) {
    forall k: K :: k in live ==> scheme.key(live[k]) == k && scheme.targets(live[k]).Some?
  }

  /** The store holds, for each live record, its latest content at exactly its paths, and nothing else. */
  ghost predicate Mirrors<C, K(!new)>(files: map<Str, C>, live: map<K, C>, scheme: Scheme<C, K>) {
    && LiveKeys(live, scheme)
    && (forall k: K, p: Str :: k in live && Has(live[k], p, scheme) ==> p in files && files[p] == live[k])
    && (forall p :: p in files ==> Owned(live, p, scheme))
  }

  /** A path that no other live record has is in the store exactly when the record has it, with its content. */
  lemma OnlyOwner<C, K(!new)>(files: map<Str, C>, live: map<K, C>, scheme: Scheme<C, K>, p: Str, k: K)
    requires Mirrors(files, live, scheme) && forall j: K :: j in live && j != k ==> !Has(live[j], p, scheme)
    ensures p in files <==> k in live && Has(live[k], p, scheme)
    ensures p in files ==> files[p] == live[k]
  {}

  lemma DisjointOwn<C, K(!new)>(live: map<K, C>, content: C, scheme: Scheme<C, K>)
    requires Disjoint(live[scheme.key(content) := content], scheme)
    ensures Own(live, content, scheme)
  {
    var next := live[scheme.key(content) := content];
    forall j: K, p: Str | j in live && j != scheme.key(content) && Has(content, p, scheme)
      ensures !Has(live[j], p, scheme)
    {
      assert next[j] == live[j] && Has(next[scheme.key(content)], p, scheme);
    }
  }

  /** A path of one live record is no other's. */
  lemma OneOwner<C, K(!new)>(files: map<Str, C>, live: map<K, C>, scheme: Scheme<C, K>, p: Str, j: K, k: K)
    requires Mirrors(files, live, scheme) && k in live && Has(live[k], p, scheme) && j in live
      && Has(live[j], p, scheme)
    ensures j == k
  {
    assert files[p] == live[j] && files[p] == live[k];
    assert scheme.key(live[j]) == j && scheme.key(live[k]) == k;
  }

  /** A path of a record that is no longer live belongs to nobody. */
  lemma Orphan<C, K(!new)>(files: map<Str, C>, live: map<K, C>, scheme: Scheme<C, K>, p: Str, k: K, next: map<K, C>)
    requires Mirrors(files, live, scheme) && k in live && Has(live[k], p, scheme)
    requires forall j: K :: j in next && j != k ==> j in live && next[j] == live[j]
    requires k in next ==> !Has(next[k], p, scheme)
    ensures !Owned(next, p, scheme)
  {
    forall j: K | j in next ensures !Has(next[j], p, scheme) {
      if j != k && Has(live[j], p, scheme) { OneOwner(files, live, scheme, p, j, k); }
    }
  }

  // ---------------------------------------------------------------------------
  // Replacing one record
  // ---------------------------------------------------------------------------

  /** The record's old paths are gone, its new ones hold the new content, and every other path is as before. */
  ghost predicate Replaces<C, K(!new)>(files: map<Str, C>, after: map<Str, C>, live: map<K, C>, content: C,
                                       scheme: Scheme<C, K>)
  {
    && (forall p :: Has(content, p, scheme) ==> p in after && after[p] == content)
    && (forall p :: !Has(content, p, scheme) ==>
         (p in after <==> p in files && !(scheme.key(content) in live && Has(live[scheme.key(content)], p, scheme)))
         && (p in after ==> after[p] == files[p]))
  }

  lemma OthersKept<C, K(!new)>(files: map<Str, C>, after: map<Str, C>, live: map<K, C>, content: C,
                               scheme: Scheme<C, K>, j: K, p: Str)
    requires Mirrors(files, live, scheme) && Own(live, content, scheme) && Replaces(files, after, live, content, scheme)
    requires j in live && j != scheme.key(content) && Has(live[j], p, scheme)
    ensures p in after && after[p] == live[j]
  {
    var k := scheme.key(content);
    assert !Has(content, p, scheme);
    assert p in files && files[p] == live[j];
    if k in live && Has(live[k], p, scheme) { OneOwner(files, live, scheme, p, j, k); }
  }

  lemma StillOwned<C, K(!new)>(files: map<Str, C>, after: map<Str, C>, live: map<K, C>, content: C,
                               scheme: Scheme<C, K>, p: Str)
    requires Mirrors(files, live, scheme) && Replaces(files, after, live, content, scheme) && p in after
    ensures Owned(live[scheme.key(content) := content], p, scheme)
  {
    var k, next := scheme.key(content), live[scheme.key(content) := content];
    if Has(content, p, scheme) {
      assert Has(next[k], p, scheme);
    } else {
      assert p in files;
      var j: K :| j in live && Has(live[j], p, scheme);
      assert j != k && Has(next[j], p, scheme);
    }
  }

  /** Replacing a record keeps the store a mirror. */
  lemma ReplaceMirrors<C, K(!new)>(files: map<Str, C>, after: map<Str, C>, live: map<K, C>, content: C,
                                   scheme: Scheme<C, K>, next: map<K, C>)
    requires Mirrors(files, live, scheme) && Own(live, content, scheme) && Replaces(files, after, live, content, scheme)
    requires scheme.targets(content).Some? && next == live[scheme.key(content) := content]
    ensures Mirrors(after, next, scheme)
  {
    forall j: K, p: Str | j in next && Has(next[j], p, scheme) ensures p in after && after[p] == next[j] {
      if j != scheme.key(content) { OthersKept(files, after, live, content, scheme, j, p); }
    }
    forall p | p in after ensures Owned(next, p, scheme) { StillOwned(files, after, live, content, scheme, p); }
  }

  /** Replacing a record by the content it already has changes nothing. */
  lemma ReplaceSame<C, K(!new)>(files: map<Str, C>, after: map<Str, C>, live: map<K, C>, content: C,
                                scheme: Scheme<C, K>)
    requires Mirrors(files, live, scheme) && Replaces(files, after, live, content, scheme)
    requires scheme.key(content) in live && live[scheme.key(content)] == content
    ensures after == files
  {
    forall p ensures (p in after <==> p in files) && (p in after ==> after[p] == files[p]) {
      if Has(content, p, scheme) { assert Has(live[scheme.key(content)], p, scheme); }
    }
  }

  // ---------------------------------------------------------------------------
  // Deleting one record
  // ---------------------------------------------------------------------------

  /** The given paths are gone and every other path is as before. */
  ghost predicate Deletes<C>(files: map<Str, C>, after: map<Str, C>, gone: seq<Str>) {
    forall p :: (p in after <==> p in files && p !in gone) && (p in after ==> after[p] == files[p])
  }

  ghost predicate Covers<C, K(!new)>(live: map<K, C>, k: K, gone: seq<Str>, scheme: Scheme<C, K>) {
    k in live ==> forall p :: Has(live[k], p, scheme) ==> p in gone
  }

  /** None of the paths belongs to another record. */
  ghost predicate Spares<C, K(!new)>(live: map<K, C>, k: K, gone: seq<Str>, scheme: Scheme<C, K>) {
    forall j: K, p: Str :: j in live && j != k && p in gone ==> !Has(live[j], p, scheme)
  }

  lemma KeptByDelete<C, K(!new)>(files: map<Str, C>, after: map<Str, C>, live: map<K, C>, k: K, gone: seq<Str>,
                                 scheme: Scheme<C, K>, j: K, p: Str)
    requires Mirrors(files, live, scheme) && Spares(live, k, gone, scheme) && Deletes(files, after, gone)
    requires j in live && j != k && Has(live[j], p, scheme)
    ensures p in after && after[p] == live[j]
  {
    assert p in files && files[p] == live[j];
  }

  lemma OwnedAfterDelete<C, K(!new)>(files: map<Str, C>, after: map<Str, C>, live: map<K, C>, k: K, gone: seq<Str>,
                                     scheme: Scheme<C, K>, next: map<K, C>, p: Str)
    requires Mirrors(files, live, scheme) && Covers(live, k, gone, scheme) && Deletes(files, after, gone)
    requires next == live - {k} && p in after
    ensures Owned(next, p, scheme)
  {
    assert p in files && Owned(live, p, scheme);
    var j: K :| j in live && Has(live[j], p, scheme);
    assert j in next && Has(next[j], p, scheme);
  }

  /** Deleting paths removes a record, and nothing else, exactly when the paths cover the record's. */
  lemma DeleteMirrors<C, K(!new)>(files: map<Str, C>, after: map<Str, C>, live: map<K, C>, k: K, gone: seq<Str>,
                                  scheme: Scheme<C, K>, next: map<K, C>)
    requires Mirrors(files, live, scheme) && Spares(live, k, gone, scheme) && Deletes(files, after, gone)
      && next == live - {k}
    ensures Mirrors(after, next, scheme) <==> Covers(live, k, gone, scheme)
  {
    if Covers(live, k, gone, scheme) {
      forall j: K, p: Str | j in next && Has(next[j], p, scheme) ensures p in after && after[p] == next[j] {
        KeptByDelete(files, after, live, k, gone, scheme, j, p);
      }
      forall p | p in after ensures Owned(next, p, scheme) {
        OwnedAfterDelete(files, after, live, k, gone, scheme, next, p);
      }
    } else {
      Uncovered(files, after, live, k, gone, scheme, next);
    }
  }

  lemma Uncovered<C, K(!new)>(files: map<Str, C>, after: map<Str, C>, live: map<K, C>, k: K, gone: seq<Str>,
                              scheme: Scheme<C, K>, next: map<K, C>)
    requires Mirrors(files, live, scheme) && !Covers(live, k, gone, scheme) && Deletes(files, after, gone)
      && next == live - {k}
    ensures !Mirrors(after, next, scheme)
  {
    var p :| Has(live[k], p, scheme) && p !in gone;
    assert p in files && p in after;
    Orphan(files, live, scheme, p, k, next);
  }
}
