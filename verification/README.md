# Relayfile adapters: verified model

The adapters of this repository keep incrementally maintained views over a virtual file system, a
map from path to content. Records arrive as batches or webhooks, and after each of them indexes,
aliases and merged files must equal what a rebuild from scratch would give, although single reads,
writes and deletes may fail. This project models the adapters' stateful cores and the printers,
parsers and codecs they rest on, and proves what they keep.

How it is laid out:

- **Foundations.** `JsStrings` (strings as UTF-16 code units, `trim`), `TextWords` (the words of a
  text), `Latest` (the last item with a property), `PathSegments`, `UriCodec`
  (encodeURIComponent and decodeURIComponent down to UTF-8 bytes), `Calendar` and `IsoText` (the
  Gregorian calendar of ECMA-262 section 21.4.1, `toISOString`, ISO `Date.parse`), `Decimals`.
- **Cloudflare error rollups.** `RollupPaths` (paths, ids and their parsers), `RollupRows` (ordered
  row maps, sorting, row builders), `RollupEmitter` (the imperative emitter and the function of the
  stored files it computes), `RollupRefinement`, `RollupEffects` and `RollupRuns` (the three index
  levels against the live hours, over whole runs), `RollupMeaning` (what the rows say, in terms of
  the live hours alone), `RollupRecords` (which hour a record is about, and the last record's word on
  each hour), `RollupFailures` (failed reads, rejected calls), `RollupWriteFailures` (failed
  writes), `RollupLedger` (what a batch reports).
- **Confluence.** `ConfluencePaths`, `StatusSlugs`, `AliasSlugs`, `ConfluenceAdapter` (webhook
  ingestion), `ConfluenceRuns`, `ConfluenceMeaning`, `ConfluenceCollisions` and `ConfluenceDeletes`
  (its properties), `ConfluenceBatch`, `ConfluenceBatchRuns`, `ConfluenceBatchMeaning` and
  `ConfluenceBatchFailures` (the batch emitter),
  `ConfluenceRouting` (the read router).
- **Shared.** `AliasStore` (records stored at several paths), `IndexFiles` (the index reconciler).
- **Bitbucket.** `Bitbucket`, `BitbucketRuns` (its indexes), `BitbucketFiles` (its record files),
  `BitbucketMeaning`, `BitbucketFailures`.
- **ClickUp.** `ClickUp`, `ClickUpRuns`, `ClickUpMeaning`.
- **Airtable.** `AirtablePaths`, `AirtableAdapter`, `AirtableMeaning`, `AirtableReplay`, `AirtableFetch`,
  `AirtableDelivery` (fetch and replay together), `ChangeExtraction`.
- **Asana.** `Base64Url`, `ThreadPages`, `EventSummaries`, `SummaryJson` (its JSON text reads back), `SortedJson`.

Loops and objects that change state are methods and classes, each proved against a function of its
input or old state; the properties are lemmas about those functions. The modules named `…Meaning`, and
`RollupRecords`, say what these functions mean without them: which field of a record calls for which
path, and that after a run every path leads to the last record that calls for it. The file client is a map held
in a class. The client's answers are a parameter (`Weather`, `Client`, `Luck`), so any call may fail,
except in the ClickUp batch emitter, which is modelled with a client whose calls succeed. File contents
are values: parsing undoes printing. Unicode normalisation and lowercasing are parameters (`Unicode`),
and so are redaction and the host's `Date.parse` on texts that are not ISO. `None` and `Throws` stand
for thrown errors.

What the proofs showed about the code:

- `parseCloudflareWorkerErrorRollupPath` and the id parser recover a printed path or id exactly for
  the years 0000 to 9999; in other years they reject the printers' own output. The path parser throws,
  where it documents null, exactly when date and hour print back and the script decodes to a text that
  holds a lone surrogate (`RollupPaths.ParserThrowsOnLoneSurrogate`).
- A rollup batch with a script name that holds a lone surrogate rejects; the scripts before it have
  been written, the root index has not (`RollupFailures.RejectedBatchTearsRoot`).
- When just one of a day file and its script file can be written, the script's row disagrees with the
  day file exactly if the new hours have another summary than the stored ones
  (`RollupWriteFailures.AgreesUnlessTorn`), until a later batch addresses the date again
  (`RollupFailures.AddressedRowsRecover`).
- Confluence ingestion documents that the next event reconciles what a failed stale delete left
  behind. It does only if the by-id file was not written either: once that file holds the new
  payload, the forgotten path is never computed again (`ConfluenceRuns.RetryHeals`). The batch emitter
  has the same limit, and a tombstone that deleted the by-id file first cannot be completed by
  repeating it (`ConfluenceBatchFailures`).
- A Confluence delete event removes only the paths its own payload names, so it must repeat the stored
  name, status, space and parent, or key (`ConfluenceDeletes.DeleteRemovesIff`). Without `deleteFile`
  it reports every path as succeeded and as failed.
- The index reconciler applies removes before upserts, so a record written and then deleted, or
  moved away, in one batch keeps its row (`IndexFiles.FlushIsInOrder`, `BitbucketRuns.BatchKeepsPartition`).
  A flush whose read failed forgets every row that it does not write itself.
- The Confluence batch reader falls back to `space_id` for a stored page, the writer does not, so
  such a page's canonical file is lost sight of (`ConfluenceBatchRuns.RecoveredPathsCover`).
- Bitbucket keys its index by the raw id and its by-id file by the trimmed one, so a deletion whose id
  is not written like the record's leaves the row (`BitbucketRuns.UntrimmedIdLeavesRow`); an untrimmed
  `.` or `..` passes for an id but has no lookup path (`BitbucketRuns.LookupsPrint`).
- A Bitbucket write that throws midway has already taken the record out of its old scoped index, so
  unless the record keeps its path the collection index has a row that no scoped index has. Emitting
  the record again repairs that, unless the by-id file was written without having been read
  (`BitbucketFailures.ThrowKeepsPartition`, `WriteRetryRestores`).
- A read that fails while Airtable changes are ingested passes for a missing file. A replay heals it
  exactly when the replayed changes rewrite all that was stored: every key, and every entry of an object
  that is only overlaid (`AirtableReplay.ReplayHeals`).
- The Airtable cursor loop stops only at a cursor that repeats at once. On a server whose cursors are
  bounded it ends exactly when no cursor comes again (`AirtableFetch.EndsUnlessItRepeats`).
- `sortJson` drops properties named `__proto__`, at any depth, and loses nothing else
  (`SortedJson.SortLosesOnlyProto`).
- Only canonical Confluence paths are routed, and an id is recovered from them exactly when it has no
  slash after a slug, or no inner `__` or `--` on its own. On a name with a slug the two name parsers
  agree exactly when the id starts no further `__` (`ConfluenceRouting.ParsersAgree`).

## Model

| member | source | states |
|---|---|---|
| UriCodec.EncodeDefined | packages/cloudflare/src/path-mapper.ts:3-9 | percent-encoding throws exactly on strings with a lone surrogate |
| UriCodec.DecodeEncode | packages/cloudflare/src/path-mapper.ts:3-9 | decoding undoes encoding on every string that encodes, through its UTF-8 bytes |
| UriCodec.EncodeAlphabet | packages/cloudflare/src/path-mapper.ts:3-9 | an encoded segment holds only unreserved characters and escapes, so never a slash |
| UriCodec.CodesAtTheBounds | packages/cloudflare/src/path-mapper.ts:3-9 | the UTF-8 bytes of the first and last scalar of each length, and their escapes, are those of RFC 3629 |
| JsStrings.TrimTakesBlanks | packages/cloudflare/src/path-mapper.ts:341-358 | trimming takes off whitespace at the two ends and leaves none there |
| Calendar.TimeOfFields | packages/cloudflare/src/path-mapper.ts:257-267 | splitting an instant into UTC date and clock and putting them together gives the instant back |
| Calendar.FieldsOfTime | packages/cloudflare/src/path-mapper.ts:257-267 | every valid date and clock is what its own instant splits into |
| IsoText.ParseIsoOfIso | packages/cloudflare/src/path-mapper.ts:257-267 | parsing an ISO text undoes printing it, for every instant of the years 0000 to 9999 |
| IsoText.HoursAscend | packages/cloudflare/src/emit-auxiliary-files.ts:370-372 | comparing hour texts is comparing hours, so sorting by `updated` sorts by time |
| IsoText.KnownInstant | packages/cloudflare/src/path-mapper.ts:257-267 | an instant of a leap day prints as its date and clock |
| RollupPaths.ParseOfPrintedPath | packages/cloudflare/src/path-mapper.ts:297-339 | a printed path parses to the trimmed script and the floored UTC hour if its year has four digits, and is rejected otherwise |
| RollupPaths.AcceptedPathReprints | packages/cloudflare/src/path-mapper.ts:309-339 | any accepted path prints again to itself |
| RollupPaths.ParserAcceptsPrintedPaths | packages/cloudflare/src/path-mapper.ts:297-339 | the parser accepts exactly the printer's image over the years 0000 to 9999 |
| RollupPaths.ParserThrowsOnLoneSurrogate | packages/cloudflare/src/path-mapper.ts:309-339 | the parser throws, instead of returning null, exactly when the path is well formed, date and hour print back, and the trimmed decoded script holds a lone surrogate |
| RollupPaths.RawSurrogateThrows | packages/cloudflare/src/path-mapper.ts:309-339 | so it throws on the path of every hour whose script segment is a raw lone surrogate |
| RollupPaths.ParseOfPrintedId | packages/cloudflare/src/path-mapper.ts:269-278 | a printed id parses back to script and hour, slashes in the script included, exactly for four-digit years |
| RollupPaths.ParseIdOf | packages/cloudflare/src/path-mapper.ts:341-358 | the id parser splits at the last slash and reads an hour only from the fixed pattern |
| RollupPaths.BucketIsHourKey | packages/cloudflare/src/path-mapper.ts:257-295 | every hour bucket of the years 0000 to 9999 names the same day file as its date at midnight does |
| RollupRefinement.PathsDiffer | packages/cloudflare/src/path-mapper.ts:280-307 | root, script and day index files of different scripts and dates never share a path |
| RollupRows.SortMembers | packages/cloudflare/src/emit-auxiliary-files.ts:370-372 | the sort keeps exactly the same rows, without new duplicates, latest first |
| RollupRows.StrictlyDescendingUnique | packages/cloudflare/src/emit-auxiliary-files.ts:370-372 | rows with distinct sort keys have one sorted list, so a file is determined by its table |
| RollupRows.DaySeverity | packages/cloudflare/src/emit-auxiliary-files.ts:375-405 | a day's severity is never milder than an hour's and is some hour's, whenever an hour names one |
| RollupEmitter.Emitter.ReadIndexStrict | packages/cloudflare/src/emit-auxiliary-files.ts:348-368 | a missing file reads as no rows, a failed or malformed read as nothing, with an error |
| RollupEmitter.Emitter.WriteSafely | packages/cloudflare/src/emit-auxiliary-files.ts:544-562 | a failed write leaves the file and records an error |
| RollupEmitter.Emitter.ApplyRecords | packages/cloudflare/src/emit-auxiliary-files.ts:295-302 | the inner loop: a date's upserts and tombstones applied to its hour rows in order, or a throw |
| RollupEmitter.Emitter.EmitOneDay | packages/cloudflare/src/emit-auxiliary-files.ts:290-311 | one date: its day file and the script's day row, or an untouched day when it cannot be read |
| RollupEmitter.Emitter.GroupByScript | packages/cloudflare/src/emit-auxiliary-files.ts:239-262 | grouping the records by script keeps their order and loses none but those reported as skipped |
| RollupEmitter.Emitter.GroupByDate | packages/cloudflare/src/emit-auxiliary-files.ts:280-287 | grouping a script's records by date keeps their order and loses none |
| RollupEmitter.Emitter.EmitOneScript | packages/cloudflare/src/emit-auxiliary-files.ts:272-330 | one script: its days, its own index and its root row, or nothing when its index cannot be read |
| RollupEmitter.Emitter.EmitWorkerErrorRollupIndexes | packages/cloudflare/src/emit-auxiliary-files.ts:209-342 | the whole batch computes the modelled function of files, errors, counts and calls, in any weather |
| RollupRefinement.DayTableApply | packages/cloudflare/src/emit-auxiliary-files.ts:239-302 | each day sees exactly its own records in order, whatever else is in the batch |
| RollupEffects.EmitAcceptedEffect | packages/cloudflare/src/emit-auxiliary-files.ts:267-342 | with writes succeeding, a batch never throws on well-formed keys and changes exactly the addressed, readable files, each as its live rows call for |
| RollupRuns.BatchKeepsRebuilt | packages/cloudflare/src/emit-auxiliary-files.ts:209-342 | one batch takes a rebuilt store to the rebuilt store of the new live hours |
| RollupRuns.RunsEqualRebuild | packages/cloudflare/src/emit-auxiliary-files.ts:209-431 | from an empty store, after every run of batches without failure, the three levels equal a rebuild from the live hours |
| RollupRuns.RebuildUnique | packages/cloudflare/src/emit-auxiliary-files.ts:209-431 | a rebuild is determined by the live hours: day and script lists entirely, the root as a table |
| RollupRuns.BatchEqualsSingles | packages/cloudflare/src/emit-auxiliary-files.ts:239-342 | on a store that is a rebuild, one batch of n records leaves the same day and script lists and root rows as n batches of one |
| RollupMeaning.SumIsTotal | packages/cloudflare/src/emit-auxiliary-files.ts:375-405 | a day's sums are sums over its live hours and do not depend on order |
| RollupMeaning.SeveritiesInOrder | packages/cloudflare/src/emit-auxiliary-files.ts:194 | the five severities rank from info to critical, and every other label below them |
| RollupMeaning.ScriptFileSays | packages/cloudflare/src/emit-auxiliary-files.ts:289-315 | a script file has a row for a date exactly when it has a live hour: the latest hour's row under the date's name, with the day's totals and worst severity |
| RollupMeaning.RootFileSays | packages/cloudflare/src/emit-auxiliary-files.ts:314-342 | the root has a row for a script exactly when it has a live hour, equal to its newest date's row |
| RollupMeaning.RunsSay | packages/cloudflare/src/emit-auxiliary-files.ts:209-431 | after every run without failure, both of the above hold of every script and date |
| RollupRecords.ParseIdIff | packages/cloudflare/src/path-mapper.ts:341-358 | the id parser reads exactly the ids that are a script, a slash and a whole hour, with the hour of that text |
| RollupRecords.LocateIff | packages/cloudflare/src/emit-auxiliary-files.ts:239-262 | a record is keyed by its own script, or else its id's, and by the hour of its own text, or else its id's |
| RollupRecords.PrintedIdFillsIn | packages/cloudflare/src/emit-auxiliary-files.ts:240-250 | under a printed id an explicit script or hour wins, each on its own, and the id fills in what is missing |
| RollupRecords.BuiltRowShows | packages/cloudflare/src/emit-auxiliary-files.ts:407-431 | an hour's row shows the record's counts, severity and first error, under a path that parses back to the hour |
| RollupRecords.RunsKeepLastWords | packages/cloudflare/src/emit-auxiliary-files.ts:209-342 | after every run without failures an hour's row shows the last record about that hour, and is gone if that record deletes it |
| RollupRecords.BareTombstoneRemovesHour | packages/cloudflare/src/emit-auxiliary-files.ts:240-262 | a tombstone with nothing but a printed id takes exactly that hour out of all three levels |
| RollupRecords.SkippedAreUnnamed | packages/cloudflare/src/emit-auxiliary-files.ts:251-257 | each record that is about no hour is reported once as skipped, and no other |
| RollupRecords.IdleBatch | packages/cloudflare/src/emit-auxiliary-files.ts:226-237 | an empty batch makes sure of a root index and leaves one that is there; a batch about no hour touches nothing |
| RollupRecords.NoReader | packages/cloudflare/src/emit-auxiliary-files.ts:216-224 | a client that cannot read gets one error and no change |
| RollupFailures.WritesFollowReads | packages/cloudflare/src/emit-auxiliary-files.ts:267-368 | whatever fails, and even when the call rejects, an index file is written only after that same file was read in the batch |
| RollupFailures.UnreadableUntouched | packages/cloudflare/src/emit-auxiliary-files.ts:348-368 | whatever reads fail, a file that a batch could not read keeps its content |
| RollupFailures.OtherHours | packages/cloudflare/src/emit-auxiliary-files.ts:289-304 | whatever reads fail, an hour that no record of a batch addresses keeps its row in the day file |
| RollupFailures.OtherDates | packages/cloudflare/src/emit-auxiliary-files.ts:289-315 | whatever reads fail, a date that no record of a batch addresses keeps its row in the script file |
| RollupFailures.OtherScripts | packages/cloudflare/src/emit-auxiliary-files.ts:267-342 | whatever reads fail, a script that no record of a batch addresses keeps its row in the root file |
| RollupFailures.ScriptRowsStayDerived | packages/cloudflare/src/emit-auxiliary-files.ts:289-315 | over every run with any pattern of read failures, every script row stays the one derived from its day file |
| RollupFailures.ScriptRowsAlwaysDerived | packages/cloudflare/src/emit-auxiliary-files.ts:289-315 | in particular over every run from an empty store |
| RollupFailures.AddressedRowsRecover | packages/cloudflare/src/emit-auxiliary-files.ts:289-342 | whatever the store looks like, a batch that addresses a date and can read its files makes the script's row agree with the day file and the root's row with the script file |
| RollupFailures.LocatedKey | packages/cloudflare/src/emit-auxiliary-files.ts:239-262 | an accepted record is keyed by a non-blank script and an hour bucket |
| RollupFailures.RejectsOnLoneSurrogates | packages/cloudflare/src/emit-auxiliary-files.ts:209-342 | a batch rejects exactly when one of its scripts holds a lone surrogate |
| RollupFailures.RejectedBatchTearsRoot | packages/cloudflare/src/emit-auxiliary-files.ts:272-342 | every rejected batch, whatever reads failed, leaves the root as it was, the scripts first seen before the offending one with their whole effect, and every other file untouched |
| RollupFailures.TornByTwoRecords | packages/cloudflare/src/emit-auxiliary-files.ts:272-342 | an upsert and then an ill-formed script, into an empty store, leave a script file with rows and no root file |
| RollupWriteFailures.EditedTabulates | packages/cloudflare/src/emit-auxiliary-files.ts:289-304 | the hours that a day file is to hold are the stored ones with the date's records applied in order, latest first |
| RollupWriteFailures.BatchTurns | packages/cloudflare/src/emit-auxiliary-files.ts:267-342 | whatever reads and writes fail, each script's day files, rows and own file are as its calls allow, and no other day or script file changes |
| RollupWriteFailures.AgreesUnlessTorn | packages/cloudflare/src/emit-auxiliary-files.ts:289-342 | a script's row that agreed with its day file still does after a batch exactly unless both files were readable, just one of them could be written, and the new hours have another summary than the stored ones |
| RollupWriteFailures.DerivedUnlessTorn | packages/cloudflare/src/emit-auxiliary-files.ts:289-342 | a batch keeps every script row derived from its day file exactly when it tears none so |
| RollupWriteFailures.FirstDayWriteFails | packages/cloudflare/src/emit-auxiliary-files.ts:304-315 | an upsert into an empty store of which only the day file's write fails leaves row and file in disagreement |
| RollupLedger.BatchReports | packages/cloudflare/src/emit-auxiliary-files.ts:209-368 | whatever calls fail, and even when the batch rejects, each write is counted once, each record about no hour is reported once, and every other error is a failure that happened |
| RollupLedger.IndexesAccounted | packages/cloudflare/src/emit-auxiliary-files.ts:209-368 | unless the batch rejects, the script index of every record about an hour was written or is listed as failed, and where it can be read so are the date's index and the root index |
| RollupLedger.RootAccounted | packages/cloudflare/src/emit-auxiliary-files.ts:226-237 | a batch without records has the root index written or listed as failed exactly when it could not read one that is there and not blank |
| StatusSlugs.SlugifyStatusName | packages/confluence/src/path-mapper.ts:145-172 | the character loop with its separator flag computes trimming, normalising, lowercasing, collapsing and coding |
| StatusSlugs.StatusSlugDefined | packages/confluence/src/path-mapper.ts:145-172 | a non-blank status has a slug exactly when its canonical form is non-empty and well formed, and the slug is a non-empty path segment |
| StatusSlugs.SameSlugSameStatus | packages/confluence/src/path-mapper.ts:145-172 | two statuses share a directory exactly when their canonical forms are equal, and the slug decodes to that form |
| StatusSlugs.SameSlugSameWords | packages/confluence/src/path-mapper.ts:145-172 | two statuses share a directory exactly when, trimmed, normalised and lowercased, they have the same words, and the directory reads back as these |
| StatusSlugs.CollapseTwice | packages/confluence/src/path-mapper.ts:145-172 | collapsing whitespace is idempotent and leaves no leading space |
| StatusSlugs.CollapseIsSpaced | packages/confluence/src/path-mapper.ts:145-172 | collapsing leaves the words of the text with single spaces between them |
| AliasSlugs.SlugifyShape | packages/confluence/src/path-mapper.ts:53-72 | a slug is at most 80 lowercase letters, digits and dashes, with no dash at either end |
| AliasSlugs.SlugifyAliasShape | packages/core/src/alias-slug.ts:6-23 | the same of alias slugs, which are never empty |
| AliasSlugs.ConfluenceAliasShape | packages/confluence/src/alias-slug.ts:12-22 | Confluence's own alias slugs, cut before their dashes are stripped, have the same shape and are never empty |
| AliasSlugs.SlugifyIsWords | packages/confluence/src/path-mapper.ts:53-72 | the slug is the lowercased ASCII words of the decomposed name with dashes between them, cut before the last dash that fits |
| AliasSlugs.SlugifyAliasIsWords | packages/core/src/alias-slug.ts:6-23 | the alias slug is the words of the decomposed, unmarked, lowercased title with dashes between them, cut before the last dash that fits, or a fixed word |
| AliasSlugs.ConfluenceAliasIsWords | packages/confluence/src/alias-slug.ts:12-22 | Confluence's own is a prefix of the same, all of it below 79 characters |
| ConfluencePaths.PrintInjective | packages/confluence/src/path-mapper.ts:174-278 | different places never print to the same path |
| ConfluencePaths.SlugEncodes | packages/confluence/src/path-mapper.ts:174-278 | an alias slug encodes to itself, so a by-title file is named by the slug |
| ConfluencePaths.PlacesListed | packages/confluence/src/confluence-adapter.ts:306-345 | the paths of one record are distinct places that all name its kind and, where they name an id, its id |
| ConfluencePaths.AnchorInjective | packages/confluence/src/confluence-adapter.ts:255-259 | two records share a by-id alias only if kind and trimmed id agree |
| ConfluencePaths.PrintedAnchors | packages/confluence/src/confluence-adapter.ts:255-259 | the same of the paths they print to |
| ConfluenceAdapter.Adapter.FanoutDelete | packages/confluence/src/confluence-adapter.ts:165-188 | every path is tried on its own; files, counts, succeeded and failed paths are as modelled |
| ConfluenceAdapter.Adapter.FanoutWrite | packages/confluence/src/confluence-adapter.ts:190-240 | stale deletes first, then every write, each on its own, with written and updated counted apart |
| ConfluenceAdapter.Adapter.ComputeStalePaths | packages/confluence/src/confluence-adapter.ts:248-290 | the stale paths are those of the stored payload that the new one does not have; none when it cannot be read |
| ConfluenceAdapter.Adapter.IngestWebhook | packages/confluence/src/confluence-adapter.ts:114-157 | one event, in any pattern of failures, has the modelled effect and result |
| ConfluenceAdapter.LayoutIsGood | packages/confluence/src/confluence-adapter.ts:306-345 | a record's paths are distinct, contain its by-id alias, and by-id aliases determine their record |
| ConfluenceRuns.StaleApart | packages/confluence/src/confluence-adapter.ts:280-289 | stale paths are distinct and never among the paths being written |
| ConfluenceRuns.EveryPathAccounted | packages/confluence/src/confluence-adapter.ts:165-240 | every target and stale path ends in exactly one of paths and errors, and the counts add up, exactly when the client can delete or there is nothing to delete |
| ConfluenceRuns.EachPathByItsOwnCall | packages/confluence/src/confluence-adapter.ts:165-240 | after any pattern of failures each path is decided by its own call alone |
| ConfluenceRuns.WriteMirrors | packages/confluence/src/confluence-adapter.ts:114-157 | one write event keeps the store equal to the latest renderings at exactly the latest paths |
| ConfluenceRuns.RunsMirrorLatestPayloads | packages/confluence/src/confluence-adapter.ts:114-157 | after every failure-free run with disjoint path sets, the store holds exactly the paths of each live record's latest payload |
| ConfluenceRuns.ReingestChangesNothing | packages/confluence/src/confluence-adapter.ts:114-157 | ingesting a record's latest event again changes no file |
| ConfluenceRuns.DeleteRemovesRecord | packages/confluence/src/confluence-adapter.ts:140-146 | a delete event removes its record and nothing else exactly when its payload names every path the record has |
| ConfluenceRuns.RetryHeals | packages/confluence/src/confluence-adapter.ts:148-290 | a retry heals a failed attempt exactly when that attempt removed every stale path or failed to write the by-id file |
| ConfluenceMeaning.PrintsAsSpelled | packages/confluence/src/path-mapper.ts:174-258 | each kind of path is spelled with its own directories |
| ConfluenceMeaning.TargetsAre | packages/confluence/src/confluence-adapter.ts:306-345 | a path is one of a record's exactly when the record's own fields call for it: each directory has its own field |
| ConfluenceMeaning.TargetsDefined | packages/confluence/src/confluence-adapter.ts:306-345 | the paths can be printed exactly when the id and the fields that name directories can |
| ConfluenceMeaning.IsDeleteIff | packages/confluence/src/confluence-adapter.ts:451-453 | an event deletes exactly when its lowercased type has the word deleted in it or its payload says so |
| ConfluenceMeaning.EventDoes | packages/confluence/src/confluence-adapter.ts:114-157 | without failures a deleting event leaves none of the paths its fields call for and touches no other; any other event leaves its rendering at all of them |
| ConfluenceMeaning.RunsLeadToLatest | packages/confluence/src/confluence-adapter.ts:114-157 | after every failure-free run a path is there exactly when the last event about some record is no deletion and its fields call for the path, and holds that event's rendering |
| ConfluenceCollisions.MeetAnonymously | packages/confluence/src/path-mapper.ts:174-278 | records whose ids have no underscore meet only at a by-title or by-key alias |
| ConfluenceCollisions.ApartUnlessTitlesMeet | packages/confluence/src/confluence-adapter.ts:306-345 | live records are disjoint as soon as no two share such an alias |
| ConfluenceDeletes.NamesEveryPathIff | packages/confluence/src/confluence-adapter.ts:306-345 | a delete event names every path of its stored record exactly when it repeats the stored name slug and by-title slug and, for a page, the status slug, the space given or absent, and the parent; for a space, the key |
| ConfluenceDeletes.DeleteRemovesIff | packages/confluence/src/confluence-adapter.ts:140-146 | a delete event without failures removes its record, and nothing else, exactly under that condition on the two payloads |
| ConfluenceDeletes.BareDeleteLeavesBySpaceAlias | packages/confluence/src/confluence-adapter.ts:140-146 | a page delete that does not say the page's space never names every path |
| AliasStore.ReplaceMirrors | packages/confluence/src/confluence-adapter.ts:148-156 | replacing one record's files keeps the store a mirror of all live records |
| AliasStore.DeleteMirrors | packages/confluence/src/confluence-adapter.ts:140-146 | deleting paths removes a record, and nothing else, exactly when the paths cover the record's |
| IndexFiles.IndexFileReconciler.Flush | packages/core/src/emit-auxiliary/index.ts:332-376 | one read and one write: removes apply to the stored rows, then upserts, the last of an id winning; a failed read counts as an empty file, a failed write leaves it; nothing queued, nothing written |
| IndexFiles.FlushIsInOrder | packages/core/src/emit-auxiliary/index.ts:289-376 | flushing has the effect of the calls in order exactly when no id is removed last after being upserted |
| IndexFiles.FailedReadForgets | packages/core/src/emit-auxiliary/index.ts:337-356 | a flush whose read failed gives what it should exactly when every stored row is one it writes or removes |
| ConfluenceBatch.Emitter.PlanPageWrite | packages/confluence/src/emit-auxiliary-files.ts:219-258 | the plan: all paths of the page, the outdated paths of the stored page if it could be read, one index upsert |
| ConfluenceBatch.Emitter.PlanPageDelete | packages/confluence/src/emit-auxiliary-files.ts:260-281 | the tombstone's plan: the stored page's paths, or those of a page without fields when it cannot be read, and one index removal |
| ConfluenceBatch.Emitter.EmitPages | packages/confluence/src/emit-auxiliary-files.ts:182-217 | a batch of pages has the modelled effect on files, index, counts and errors, whatever calls fail |
| ConfluenceBatchRuns.BatchKeepsMirrorAndIndex | packages/confluence/src/emit-auxiliary-files.ts:182-281 | a batch keeps the files a mirror of the live pages, and the index lists exactly them if and only if no page is written and then removed last |
| ConfluenceBatchRuns.RunInStep | packages/confluence/src/emit-auxiliary-files.ts:182-281 | over every run of settled batches files and index stay in step with the live pages |
| ConfluenceBatchRuns.TombstoneRemovesEverything | packages/confluence/src/emit-auxiliary-files.ts:260-281 | after every such run a bare tombstone removes every path any batch left for its page, and its index row |
| ConfluenceBatchMeaning.PathsAre | packages/confluence/src/emit-auxiliary-files.ts:386-411 | a path is one of a page's exactly when the page's own camelCase fields call for it |
| ConfluenceBatchMeaning.RunsLeadToLatest | packages/confluence/src/emit-auxiliary-files.ts:182-281 | after every settled run a path is there exactly when the last record about some page writes it and its fields call for the path; the index has exactly these pages |
| ConfluenceBatchRuns.RecoveredPathsCover | packages/confluence/src/emit-auxiliary-files.ts:438-453 | paths recovered from a stored page cover those it was written to exactly when its space reads back as it was written |
| ConfluenceBatchRuns.IndexApart | packages/confluence/src/emit-auxiliary-files.ts:386-409 | no page whose encoded id has no underscore is stored at the index file |
| ConfluenceBatchFailures.CalmBatch | packages/core/src/emit-auxiliary/index.ts:198-251 | without failing calls the batch is the failure-free one the runs are about |
| ConfluenceBatchFailures.EveryCallAccounted | packages/core/src/emit-auxiliary/index.ts:198-251 | whatever fails, each planned write and delete is either counted or one error |
| ConfluenceBatchFailures.TriedAt | packages/core/src/emit-auxiliary/index.ts:217-247 | each path is decided by its own calls: deleted, then written, or as it was |
| ConfluenceBatchFailures.PageRetryRepairs | packages/confluence/src/emit-auxiliary-files.ts:219-258 | emitting a page again repairs a failed try exactly when that try did not write the by-id file, or read the stored page and deleted every path it had to give up |
| ConfluenceBatchFailures.TombstoneRetryCompletes | packages/confluence/src/emit-auxiliary-files.ts:260-281 | repeating a tombstone completes a failed try exactly when the by-id file was left, or all else that was left are paths of a page without fields |
| ConfluenceBatchFailures.BlindFlushForgets | packages/core/src/emit-auxiliary/index.ts:337-356 | a settled batch whose index read failed leaves the index right exactly when it wrote or removed every page that was live before |
| ConfluenceRouting.OnlyCanonicalPathsRoute | packages/confluence/src/queries.ts:87-145 | canonical files route to their page or space and every alias path matches no rule |
| ConfluenceRouting.ResolvesIff | packages/confluence/src/queries.ts:87-145 | for every path, which request it routes to, read off its segments |
| ConfluenceRouting.PageRoutesBack | packages/confluence/src/queries.ts:87-145 | a printed page path routes to its own page exactly when the id has no slash after a slug, or no inner separator without one |
| ConfluenceRouting.SpaceRoutesBack | packages/confluence/src/queries.ts:137-144 | the same for spaces |
| ConfluenceRouting.NumericNameParses | packages/confluence/src/path-mapper.ts:84-120 | parsing undoes printing of a name with a numeric id: slug, id and extension |
| ConfluenceRouting.ParsedNameMakes | packages/confluence/src/path-mapper.ts:99-120 | every file name is put together again from what parseNameWithId takes it apart into, at its last dot and last separator |
| ConfluenceRouting.NothingLeftApart | packages/confluence/src/path-mapper.ts:99-120 | what it leaves whole has no such dot or separator |
| ConfluenceRouting.NumericPagesRouteBack | packages/confluence/src/path-mapper.ts:178-189 | for every title, space and numeric id the page path routes back to that page and both name parsers agree |
| ConfluenceRouting.ParsersAgree | packages/confluence/src/path-mapper.ts:84-120 | on a name with a slug, parseNameWithId and the id extractor agree exactly when the id starts no further `__` |
| ConfluenceRouting.AfterMarkIff | packages/confluence/src/path-mapper.ts:301-309 | the id after a mark is what follows the first doubled mark with a slash-free rest |
| ConfluenceRouting.ParsersDisagree | packages/confluence/src/path-mapper.ts:301-309 | every id that starts with an underscore is read differently by the two parsers |
| ConfluenceRouting.NameParsesBack | packages/confluence/src/path-mapper.ts:84-120 | for every title and every id that needs no escape, parseNameWithId gives the printed id back exactly when the id starts no `__` after a slug, or has no inner one without |
| Bitbucket.Emitter.EmitRecord | packages/bitbucket/src/emit-auxiliary-files.ts:57-134 | one record of the loop: files, queued index actions, counts and errors as modelled, whatever call fails and whether or not the client can read or delete |
| Bitbucket.Emitter.FlushIndexes | packages/bitbucket/src/emit-auxiliary-files.ts:136-140 | every index with queued actions is read, merged and written once, and counted or reported; a failed read counts as an empty index, a failed write leaves it |
| Bitbucket.CalmFlush | packages/bitbucket/src/emit-auxiliary-files.ts:136-140 | when every index can be read and written, flushing under failures is the failure-free flushing the runs are about |
| Bitbucket.Emitter.EmitBitbucketAuxiliaryFiles | packages/bitbucket/src/emit-auxiliary-files.ts:19-140 | a batch has the modelled effect on files, counts, errors and on every index, whatever calls fail |
| BitbucketRuns.ScopedIndexOf | packages/bitbucket/src/emit-auxiliary-files.ts:38-55 | the index beside a file in a repository is the repository's own |
| BitbucketRuns.SameScopeSameRepository | packages/bitbucket/src/path-mapper.ts:58-82 | two records share a scoped index exactly when they are of one repository |
| BitbucketRuns.LayoutIsGood | packages/bitbucket/src/path-mapper.ts:58-112 | canonical, lookup and by-id paths never meet, by-id paths determine trimmed ids, and lookups print whenever the other two do |
| BitbucketRuns.LookupsPrint | packages/bitbucket/src/path-mapper.ts:93-112 | a record with an id has lookup paths unless it has a label and its trimmed id is one that is refused |
| BitbucketRuns.BatchKeepsPartition | packages/bitbucket/src/emit-auxiliary-files.ts:57-140 | after a batch the scoped indexes partition the collection index if and only if no write in it is undone later in it |
| BitbucketRuns.RunsPartition | packages/bitbucket/src/emit-auxiliary-files.ts:19-140 | over every run of settled batches whose ids, where they trim alike, are written alike, each live id is a row of exactly the index beside its file, a deleted one of none, through renames and moves |
| BitbucketRuns.UntrimmedIdLeavesRow | packages/bitbucket/src/emit-auxiliary-files.ts:62-98 | a record written and then deleted through the same by-id file leaves its row exactly when the two ids are not written alike |
| BitbucketFiles.WriteDoes | packages/bitbucket/src/emit-auxiliary-files.ts:99-118 | a write leaves the record at every path it has now, removes every lookup or canonical path that only the stored version had, and touches nothing else |
| BitbucketFiles.DeleteDoes | packages/bitbucket/src/emit-auxiliary-files.ts:87-98 | a deletion removes the by-id file and every lookup and canonical path of the stored version, and nothing else |
| BitbucketFiles.TriedWriteDoes | packages/bitbucket/src/emit-auxiliary-files.ts:99-118 | whatever calls fail, a write writes only the record's own paths, removes only those of the earlier version, and removes nothing before all of its own are written |
| BitbucketFiles.TriedDeleteDoes | packages/bitbucket/src/emit-auxiliary-files.ts:87-98 | whatever calls fail, a deletion removes only the paths of the stored version, and none before the by-id file |
| BitbucketFiles.StepCounts | packages/bitbucket/src/emit-auxiliary-files.ts:87-118 | a write counts every path it writes, a deletion every path it removes, without errors |
| BitbucketFiles.RunsMirrorRecords | packages/bitbucket/src/emit-auxiliary-files.ts:57-134 | after every failure-free run the files are exactly the canonical, by-id and lookup paths of the live records, each with its record |
| BitbucketMeaning.PathsAre | packages/bitbucket/src/path-mapper.ts:58-112 | a path is one of a record's exactly when the record's own fields call for it: repository, title and number for the file, and each label for its own directory |
| BitbucketMeaning.RunsLeadToLatest | packages/bitbucket/src/emit-auxiliary-files.ts:57-134 | after every such run a path is there exactly when the last record about some id is no deletion and its fields call for the path, and holds that record |
| BitbucketFailures.CalmBatch | packages/bitbucket/src/emit-auxiliary-files.ts:57-134 | without failing calls the batch is the failure-free one the runs are about |
| BitbucketFailures.ThrowKeepsPartition | packages/bitbucket/src/emit-auxiliary-files.ts:99-134 | a write that throws midway keeps the partition exactly when the record keeps its path or its earlier version was not read; the collection index is as it was |
| BitbucketFailures.WriteRetryRestores | packages/bitbucket/src/emit-auxiliary-files.ts:57-134 | whatever a first try meets, emitting the record again restores the partition exactly unless the record changed its repository and the first try wrote the by-id file without having read it |
| ClickUp.DiffPathsAgree | packages/clickup/src/emit-auxiliary-files.ts:251-254 | filtering by first index and keeping a set of seen paths compute the same sequence |
| ClickUp.DiffPaths | packages/confluence/src/emit-auxiliary-files.ts:425-436 | the loop with a seen set returns the outdated paths, each once, in order |
| ClickUp.ReadUsers | packages/clickup/src/emit-auxiliary-files.ts:204-212 | the user ids that can be read, each once, in order |
| ClickUp.TaskAliasPathsFor | packages/clickup/src/emit-auxiliary-files.ts:151-166 | by-id, state, every assignee, creator and priority, in this order, or a throw |
| ClickUp.EitherOrder | packages/clickup/src/emit-auxiliary-files.ts:65-88 | a plan's deletes never touch its writes, so applying them in either order is the same |
| ClickUp.PlanReconciles | packages/clickup/src/emit-auxiliary-files.ts:65-88 | the plan turns the earlier alias set into exactly the next one if and only if the stored payload carries an id or nothing is outdated |
| ClickUp.DeletionClears | packages/clickup/src/emit-auxiliary-files.ts:90-110 | a deletion, with or without a payload of its own, leaves no alias that the stored task calls for exactly when the stored payload carries an id or what comes with the deletion calls for those aliases too |
| ClickUp.AliasesApart | packages/clickup/src/path-mapper.ts:79-97 | aliases made from a field of different tasks never meet |
| ClickUp.TasksApart | packages/clickup/src/path-mapper.ts:79-97 | no alias of one task, by-id aliases included, is an alias of another |
| ClickUpRuns.RunsMirrorLatestTasks | packages/clickup/src/emit-auxiliary-files.ts:43-110 | after every failure-free run of deletions and of tasks whose stored content, their payload or the caller's own, carries the id and calls for the aliases, the store holds exactly the aliases of each live task's latest content |
| ClickUpMeaning.AliasesAre | packages/clickup/src/emit-auxiliary-files.ts:151-188 | a path is an alias of a task exactly when the id is the task's and the directory's own field calls for its value |
| ClickUpMeaning.AliasesDefined | packages/clickup/src/emit-auxiliary-files.ts:151-188 | the aliases can be printed exactly when the id, the creator and every assignee can |
| ClickUpMeaning.RunsLeadToLatest | packages/clickup/src/emit-auxiliary-files.ts:43-110 | after every run a path below the tasks is there exactly when the last record about some task writes it and its stored fields call for the path |
| AirtablePaths.PathsParseBack | packages/airtable/src/path-mapper.ts:64-148 | every printed base, table, record and notification path parses, by its own parser only, to its kind and trimmed ids |
| AirtablePaths.PathsOneToOne | packages/airtable/src/path-mapper.ts:64-148 | two printed paths are equal exactly when they name the same thing; the four families are disjoint |
| AirtablePaths.ParsesIff | packages/airtable/src/path-mapper.ts:64-148 | the parsers accept exactly the paths of encoded ids, whether or not a printer made them |
| AirtableAdapter.Adapter.IngestPayload | packages/airtable/src/airtable-adapter.ts:294-377 | one event merges onto its stored file, or deletes it, and reports the outcome, whatever call fails |
| AirtableAdapter.Adapter.ReadExistingPayload | packages/airtable/src/airtable-adapter.ts:390-411 | the payload of the stored file, or an empty one when there is no file, the read fails or the client cannot read |
| AirtableAdapter.Adapter.ExpandMaterializedPayload | packages/airtable/src/airtable-adapter.ts:812-886 | a change descriptor expands to one event per created, changed and destroyed record, in order |
| AirtableAdapter.Adapter.IngestMaterializedPayloads | packages/airtable/src/airtable-adapter.ts:260-292 | the descriptors' events are ingested in order, each meeting its own failures, and their results added up |
| AirtableMeaning.DescriptorsSay | packages/airtable/src/airtable-adapter.ts:260-292 | the last change that names a record decides whether its file is there and with which ids and type; the last that names a cell, or removes the record, decides the cell; a file that no change names stays |
| AirtableMeaning.DeliveryReports | packages/airtable/src/airtable-adapter.ts:260-377 | whatever calls fail, the result counts each write, deletion and error once and lists the path of every event that has one to report |
| AirtableMeaning.FailuresListed | packages/airtable/src/airtable-adapter.ts:994-1008 | a change whose call fails is listed under its record's own path, and one without a path under the fixed one |
| AirtableReplay.MergeAt | packages/airtable/src/airtable-adapter.ts:660-691 | what merging leaves at each key: record maps overlaid entry by entry, other keys replaced, the webhook part renewed |
| AirtableReplay.EachFileOnItsOwn | packages/airtable/src/airtable-adapter.ts:294-377 | each file is decided by the events on its own path alone |
| AirtableReplay.Absorb | packages/airtable/src/airtable-adapter.ts:341-376 | an event that comes again after others might as well not have come the first time |
| AirtableReplay.ReplayIsIdempotent | packages/airtable/src/airtable-adapter.ts:260-292 | ingesting a whole change list twice leaves every file as ingesting it once |
| AirtableReplay.DescriptorsReplay | packages/airtable/src/airtable-adapter.ts:260-292 | the same for the change descriptors of a notification |
| AirtableReplay.AtLeastOnceIsOnce | packages/airtable/src/airtable-adapter.ts:226-292 | however often delivery falls back to an earlier position, once it reaches the end the files are those of a single delivery |
| AirtableReplay.CleanAfterRough | packages/airtable/src/airtable-adapter.ts:294-411 | a clean delivery after one with failing calls leaves in each file what it alone would, had the paths with a failed read been empty |
| AirtableReplay.ReplayHeals | packages/airtable/src/airtable-adapter.ts:294-411 | it leaves the same files as if nothing had failed exactly when its events rewrite every file one of whose reads failed; failed writes and deletes always heal |
| AirtableReplay.RebuildsIff | packages/airtable/src/airtable-adapter.ts:660-691 | events make the same file with and without the stored one exactly when there is none, one of them deletes, the client never reads, or together they carry every stored key but the webhook part, and every entry of a stored object that they only overlay |
| AirtableReplay.FieldsLost | packages/airtable/src/airtable-adapter.ts:660-691 | a stored field that no upsert among them carries is lost for good |
| AirtableReplay.FieldsAreOverlay | packages/airtable/src/airtable-adapter.ts:660-691 | stored fields are the last-write-wins overlay of all deltas after the last deletion |
| AirtableReplay.DescriptorsCarryFields | packages/airtable/src/airtable-adapter.ts:812-886 | expanded descriptors carry their fields in the shape this needs |
| AirtableFetch.FetchOnDemand | packages/airtable/src/fetch-on-demand.ts:36-71 | whenever the loop ends it returns all pages' payloads in order and the last page, or nothing when a request fails |
| AirtableFetch.EndsUnlessItRepeats | packages/airtable/src/fetch-on-demand.ts:64-68 | when the server's cursors are bounded the loop ends exactly when no request repeats an earlier cursor, and then within the bound and one request more |
| AirtableFetch.RepeatingNeverEnds | packages/airtable/src/fetch-on-demand.ts:64-68 | on any server a loop that comes back to a cursor never ends |
| AirtableFetch.AdvancingServersEnd | packages/airtable/src/fetch-on-demand.ts:64-68 | it ends on every server whose cursors advance to a bound |
| AirtableFetch.AlternatingServerNeverEnds | packages/airtable/src/fetch-on-demand.ts:64-68 | an instance: two cursors that alternate |
| AirtableFetch.FetchesRestOfLog | packages/airtable/src/fetch-on-demand.ts:36-71 | on a server that pages a log it ends and returns the rest of the log from any position, each payload once and in order, whatever the page sizes |
| AirtableDelivery.NotificationsAreTheLog | packages/airtable/src/airtable-adapter.ts:226-292 | whatever pages a log is fetched in and however far each notification falls back, fetching, expanding and ingesting for each ends in the files of ingesting the whole log once |
| ChangeExtraction.FieldIds.AddStringArray | packages/airtable/src/webhook-normalizer.ts:898-913 | the set iterates over the readable ids, each once, in the order of first addition |
| ChangeExtraction.Collector.AddFieldChangesFromArray | packages/airtable/src/webhook-normalizer.ts:874-896 | pushes up to the limit, but one change even when the limit is already reached |
| ChangeExtraction.Collector.AddExplicit | packages/airtable/src/webhook-normalizer.ts:915-961 | the notification's own list, never longer than the limit |
| ChangeExtraction.Collector.AddTables | packages/airtable/src/webhook-normalizer.ts:491-541 | the table loop has the first changes and passes the limit by at most two |
| ChangeExtraction.ExtractAirtableNotificationChanges | packages/airtable/src/webhook-normalizer.ts:476-544 | with any limit the result is exactly the first changes of the unlimited enumeration |
| ChangeExtraction.EnumerationIs | packages/airtable/src/webhook-normalizer.ts:476-544 | which changes are enumerated: one for each readable field a listed entry names, or else for each field of a changed record and each created or destroyed field of a table |
| Base64Url.Base64UrlEncode | packages/asana/src/thread.ts:128-133 | the byte loop and the replacements compute the unpadded URL encoding |
| Base64Url.DecodeEncode | packages/asana/src/thread.ts:128-141 | decoding undoes encoding for every byte sequence (section 5 of RFC 4648, unpadded) |
| Base64Url.KnownVectors | packages/asana/src/thread.ts:128-141 | vectors of RFC 4648, unpadded and with the two changed letters |
| ThreadPages.CursorRoundTrip | packages/asana/src/thread.ts:90-111 | a printed cursor reads back as its offset |
| ThreadPages.LimitIs | packages/asana/src/thread.ts:52-57 | a limit is cut to a whole number and used as it is from 1 to 100; 25 stands in below and for none, 100 above |
| ThreadPages.PagesAreTheList | packages/asana/src/thread.ts:40-57 | for any mix of limits following the cursors ends, and the pages put together are the whole list, each item once and in order, every page but the last as full as was asked for |
| EventSummaries.LimitStrings | packages/asana/src/summary.ts:176-185 | stopping early gives the first of all distinct values |
| EventSummaries.NormalizedIs | packages/asana/src/summary.ts:176-185 | these are the trimmed values that are not blank, each once |
| EventSummaries.TruncateIs | packages/asana/src/summary.ts:194-200 | a text becomes the words of its redaction, or a prefix of them with an ellipsis when they do not fit |
| EventSummaries.Trimmer.TrimArray | packages/asana/src/summary.ts:79-92 | takes the last element, and the list itself with its last element |
| EventSummaries.Trimmer.TrimText | packages/asana/src/summary.ts:94-113 | shortens a text strictly, or removes it |
| EventSummaries.Trimmer.FinalizeSummary | packages/asana/src/summary.ts:50-77 | the loop ends, with the first summary of its rounds that fits or cannot be trimmed |
| EventSummaries.TrimLessens | packages/asana/src/summary.ts:50-113 | every round strictly lessens a measure, even when redaction lengthens text |
| EventSummaries.TextsShorten | packages/asana/src/summary.ts:94-113 | the title loses 16 characters a round down to 24, then the status down to 16 |
| EventSummaries.FinalizedIsFirstFit | packages/asana/src/summary.ts:50-77 | trimming stops at the first fit, every earlier round being over the budget |
| EventSummaries.FinalizedFits | packages/asana/src/summary.ts:50-113 | the printed result is shorter than 1024 characters, for every summary and every redaction |
| EventSummaries.FinalizedInOrder | packages/asana/src/summary.ts:50-77 | labels, fieldsChanged, tags, display name, title, status, actor: each is touched only once all before it are exhausted; a list keeps a beginning of itself, the actor its id |
| SummaryJson.TextReadsBack | packages/asana/src/summary.ts:60 | a text printed as JSON reads back, whatever units it holds |
| SummaryJson.PrintedAsItIs | packages/asana/src/summary.ts:60 | a text is printed unescaped exactly when it has no control, quote, backslash or lone surrogate |
| SummaryJson.SummaryReadsBack | packages/asana/src/summary.ts:50-76 | the measured JSON text, read by the grammar of RFC 8259, gives exactly the members of the summary |
| SummaryJson.JsonDetermines | packages/asana/src/summary.ts:50-76 | summaries that print alike are the same summary |
| SummaryJson.JsonWellFormed | packages/asana/src/summary.ts:60 | the JSON text never has a lone surrogate |
| SortedJson.SortJson | packages/asana/src/asana-adapter.ts:1076-1088 | the recursion and the loop over sorted keys compute the sorted value, with JavaScript's property order |
| SortedJson.SameSortsAlike | packages/asana/src/asana-adapter.ts:1072-1088 | values equal up to key order at every depth sort to the identical value |
| SortedJson.SortTwice | packages/asana/src/asana-adapter.ts:1076-1088 | sorting is idempotent |
| SortedJson.SortOrdersKeys | packages/asana/src/asana-adapter.ts:1076-1088 | at any depth array indices come first, by number, and then the other keys in code-unit order |
| SortedJson.IndexKeyIff | packages/asana/src/asana-adapter.ts:1076-1088 | the keys ordered as array indices are the decimals below 2^32 - 1 |
| SortedJson.SortIsCanonical | packages/asana/src/asana-adapter.ts:1072-1088 | two values have identical results exactly when, without their `__proto__` properties, they are equal up to key order at every depth |
| SortedJson.SortLosesOnlyProto | packages/asana/src/asana-adapter.ts:1076-1088 | sorting gives the value back, up to key order, exactly when no object in it has a `__proto__` property |
| SortedJson.ProtoIsLost | packages/asana/src/asana-adapter.ts:1083-1086 | an input on which two different values sort alike |

## Left out

- RollupRecords.RunsKeepLastWords: asks that every script a record is about can be encoded and that its hour is of the years 0000 to 9999.
- BitbucketMeaning.RunsLeadToLatest: asks for ids that are always written alike and for canonical paths that no two live records share, because the code lets one such record overwrite another.
- ConfluenceBatchMeaning.RunsLeadToLatest: asks for settled batches and camelCase fields; what happens otherwise is stated by BatchKeepsMirrorAndIndex and RecoveredPathsCover.
- AirtableMeaning.DescriptorsSay: is about calls that succeed; failing calls are the subject of AirtableReplay.
- emitCollection and the other Cloudflare collections: their reader treats a failed read as an empty index, so the strict guarantees do not apply.
- Confluence spaces in the batch emitter: writing and prior recovery read different fields; pages are modelled.
- Failing calls in the batch emitter of ClickUp: every call succeeds there.
- The Bitbucket root index, the repository and other models, and the order of rows in a Bitbucket or Confluence index: an index is a table from id to row.
- Bitbucket.Emitter.EmitBitbucketAuxiliaryFiles: each reconciler is its list of queued actions in a map from index path; sharing of reconciler objects beyond that map, and the order in which failed index writes are reported, are not captured.
- AirtableFetch.FetchOnDemand: asks only that the loop ends; on a server where it does not, nothing is promised.
- ThreadPages.PagesAreTheList: the list stays the same while it is paged; `fetchThread` and item normalisation are not modelled.
- EventSummaries.FinalizedFits: `buildSummary` itself is not modelled; the statement is over all summaries.
- RollupRuns.RunsEqualRebuild: asks for hours of the years 0000 to 9999, because sorting by `localeCompare` is modelled only on texts of one width; the parsers reject other years, but an explicit `hour_start` never reaches them.
- RollupRuns.BatchEqualsSingles: asks for a store that is a rebuild; rows that something else put there may tie in `updated`, and then the order of a list is not determined by its rows.
- RollupRows.DaySeverity: a severity that is a name on Object.prototype, whose rank the source would look up there, counts as unlisted.
- Floating point: counts and limits are real numbers, so sums are exact; a limit that is not finite is None, and in change extraction limits are natural numbers.
- localeCompare: modelled as code-unit order, on fixed-width ISO texts only.
- JSON parsing and printing of file contents, except where a printer is the subject; content is a value, and a malformed stored file is one that cannot be read.
- nameWithId with existing names, and the collision suffix of core: callers modelled here pass none.
- computeSemantics, renderContent, event normalisation and the field-precedence chains of the webhook normalizers: lookups without state.
- inferWriteCounts: which successful writes count as updates is a parameter of the Confluence client; Airtable's split of written and updated is not modelled, one tally counts both.
- Signatures, proxying, retries, connection resolution, clocks and digests.
- Writeback routing, digests, layout prompts and discovery texts.
