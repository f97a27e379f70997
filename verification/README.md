# A verified model of the ODM, its caches and two smaller protocols

This project models the pure logic of the `odm` package over MongoDB, the two
cache backends, the cache-aside protocol of the example handlers and the
directory reconstruction of `storage/s3`, and proves what they promise.

- **Documents and filters.** A document is a finite map from field path to typed
  value; a missing field and an explicit null are different, int32 and int64 are
  different bytes but equal numbers (`Bson`). Filters are a syntax tree with an
  evaluator that follows MongoDB: candidates of array fields, type brackets,
  missing read as null (`Filter`).
- **The query builder**, twice: as functions on values (`Queries`), where the
  meaning of whole chains is proved, and as objects sharing Go slices on one heap
  (`Slices`, `QueryHeap`), proved to behave like the values for any tree of
  branched queries; and what a chain is, said of its calls: the first one at fault
  and what the others contribute (`Chains`).
- **Keyset pagination.** The page order, the keyset filter and the cursor string
  (`Cursor`); `CursorPaginate`, the query's projection included, and walks whose
  pages each run against another version of the collection (`Pagination`); draining
  a fixed collection, and exactly when that is exact (`Drain`); walks over
  collections with one type per sort field, and inputs that lose a row or are
  refused (`Walks`).
- **Updates and soft deletes.** Grouping staged operators into one update document
  (`Update`); runs of `Delete`, `Restore` and `ForceDelete` (`SoftDelete`); what a
  chain's calls, faults included, make of these terminals and of a page (`Terminals`).
- **Eager loading.** The hash join and its specification (`Relations`), and loading
  a tree of nested relations in place onto a page of parents (`EagerLoad`); when
  the result is the plain nested-loop join (`PlainJoins`); which documents a parent
  gets, said of the declared fields (`Related`).
- **Dirty tracking and Save.** The diff and the model's bookkeeping (`State`),
  create, bulk create and save as functions and as methods on shared model objects
  (`Lifecycle`, `Collections`), what one such call does in order (`CreateAndSave`),
  what runs of them keep (`LifecycleRuns`), what a bulk create leaves behind
  (`BulkCreate`), many models saved onto one document (`Writers`), and the fields a
  model type does not declare (`Undeclared`).
- **Caches.** Two's-complement overflow tests and decimal counters (`Int64`), the
  in-process store against a timed map that never evicts (`MemoryCache`), glob
  escaping (`Glob`) and `Flush` on a shared Redis (`RedisFlush`).
- **Cache-aside** in every interleaving (`CacheAside`), and **directories** from
  flat keys (`Directories`).

One `Find`, `UpdateMany`, `DeleteMany` or insert is one atomic step. Clocks,
generated ids, server failures, hook and observer bodies are parameters.

## Where the code and its documentation differ

The model follows the code; each point below is a lemma.

- `keysetFilter` is called exact (odm/cursor.go:166-168). It is exact within one BSON
  type bracket: a row whose first difference from the cursor changes bracket (an
  explicit null next to a number) is skipped (`Cursor.KeysetExact`,
  `Cursor.NullIsAGap`), and a drain then loses it without an error
  (`Walks.NullLosesRow`). `Drain.DrainExactIff` gives the exact condition for a drain.
- `matchesFor` is said to return no repeats (odm/relation.go:182-185). Its one-key path
  returns a related document as often as that document lists the key
  (`PlainJoins.PlainIff`, `PlainJoins.FastPathRepeats`). As sets the result is right.
  `PlainJoins.LoadIsPlainIff` says exactly when a whole tree is repeat-free.
- `WasChanged` is said to report nothing after an insert (odm/state.go:144-148). That
  holds for `Create`; `CreateMany` leaves the previous answer standing
  (`BulkCreate.CreateManyKeepsWritten`), so that it is true after a successful bulk
  create of a model that was saved before (`BulkCreate.BulkCreateAnswersForTheSave`).
- A bulk insert refused part way leaves the written models unmarked, and saving
  exactly those is then refused as a duplicate (`BulkCreate.RefusedBatch`,
  `BulkCreate.StrandedSaves`); `BulkCreate.StrandedByATakenId` is two models and a
  database that holds the second one's id.
- `Delete` then `Restore` with one chain can miss when the chain reads `updated_at`,
  which `Delete` refreshes (`SoftDelete.DeleteThenRestore`, `SoftDelete.RestoreCanMiss`).
- `AllDirectories` over a bucket is right about every path exactly for a tidy `dir`:
  no two slashes in a row at either end, and not the root of a disk whose prefix is
  "/" alone (`Directories.BucketExactIff`).

A projection is no difference but a condition: as the documentation of
`CursorPaginate` says (odm/pagination.go:44-48), it has to keep every field the sort
uses, `_id` included. `Pagination.KeepsSort` is that condition on the query;
`Pagination.ProjectedPage` and `Walks.TypedWalkFailsIff` say what happens exactly when
it fails, and `Walks.ExcludedIdIsRefused` is the smallest case.

## Model

| member | source | states |
|---|---|---|
| `Filter.ComparisonMeansOperator` | odm/filter.go:55-92 | a two-argument Where compiles exactly for the seven operators, in either spelling, and then matches as the operator says whichever integer encoding either side has |
| `Filter.BuildFilterIsConjunction` | odm/filter.go:107-118 | combined fragments match what every fragment matches; no empty `$and` |
| `Queries.FragmentTest` | odm/query.go:150-274 | each condition call adds a fragment exactly when it has a meaning, and the fragment matches what the call means |
| `Queries.FragmentsAreFold` | odm/query.go:150-274 | invariant of every chain: the accumulated fragments, ANDed, are the strict left-to-right AND/OR fold so far |
| `Queries.CompiledUnderMode` | odm/query.go:118-128 | under any trashed mode the compiled filter matches what the fold accepts and the mode admits: no OrWhere escapes the scope, no empty `$and`/`$or` is emitted |
| `Queries.CompiledFilterIsFold` | odm/soft_delete.go:56-85 | the filter a read sends is the fold under the mode set last, wherever in the chain it was set |
| `Queries.ProjectionStep` | odm/query.go:346-362 | extending a projection keeps it one MongoDB accepts |
| `Queries.ChainKeepsInvariant` | odm/query.go:288-430 | every chain: staged fields pairwise distinct, projection legal, directions 1 or -1, bounds not negative, and the first error is kept |
| `Chains.ErrorIsFirstFault` | odm/query.go:100-430 | a chain carries an error if and only if some call of it is at fault (argument count, operator, nil set or filter, direction, negative bound, field staged twice, bad relation, trashed mode without soft deletes, empty or contradictory projection), and it is the first one's, under its name |
| `Chains.ChainBuilds` | odm/query.go:77-430 | the query a chain builds holds, beside that error, what its valid calls contribute: stages and sorts in order, Latest descending and Oldest ascending, the last limit and offset, relations, the timestamps flag, and 1 for the selected and 0 for the excluded fields |
| `Slices.Append` | odm/query.go:77-83 | Go's append: writes into spare capacity when it fits |
| `Slices.CloneAppend` | odm/query.go:84-88 | the extended copy is on a fresh array and nothing that existed is written |
| `Slices.PlainAppendAliases` | odm/query.go:77-83 | plain append on a parent with spare capacity leaves both branches holding the second branch's entry |
| `QueryHeap.QueryObject.WithFilter` | odm/query.go:91-95 | a new object reading as the parent plus one fragment; the parent is not written |
| `QueryHeap.QueryObject.WithError` | odm/query.go:100-106 | keeps the first error |
| `QueryHeap.QueryObject.OrWhereFragment` | odm/query.go:174-187 | everything so far ORed with the fragment, on a fresh array |
| `QueryHeap.QueryObject.WithProjection` | odm/query.go:346-362 | the scan finds the field's entry or appends; refused on a contradiction |
| `QueryHeap.QueryObject.SelectFields` | odm/query.go:288-306 | all fields selected, or one error and the original query |
| `QueryHeap.QueryObject.ExcludeFields` | odm/query.go:314-340 | all fields excluded, `_id` beside an inclusion, or one error and the original query |
| `QueryHeap.QueryObject.OrderBy` | odm/query.go:373-381 | appends the sort, refusing a direction other than 1 and -1 |
| `QueryHeap.QueryObject.OrderByEach` | odm/query.go:395-405 | one sort per field in order, created_at when none is named |
| `QueryHeap.QueryObject.LimitTo` | odm/query.go:410-418 | sets the limit, refusing a negative one |
| `QueryHeap.QueryObject.SkipFirst` | odm/query.go:422-430 | sets the offset, refusing a negative one |
| `QueryHeap.QueryObject.WithUpdate` | odm/update.go:82-93 | stages the operation, refusing a field already targeted |
| `QueryHeap.QueryObject.WithRelations` | odm/relation.go:52-65 | appends the relations, or an error when one is nil or invalid |
| `QueryHeap.QueryObject.WithTrashedMode` | odm/soft_delete.go:77-85 | sets the mode, refusing a model without soft deletes |
| `QueryHeap.RunBranches` | odm/query.go:77-106 | any tree of queries branched by any calls: every query that existed reads as before and every new one as if nothing were shared |
| `QueryHeap.QueryObject.CompiledFilter` | odm/query.go:118-128 | the scope is added on a copy; the query's own fragments are not written |
| `QueryHeap.QueryObject.PaginationSorts` | odm/cursor.go:132-146 | the tie-breaker is added on a copy |
| `QueryHeap.QueryObject.TimestampedOps` | odm/execute.go:249-259 | the stamp is added on a copy |
| `QueryHeap.SendAll` | odm/query.go:77-128 | sending every query of a pool, whatever they share: each is sent as if it shared nothing and reads as before afterwards |
| `Cursor.PaginationSorts` | odm/cursor.go:132-146 | appends `_id` in the last sort's direction unless already sorted on |
| `Cursor.PageOrder` | odm/cursor.go:126-146 | the page order is a strict total order on documents with different ids and refines the caller's sort |
| `Cursor.DirectionsMean` | odm/cursor.go:91-102 | of two documents the first sort field they differ on decides: 1 puts the smaller value first, -1 the greater, at any width and in any integer type |
| `Cursor.TieBreakerMeans` | odm/cursor.go:132-146 | the tie-breaker is `_id` with the last sort's direction, ascending without a sort, and is only added when `_id` is not sorted on |
| `Cursor.KeysetFilter` | odm/cursor.go:158-177 | the nested loops build the disjunction that `KeysetExact` is about |
| `Cursor.KeysetExact` | odm/cursor.go:148-177 | for a sort of any width the filter matches exactly the documents strictly after the cursor in the mixed-direction order whose first difference stays in one type bracket |
| `Cursor.NullIsAGap` | odm/cursor.go:158-177 | in the order paging reads in, seeking past an explicit null does not find a number after it |
| `Walks.NullLosesRow` | odm/pagination.go:49-150 | ordered by a field that is null in one document and 7 in the other, pages of one: the drain ends without error, its first page says there is more, and the second document was never returned |
| `Cursor.CursorKeys` | odm/cursor.go:108-124 | the row's values in sort order; a missing sort field is an error, an explicit null is not |
| `Cursor.SameSort` | odm/cursor.go:69-82 | true exactly for the same fields in the same directions, whatever integer type carries them |
| `Cursor.CursorRoundTrip` | odm/cursor.go:34-65 | a minted cursor decodes under the same sort to its keys and under any other is ErrInvalidCursor, as is every string that is not a current cursor |
| `Cursor.OppositeCursorRefused` | odm/cursor.go:34-82 | a cursor minted under 1 on a field is ErrInvalidCursor under -1 on it, the reverse too, and under another field in its place |
| `Pagination.Seek` | odm/pagination.go:111-121 | narrows the query by the decoded keyset |
| `Pagination.ReadPage` | odm/pagination.go:75-100 | keeps at most limit rows; the extra row answers HasMore |
| `Pagination.Finish` | odm/pagination.go:126-150 | mints the next cursor from the last returned row, as the projection left it, only when there is more |
| `Pagination.CursorPaginate` | odm/pagination.go:49-105 | the loop with limit+1 and early exit is filter, sort, take, project, with the source's error cases in its order |
| `Terminals.PageRefused` | odm/pagination.go:49-56 | on a chain with a fault the page is that fault's error; on any other a limit that is not positive is refused, and then a cursor that does not decode under the chain's sort |
| `Terminals.PageIgnoresBounds` | odm/pagination.go:44-65 | the query's own limit and offset make no difference to a page |
| `Terminals.ReturnedFields` | odm/query.go:288-340 | a returned row holds exactly the fields the chain asked for: the selected ones and `_id`, or all without a selection, less the excluded ones |
| `Pagination.LimitWrapsIff` | odm/pagination.go:65-67 | of the positive int64 limits only the largest sends the server a wrapped, negative limit |
| `Pagination.ProjectedPage` | odm/pagination.go:44-105 | a page is the projected page of the whole documents, refused exactly when it says there is more while the projection drops a sort field |
| `Pagination.ProjectedWalk` | odm/pagination.go:44-150 | a walk is the walk over whole documents projected page by page, or refused on its first page |
| `Pagination.SeekedTest` | odm/pagination.go:107-121 | seeking keeps the conditions and the soft-delete scope and narrows to what follows the cursor within reach |
| `Pagination.WalkIncreasing` | odm/pagination.go:49-150 | whatever changes between pages, the rows of a walk are the projections of documents that are strictly increasing and each matched the version its page ran against |
| `Pagination.WalkReturnsExactlyOnce` | odm/pagination.go:49-150 | of a finished walk, a document that matched with unchanged sort keys in every version was returned once, projected, if and only if every page end before it reaches it, that is, first differs from it inside one type bracket; otherwise not at all |
| `Walks.TypedWalkExactlyOnce` | odm/cursor.go:108-177 | with every match holding one type per sort field, exactly once without further condition |
| `Walks.LargerRankFirst` | odm/cursor.go:91-102 | of ranks 1 and 2, the first page of one row under OrderBy("rank", -1) is rank 2, with more to come |
| `Walks.TypedWalkFailsIff` | odm/pagination.go:44-150 | then a walk is refused if and only if the projection drops a sort field and the first page is not the last, and the refusal is that page's |
| `Walks.ExcludedIdIsRefused` | odm/cursor.go:108-115 | excluding `_id` from an unsorted query is a legal chain, and paging two documents one by one is refused |
| `Cursor.ReachComposes` | odm/cursor.go:148-177 | along forward steps a gap once jumped is never seen again |
| `Drain.WalkIsDrain` | odm/pagination.go:49-150 | a walk over a fixed collection is page-and-seek on the sorted list, projected, or a refusal when the projection drops a sort field and the rows do not fit one page |
| `Drain.DrainExactIff` | odm/pagination.go:44-150 | a drain from the empty cursor returns exactly the sorted, projected matches if and only if they fit one page, or the projection keeps the sort fields and each page boundary row has them all and reaches every later row |
| `Drain.DrainPages` | odm/pagination.go:65-150 | then each page holds min(limit, remaining), HasMore is true exactly while rows remain, and there are max(1, ceil(n/limit)) pages |
| `Drain.EveryLimitIff` | odm/pagination.go:44-150 | drains are exact at every limit if and only if there is at most one row, or the projection keeps the sort fields and every row but the last has them and reaches every later row |
| `Drain.OneTypePerField` | odm/cursor.go:108-177 | one type bracket per sort field suffices |
| `Update.CompileUpdate` | odm/update.go:99-118 | scanning and extending in place groups by operator in first-use order, fields in staged order |
| `Update.CountUngrouped` | odm/update.go:95-118 | the update document holds every staged operation once and nothing else |
| `Update.OrderIrrelevant` | odm/update.go:75-93 | on pairwise distinct fields the order of application makes no difference |
| `Update.CompiledMeansStaged` | odm/update.go:95-118 | the compiled update, in any order, has the effect of the staged operations one by one, refusals included |
| `Update.StagedUpdate` | odm/execute.go:234-259 | the chain's error, an error for an empty update, or the grouped operations with the stamp |
| `Update.UpdateMeansChain` | odm/execute.go:191-259 | for every chain the update sent is the staged operations in call order, refusals included, then the updated_at refresh, and nothing more when written by the chain, opted out or untimestamped; no field twice |
| `Terminals.UpdateOfChain` | odm/execute.go:229-259 | Update on a chain with a fault is refused with its error, on one that stages nothing with its own; any other sends a document with the effect of the calls' stages in order and of the refresh, when the model and the chain want one |
| `Update.WithoutMeans` | odm/update.go:62-67 | what Pull stands for: the elements equal to the value go, every other stays as often as it was |
| `Update.EffectMeans` | odm/update.go:20-73 | what the staged operators stand for on a number, an array and a missing field |
| `SoftDelete.Collection.Delete` | odm/execute.go:304-317 | removes, or stamps on a soft-delete model, what the chain and its mode select |
| `SoftDelete.Collection.Restore` | odm/soft_delete.go:105-125 | clears the stamp on what the chain selects among the trashed; error cases in order |
| `SoftDelete.Collection.ForceDelete` | odm/soft_delete.go:134-152 | removes what the chain selects, trashed included by default |
| `SoftDelete.Collection.Perform` | odm/soft_delete.go:105-152 | any step acts on each document by itself and keeps their order |
| `Terminals.StepRefused` | odm/execute.go:301-307 | Delete, Restore and ForceDelete on a chain with a fault answer that error and leave every document as it is; otherwise only the latter two are refused, without soft deletes |
| `Terminals.ReachedDocument` | odm/soft_delete.go:110-164 | a document reached is stamped or its stamp cleared, updated_at refreshed unless the model or the chain has no timestamps; without soft deletes Delete removes it |
| `SoftDelete.StampEffect` | odm/soft_delete.go:119-164 | the two compiled updates set or clear deleted_at and refresh updated_at under the model's flags |
| `SoftDelete.StepMeaning` | odm/soft_delete.go:56-164 | what each terminal reaches and makes of it, said by the chain's fold; Restore reaches only trashed documents whatever mode the chain carries |
| `SoftDelete.DefaultReadsHideTrashed` | odm/soft_delete.go:56-65 | default reads show exactly the untrashed matches; what a Delete reached is no longer among them |
| `SoftDelete.RunIsLives` | odm/soft_delete.go:56-164 | a run of the collection is its documents' separate lives in order |
| `SoftDelete.OnlyForceDeleteRemoves` | odm/soft_delete.go:127-152 | over any run a document survives with every field but the two stamps untouched, or some ForceDelete selected the version it found |
| `SoftDelete.DeleteThenRestore` | odm/soft_delete.go:97-125 | the document comes back with no deleted_at if and only if the stamped version still satisfies the chain |
| `SoftDelete.RestoreUndoesDelete` | odm/soft_delete.go:97-125 | a chain reading neither stamp always restores what it deleted |
| `SoftDelete.RestoreCanMiss` | odm/soft_delete.go:97-164 | a chain reading updated_at may not |
| `Relations.DocumentKeys` | odm/relation.go:131-161 | each document's keys, and the distinct values among them, each once |
| `Relations.GroupByKey` | odm/relation.go:167-180 | positions under each key in fetch order, as often as a document lists it |
| `Relations.MatchesFor` | odm/relation.go:186-204 | a parent's related documents in fetch order |
| `EagerLoad.FetchedCovers` | odm/relation.go:208-210 | the server's coarser `$in` returns every visible document sharing a key by type and bytes, and only visible ones |
| `EagerLoad.BatchJoins` | odm/relation.go:206-210 | joining with the batch is joining with everything visible |
| `EagerLoad.LinkIsNaive` | odm/has_many.go:76-112 | what is attached from the batch is what the parent would get alone |
| `Related.LinkMeans` | odm/belongs_to.go:49-71 | a parent gets through each kind of relation the visible documents related to it by the declared fields, `_id` for an empty local or owner key: all of them in the collection's order, or the first or none for the single-valued kinds |
| `Related.LoadMeans` | odm/relation.go:215-222 | loading adds one such link for each relation, in order, and leaves the document and earlier links |
| `EagerLoad.AttachMatches` | odm/has_one.go:70-79 | each parent gets its own link, written in place, the first match or none for the single-valued relations |
| `EagerLoad.AttachNothing` | odm/has_many.go:114-118 | parents without keys get an empty list or nil |
| `EagerLoad.Load` | odm/has_many.go:67-112 | one relation, nested to any depth, loaded in place equals the per-parent join; the log of finds names no tree node twice |
| `EagerLoad.LoadNested` | odm/relation.go:215-222 | the same for a list of relations, in order, before the parent's Attach |
| `EagerLoad.LoadRelations` | odm/relation.go:68-79 | a page with no rows issues no find, any other at most one for each tree node |
| `PlainJoins.PlainIff` | odm/relation.go:182-204 | the join is repeat-free if and only if no document lists a lone parent key twice; as sets, and in its first element, always right |
| `PlainJoins.LoadIsPlainIff` | odm/relation.go:182-222 | a loaded tree is the plain nested-loop tree if and only if that holds at every level reached |
| `PlainJoins.FastPathRepeats` | odm/relation.go:187-189 | a document listing a key twice is attached twice |
| `State.ComputeDiff` | odm/state.go:213-254 | the two passes over the marshalled versions compute the changeset `DiffExact` describes |
| `State.DiffExact` | odm/state.go:206-258 | exactly the differing fields with their current values, exactly the vanished fields, `_id` apart, disjoint |
| `State.CleanIff` | odm/state.go:206-258 | empty exactly when nothing but `_id` differs; empty right after a snapshot |
| `State.PatchReaches` | odm/state.go:213-254 | patching any document that agrees with the snapshot makes it agree with the model, untouched elsewhere |
| `State.DiffMinimal` | odm/state.go:213-254 | any changeset with that effect sets and unsets at least as much |
| `State.ComputeTouches` | odm/state.go:159-175 | with no names any change counts, with names any named one |
| `State.TouchesMeans` | odm/state.go:159-175 | one touched name is enough; with no names, anything set or unset |
| `State.Model.Snapshot` | odm/state.go:55-68 | marks persisted and remembers the marshalled fields, for a tracked type only |
| `State.Model.RecordWrite` | odm/state.go:71-75 | remembers the changeset for a tracked type |
| `State.Model.Changes` | odm/state.go:111-130 | the diff for a persisted model, nothing otherwise |
| `State.Model.IsDirty` | odm/state.go:180-186 | whether the pending changes touch the fields |
| `State.Model.WasChanged` | odm/state.go:149-155 | whether the last recorded write touched the fields |
| `State.DirtyIffOriginalDiffers` | odm/state.go:193-204 | on a persisted model a field is dirty exactly when Original differs from its current value |
| `LifecycleRuns.OriginalOverRuns` | odm/state.go:188-204 | after any run Original answers the field as it was when the model was last read, created or carried to the end of a call; nothing for a model not persisted |
| `Collections.Collection.PrepareModel` | odm/collection.go:225-236 | before-hooks in order, stopping at an error, then the stamp of odm/model.go |
| `Collections.Collection.Insert` | odm/collection.go:225-253 | hooks, stamp, write, record, snapshot, after-hooks, in that order and each failure leaving what went before |
| `Collections.Collection.Update` | odm/state.go:295-361 | the changeset recomputed after the before-hooks, sent by `_id`, snapshot after the after-hooks |
| `Collections.Collection.Save` | odm/state.go:285-293 | inserts a model that is not persisted, updates one that is |
| `Collections.Collection.CreateMany` | odm/bulk.go:42-80 | all prepared before one ordered insert, then snapshots and after-hooks one by one, on models that may be listed twice |
| `CreateAndSave.HooksInOrder` | odm/collection.go:225-253 | hooks run from the first on, each on what the one before left, up to the first error |
| `CreateAndSave.PreparedMeans` | odm/model.go:96-115 | the stamp, field by field: an id only for the zero one, created_at only for the zero time, updated_at always |
| `CreateAndSave.CreateInOrder` | odm/collection.go:225-253 | the outcome, log, document and model of every Create: nothing stored after a failing before-hook or a refused write; otherwise before-hooks, write, after-hooks, and the model persisted with the stored fields as its snapshot |
| `CreateAndSave.SaveInOrder` | odm/state.go:295-361 | the same of a Save that reaches the server: one document patched with the changeset after the before-hooks, after-hooks run, snapshot taken after them unless one failed |
| `CreateAndSave.SaveCutShort` | odm/state.go:295-340 | and of one that does not: its error, no document changed, the snapshot kept |
| `CreateAndSave.BatchInOrder` | odm/bulk.go:42-80 | a successful bulk create did to every model listed once what Create does |
| `CreateAndSave.ReadPersists` | odm/state.go:55-68 | a model just read is persisted with what was decoded as its snapshot, and saving it sends nothing |
| `BulkCreate.BatchPersists` | odm/bulk.go:42-80 | after a successful bulk create every listed model of a tracked type is persisted; one listed once remembers, field by field, the document stored for it, and saving it as stored sends nothing |
| `BulkCreate.OnePersists` | odm/bulk.go:68-71 | one unsaved model, an empty database, quiet hooks: persisted, and a Save straight afterwards is silent |
| `LifecycleRuns.RunGood` | odm/state.go:55-155 | over any run of builds, reads, edits, creates, bulk creates, saves and foreign writes: persisted exactly if the type is tracked and the model was read, created or carried to the end of a call since it was built, and then it has been stored; WasChanged describes the last update sent; the snapshot is the fields at the last read, create or completed call |
| `LifecycleRuns.SaveNeverReinserts` | odm/state.go:285-293 | Save never inserts a persisted model |
| `LifecycleRuns.CleanSaveIsSilent` | odm/state.go:295-309 | a Save finding nothing dirty sends nothing, runs no hook, changes nothing |
| `LifecycleRuns.SendAgrees` | odm/state.go:309-350 | what was sent leaves the stored document agreeing with the model, other fields untouched |
| `LifecycleRuns.SnapshotAgreesIff` | odm/state.go:341-361 | after a Save that sent, the snapshot agrees with the database if and only if the later hooks left the persisted fields alone |
| `LifecycleRuns.InsertSnapshotAgrees` | odm/collection.go:239-253 | after an insert it agrees whatever the after-hooks do |
| `BulkCreate.CreateManyKeepsWritten` | odm/bulk.go:64-80 | CreateMany leaves WasChanged as it was |
| `BulkCreate.BulkCreateAnswersForTheSave` | odm/bulk.go:42-80 | a model created, renamed, saved and given back the zero id: after a successful CreateMany WasChanged is true, after Create false |
| `BulkCreate.RefusedBatch` | odm/bulk.go:64-68 | a refused batch has written exactly the models before the refused one, marks none of them persisted and runs no after-hook |
| `BulkCreate.SaveRefusedIff` | odm/collection.go:225-253 | saving a model that does not count as persisted, its before-hooks succeeding and leaving `_id` alone, is refused as a duplicate exactly when its `_id` is taken |
| `BulkCreate.StrandedSaves` | odm/bulk.go:64-68 | after a refused batch of fresh, different ids saving is refused for exactly the models the batch wrote |
| `BulkCreate.StrandedByATakenId` | odm/bulk.go:42-80 | two unsaved models, the second one's id taken: the bulk create answers DuplicateKey, the first model is stored but not marked persisted, and saving it answers DuplicateKey |
| `Writers.LastSaveWins` | odm/state.go:295-361 | with any number of models saving in any order each stored field ends as the last changeset touching it says, or as it began |
| `Undeclared.UndeclaredUntouched` | odm/state.go:213-254 | over any run of models whose type, hooks and edits stay within the declared fields, every document keeps every undeclared field |
| `Undeclared.SaveLeavesUndeclared` | odm/state.go:295-361 | one Save does so whoever else writes |
| `Writers.SaveIgnoresDatabase` | odm/state.go:295-361 | what a Save makes of its model does not depend on the stored document |
| `Writers.SavesCommute` | odm/state.go:295-361 | saves with disjoint changesets commute on every field but updated_at |
| `Int64.SignBits` | cache/memory/memory.go:223-235 | the sign of a bitwise xor and and |
| `Int64.AddTestExact` | cache/memory/memory.go:223-228 | addOverflows on the wrapped sum is true exactly when the mathematical sum leaves int64 |
| `Int64.SubTestExact` | cache/memory/memory.go:230-235 | subOverflows likewise, MinInt64 as operand included |
| `Int64.DecimalRoundTrip` | cache/memory/memory.go:171-221 | every int64 survives its decimal text |
| `Int64.DecimalMeans` | cache/memory/memory.go:171-221 | and it is the ordinary decimal text, digit by digit, with a minus sign; a plus sign is read |
| `MemoryCache.Store.Lookup` | cache/memory/memory.go:146-156 | the live entry; an expired one is evicted |
| `MemoryCache.Store.Get` | cache/memory/memory.go:54-63 | the store's step for a read |
| `MemoryCache.Store.Put` | cache/memory/memory.go:65-71 | the store's step for a write with a ttl |
| `MemoryCache.Store.Add` | cache/memory/memory.go:73-82 | writes only when nothing is live, reading the clock a second time for the expiry |
| `MemoryCache.Store.Forever` | cache/memory/memory.go:84-90 | writes without expiry |
| `MemoryCache.Store.Pull` | cache/memory/memory.go:92-102 | reads and removes |
| `MemoryCache.Store.Forget` | cache/memory/memory.go:104-110 | removes, present or not |
| `MemoryCache.Store.Has` | cache/memory/memory.go:112-118 | whether a live entry is there |
| `MemoryCache.Store.Count` | cache/memory/memory.go:171-221 | wrapped arithmetic and the bit test amount to exact counting: a total with the expiry kept, or an error with the value kept |
| `MemoryCache.Store.Flush` | cache/memory/memory.go:132-142 | empties the store, refused without a prefix |
| `MemoryCache.StepAlike` | cache/memory/memory.go:54-206 | one call on the store and on a timed map: same answer, still indistinguishable |
| `MemoryCache.LazyEvictionUnobservable` | cache/memory/memory.go:54-221 | every run answers as a timed map that evicts nothing and counts in exact integers |
| `MemoryCache.ZeroTimeNeverExpires` | cache/memory/memory.go:146-163 | why the clock must keep clear of the zero time |
| `MemoryCache.CounterExact` | cache/memory/memory.go:171-221 | on a live key holding n, Increment answers and stores n + amount and Decrement n - amount, under the old expiry, or Overflow with nothing changed |
| `MemoryCache.CounterFromZero` | cache/memory/memory.go:208-221 | on an absent or expired key the call counts from zero, and what it stores never expires |
| `MemoryCache.CountersExact` | cache/memory/memory.go:165-206 | any run of counter calls on a key unexpired at each, time passing between them: call by call the exact total or Overflow, and in the end the exact total as text under the old expiry |
| `Glob.GlobEscape` | cache/redis/redis.go:162-172 | escapes each special character, in order |
| `Glob.EscapedPrefixExact` | cache/redis/redis.go:159-172 | the scanned pattern matches exactly the keys with the literal prefix, for all strings |
| `Glob.UnescapedIsWrong` | cache/redis/redis.go:116-130 | without escaping it would match foreign keys and miss its own |
| `RedisFlush.Flush` | cache/redis/redis.go:127-153 | the scan loop fills, sends and resets the batch as the step function says, DEL and SCAN failures included |
| `RedisFlush.FlushAnswers` | cache/redis/redis.go:127-153 | Flush answers success exactly when there is a prefix, the scan does not fail and none of the DELs it takes, a thousand keys each and the rest, is refused; a refused DEL exactly when the scan got that far |
| `RedisFlush.FlushComplete` | cache/redis/redis.go:119-153 | against SCAN's guarantee and concurrent writers a successful Flush leaves no owned key that was there at the start and not written since |
| `RedisFlush.FlushOnlyOwned` | cache/redis/redis.go:119-153 | every DEL is non-empty, at most 1000 keys, only with the literal prefix; however Flush ends, every other key is where the other clients left it by then |
| `CacheAside.ServedRowWasCommitted` | examples/nethttp/handlers.go:95-224 | in every interleaving, what the cache would serve at any moment was the committed row at the read that fed a Put less than ttl before |
| `CacheAside.AlwaysFresh` | examples/nethttp/handlers.go:95-224 | if Forgets succeed and no fill spans a commit, the entry is absent, equal to the row, or has an invalidation pending |
| `CacheAside.SpoiltIff` | examples/nethttp/handlers.go:135-224 | exactly which single steps spoil that |
| `CacheAside.SlowFillServesStale` | examples/nethttp/handlers.go:135-151 | a fill that outlasts a commit and its Forget serves the old row with nothing pending |
| `Directories.List` | storage/s3/s3.go:493-507 | collects the listing, failing on its first error item |
| `Directories.AncestorIsJoined` | storage/s3/s3.go:472-478 | every proper ancestor of a path is a join of its first segments |
| `Directories.JoinedIsAncestor` | storage/s3/s3.go:472-478 | and every such join is a proper ancestor, empty segments or not |
| `Directories.AddKey` | storage/s3/s3.go:466-482 | one key adds, unrepeated, exactly the paths under dir that it lies below or marks |
| `Directories.AllDirectories` | storage/s3/s3.go:445-487 | sorted, without repeats, exactly the paths under dir that some listed key lies below or marks |
| `Directories.BucketExactIff` | storage/s3/s3.go:445-515 | with the listing included, right about every path of every bucket if and only if the directory asked about is tidy |

## Left out

- Queries.ChainKeepsInvariant: field conflicts are by exact name, as in the source, and so are projections; that a path is a prefix of another (`a` and `a.b`) is not modelled, since documents are flat maps from path to value.
- Cursor.KeysetExact: assumes scalar (or missing, or null) values in the sort fields; MongoDB's multikey sorting of array fields is not modelled.
- Pagination.CursorPaginate: the limit is below 2^63-1, where limit + 1 wraps; the slice of that capacity allocated up front (odm/pagination.go:75), which panics for limits far smaller, is not modelled, nor is the decoding of rows into models.
- Pagination.Finish: the snapshots of the returned models and their eager loading, either of which may fail the page, are not part of it.
- LifecycleRuns.SnapshotAgreesIff: assumes the document still exists under the model's unedited `_id`, because the matched count is not checked (odm/state.go:346).
- MemoryCache.LazyEvictionUnobservable: assumes a clock that does not run backwards and stays after the zero time; Duration arithmetic that saturates is not modelled.
- RedisFlush.FlushComplete: a refused DEL deletes nothing; partial execution on a cluster is not modelled.
- Glob.EscapedPrefixExact: strings are sequences of characters; the rewriting of invalid UTF-8 by `range` is not modelled.
- Doubles, decimals, regular expressions and embedded documents as values.
- Cursor strings are a datatype: base64url (section 5 of RFC 4648) over BSON is taken as an injective code.
- In the model lifecycle, stored documents are keyed by the exact `_id` value (type and bytes); the server's coarser equality of int32 and int64 ids is not modelled there.
- The values a WhereIn slice is converted from (reflection), and which argument types bsonArray accepts.
- Result counts of bulk updates and deletes, and the single-document terminals `UpdateOne`, `UpdateRaw`, `DeleteOne` with their choice of one document.
- Nil model pointers, unordered `InsertMany` options, `BulkWrite`, transactions, aggregation, indexes.
- Reflection metadata: the three model flags are parameters.
- Decoding and driver errors inside relation loading; a failed find simply ends the load.
- Creating the task row, listing and attachments in the example handlers; the Fiber handlers run the same protocol.
- In `storage/s3`, everything but listing to directories; S3 multi-page listing is one sequence.
- `storage/local`, `env`, `respond`, `validator`, `db` and their adapters: thin wrappers.
- Error message text; only the sentinel and the name of the refused call are kept.
