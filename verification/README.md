# WordClaw state-keeping cores: model and proofs

WordClaw is a content service. Most of it moves data between a database and its HTTP, GraphQL and
MCP surfaces; this project models the parts that keep state under rules of their own, and proves
what those rules are for.

* **Content store** (`ContentDb`, `ContentStore`, `ContentInvariants`, `ContentBatches`,
  `ContentModes`, `ContentDryRun`, `ContentCreates`, `ContentDeletes`, `ContentWorkflows`, `ContentVerdicts`,
  `ContentStatuses`, `ContentOutcomes`): content types, item heads, the append-only version table, rollback, singleton
  types, and batches in dry-run, partial and atomic mode. `ContentDb` gives each GraphQL mutation as
  a function from tables to tables; the class `ContentStore.Store` performs it step by step and is
  proved equal to that function. The runs, invariants and relations between modes are proved about
  the functions, and `ContentOutcomes` says on the rows of the tables alone what each of them refuses
  and leaves behind.
* **Idempotency middleware** (`Idempotency`, `IdempotencyProtocol`): the plugin's cache and in-flight
  set under interleaved requests and a clock.
* **L402 payment gate** (`L402Token`, `L402Gate`): tokens as macaroons with caveats, their headers, and
  the gate that drives the payment ledger.
* **MCP subscriptions** (`FilterJson`, `ReactiveEvents`, `McpSession`): canonical filter serialisation,
  topics, and the deduplicated subscription list.
* **Audit log pages** (`AuditPages`), **JSON-RPC client** (`JsonRpcClient`), **API keys** (`ApiKeys`),
  **run metrics** (`RunMetrics`), **asset keys and paths** (`AssetKeys`, `AssetPaths`).

`Outcomes` and `Text` hold the shared datatypes and string functions. `dafny verify dfyconfig.toml`
checks everything.

## What the code does not do

Some properties one expects fail. Each has a concrete instance, and beside it the exact condition
under which it holds, or a bound proved sharp.

* The dry run of a batch update can accept a row that the partial run then refuses
  (`ContentDryRun.DryRunTrustsOldReferences`): schemas look at the content types of referenced items,
  and an earlier row of the batch may change one. For distinct ids and no conflict over singletons
  the dry run is right, whatever the schemas demand, if and only if no row that sets anything refers
  to an item that an earlier row, free to be written and to take its seat, retypes
  (`ContentDryRun.StaleReferencesDecideSoundness`; the condition suffices with conflicts too).
* The dry run of a batch delete reports a repeated id twice (`ContentDeletes.RepeatedDeleteMisleads`); it
  agrees with the partial run if and only if no item that exists is named twice
  (`ContentDeletes.DeleteDryRunAgreesExactly`).
* The atomic batch update looks at no workflows (`ContentModes.AtomicIgnoresWorkflows`); it is refused for
  empty data that the other modes drop (`ContentModes.EmptyDataRefusedOrDropped`); and it does not notice
  that it has itself retyped a referenced item, because the schema service reads through its own
  connection and does not see the open transaction (`ContentModes.AtomicTrustsOldReferences`). For a batch
  it accepts when schemas accept everything, it agrees with the partial mode, whatever the schemas demand,
  if and only if none of the three matters in any row (`ContentModes.AtomicAgreesExactly`). Under given
  schemas, workflows decide alone where the other two do not matter (`ContentModes.WorkflowsDecideAgreement`).
  For batch creates only the open transaction makes a difference (`ContentCreates.AtomicMissesNewItem`,
  `ContentCreates.AtomicCreateAgreesExactly`),
  and for batch deletes nothing does (`ContentDeletes.AtomicDeleteAgreesWithPartial`).
* The partial batch update can change the status of an item in a workflow-governed type: through a type
  without a workflow and back (`ContentWorkflows.DetourPublishes`), or to the empty status
  (`ContentWorkflows.EmptyStatusPasses`). Which batches leave a status alone, whatever the schema service
  answers, can be told before the call, and exactly: with distinct ids by
  `ContentVerdicts.DistinctStatusExactly`, with repeated ids by `ContentVerdicts.StatusSafeExactly`, and on
  sight, if not exactly, by `ContentVerdicts.CautiousBatchKeepsStatus`.
* Rollbacks do not look at workflows either (`ContentStatuses.RollbackPublishes`). With workflows on every
  type and no empty statuses, rollbacks and atomic batch updates are the only commands that change a
  status (`ContentStatuses.OnlyRollbacksAndAtomicBatches`).
* Audit pages can miss rows: the cursor keeps milliseconds, the database microseconds
  (`AuditPages.SubMillisecondRowsAreMissed`). The exact condition is a check on the page boundaries
  (`AuditPages.WalkIsCompleteExactly`).
* Two idempotent requests can share a cache key, and do so exactly if a path contains a colon
  (`Idempotency.ColonCollision`, `Idempotency.ColonsCollide`), and handlers that take exactly the time to live can overlap
  (`IdempotencyProtocol.BoundIsSharp`).
* A payment whose ledger row is missing can be redeemed again (`L402Gate.LostRowRedeemedTwice`), and
  one that has its row cannot (`L402Gate.LostRowsAreReplayable`).
* A local storage root that is the top directory refuses every key below it
  (`AssetPaths.TopDirectoryRefusesKeys`, `AssetPaths.ConfinementIsExact`).

One result is about texts rather than about the service: on header texts in general the resolver's invoice
pattern fails exactly for a macaroon text that ends with `invoice=` (`L402Token.InvoicePatternRecoversExactly`);
whether a serialised token can end like that is a matter of the macaroon library.

## Model

| member | source | states |
|---|---|---|
| ContentInvariants.RunKeeps | src/graphql/resolvers.ts:1655-3092 | Over any sequence of type and item mutations, in every batch mode, the tables stay sound (slugs unique, items typed in their own domain, singletons single, histories numbered without gap) and no surviving item's timeline is rewritten. |
| ContentInvariants.ReachableSingletonsAndTypes | src/graphql/resolvers.ts:684-699 | In every reachable store a singleton type has at most one item, and every item's type exists in the item's own domain. |
| ContentInvariants.ReachableHistoryIsExact | src/db/schema.ts:52-59 | In every reachable store an item at version v has exactly one history row for each of 1..v-1 and none for any other number. |
| ContentInvariants.HistoryIsExact | src/db/schema.ts:52-59 | In sound tables, counting an item's history rows of a version gives one for 1 <= version < head version and none otherwise, and the version lookup succeeds exactly then. |
| ContentInvariants.ShownHeadsStayRecoverable | src/graphql/resolvers.ts:2130-2154 | Whatever version, data and status an item once showed as its head is, after any further mutations, still the head or the one history row of that version, as long as the item exists. |
| ContentInvariants.RollbackRestores | src/graphql/resolvers.ts:2998-3092 | Rollback to k gets past the version lookup exactly for 1 <= k < head version; a success restores that version's data and status as a new version, keeps the type, extends the timeline by one entry and keeps the tables sound; a failure changes nothing. |
| ContentInvariants.WriteHeadKeeps | src/graphql/resolvers.ts:2335-2357 | Archiving the head and writing a new one in a type that exists and is free keeps the tables sound and appends exactly the new head to that item's timeline. |
| ContentInvariants.UpdateTypeKeeps | src/graphql/resolvers.ts:1706-1772 | A content type update, a change of kind to singleton included, keeps the tables sound and every timeline. |
| ContentInvariants.DeleteTypeKeeps | src/graphql/resolvers.ts:1774-1803 | Deleting a content type, which the foreign key allows only when no item uses it, keeps the tables sound. |
| ContentInvariants.CreateBatchKeeps | src/graphql/resolvers.ts:1863-2074 | A batch create keeps the tables sound and every timeline, in each mode, aborted transactions included. |
| ContentInvariants.UpdateBatchKeeps | src/graphql/resolvers.ts:2170-2373 | A batch update keeps the tables sound and every timeline, in each mode. |
| ContentInvariants.UpdateGlobalKeeps | src/graphql/resolvers.ts:2375-2500 | Creating or updating a global keeps the tables sound and every timeline. |
| ContentInvariants.DeleteKeeps | src/graphql/resolvers.ts:2657-2760 | A batch delete takes the deleted items' history rows along and keeps the tables sound, in each mode. |
| ContentBatches.AtomicIsAllOrNothing | src/graphql/resolvers.ts:2211-2324 | An atomic batch update either changes nothing and reports the first row that cannot be written on top of the rows before it, or equals writing all rows in order, with each head's version raised by the number of its occurrences and each row reported with the version it got. |
| ContentModes.AtomicAgreesWithPartial | src/graphql/resolvers.ts:2326-2372 | Where no row changes a status under a workflow, sets empty data to any effect, or leaves a reference to an item whose type the rows before it have changed: atomic succeeds exactly when partial reports every row ok, with equal reports and tables, and otherwise fails at partial's first failing row with its code. |
| ContentModes.AtomicAgreesExactly | src/graphql/resolvers.ts:2211-2372 | For a batch the atomic mode accepts under schemas that accept everything, repeated ids included: the modes agree under all schemas if and only if no row does any of the three. |
| ContentModes.WorkflowsDecideAgreement | src/graphql/resolvers.ts:1111-1117 | Under given schemas, and with no row doing the other two: the modes agree if and only if no row that the atomic mode gets to and admits changes a status under a workflow. |
| ContentModes.AcceptedBatchesDifferByWorkflow | src/graphql/resolvers.ts:2217-2292 | Of such batches that the atomic mode accepts, the partial mode reports every row ok if and only if no row changes a status under a workflow. |
| ContentWorkflows.PartialKeepsGovernedStatus | src/graphql/resolvers.ts:1111-1117 | In a partial batch update an item's status changes only if some row for it is taken that aims, on the tables before it, at a type without a workflow, or that sets the empty status. |
| ContentWorkflows.StatusIsLastFree | src/graphql/resolvers.ts:1111-1117 | After any number of rows an item's status is the one last set by such a row, or the original one. |
| ContentWorkflows.StatusStaysExactly | src/graphql/resolvers.ts:2326-2372 | An item keeps its status throughout the batch if and only if no such row for it sets another. |
| ContentWorkflows.DistinctRowsKeepGovernedStatus | src/graphql/resolvers.ts:1111-1117 | With distinct ids, an item that ends up in a type with a workflow changes its status if and only if its row is taken and empties the status. |
| ContentWorkflows.DetourPublishes | src/graphql/resolvers.ts:1090-1117 | Witness: two rows, out of the governed type and back, publish a draft. |
| ContentWorkflows.EmptyStatusPasses | src/graphql/resolvers.ts:1112 | Witness: a row with the empty status is taken in a governed type. |
| ContentVerdicts.DistinctStatusExactly | src/graphql/resolvers.ts:1090-1138 | With distinct ids and no singleton taken: an item keeps its status under all schema verdicts if and only if no row that the stored tables and workflows let through sets another. |
| ContentVerdicts.StatusSafeExactly | src/graphql/resolvers.ts:2326-2372 | Repeated ids included, and no seat the item is sent to taken: its status stays after every row, whatever the schema service answers to each row, if and only if no row sets another status and may pass at a type the rows before it may bring the item to. |
| ContentVerdicts.CautiousBatchKeepsStatus | src/graphql/resolvers.ts:1111-1117 | The status stays under any verdicts if every row for the item that sets another one sets a non-empty one and aims only at governed types: its own, or else the stored type and every type set earlier. |
| ContentVerdicts.TypesAreReached | src/graphql/resolvers.ts:1090-1102 | Every type so counted the item does get to, with its old status, under suitable verdicts. |
| ContentStatuses.StatusNeedsBypass | src/graphql/resolvers.ts:1655-3092 | One command changes the status of an item that it leaves in place only in the ways named: an update to an ungoverned type or to the empty status, by item, global or batch row; an atomic batch row; a rollback. |
| ContentStatuses.StatusOverRuns | src/graphql/resolvers.ts:1655-3092 | Over every run, and while the item exists, its status is unchanged unless one of these commands ran. |
| ContentStatuses.OnlyRollbacksAndAtomicBatches | src/graphql/resolvers.ts:2998-3092 | With workflows on every type and no empty statuses, only rollbacks and atomic batch updates change a status, over every run. |
| ContentStatuses.RollbackPublishes | src/graphql/resolvers.ts:3014-3066 | Witness: rolling a draft back to a published version publishes it under a workflow. |
| ContentModes.AtomicIgnoresWorkflows | src/graphql/resolvers.ts:2241-2292 | Witness: the atomic batch update publishes an item under an active workflow that the partial mode refuses. |
| ContentModes.AtomicRefusesEmptyData | src/services/content-schema.ts:2121-2130 | Since empty data is no JSON text under any schema, no batch that the atomic mode accepts sets empty data. |
| ContentModes.EmptyDataRefusedOrDropped | src/graphql/resolvers.ts:2217-2245 | Witness: the atomic mode refuses a row for its empty data that the partial mode takes without it. |
| ContentModes.AtomicTrustsOldReferences | src/services/content-schema.ts:2162-2192 | Witness: an atomic batch accepts a reference to an item it has just given a forbidden type, which the partial mode refuses. |
| ContentDryRun.DryRunSoundness | src/graphql/resolvers.ts:2187-2209 | For distinct ids, and no row that sets anything referring to an item that an earlier row, free to be written and to take its seat, retypes: a row the dry run reports ok is ok in the partial run with the same id and version, and the two differ only in rows the dry run rejects with SINGLETON_CONTENT_ITEM_EXISTS. |
| ContentDryRun.TakenRowMoves | src/graphql/resolvers.ts:1119-1138 | A row that the partial run takes and that retypes its item had its seat free, or vacated by an earlier row that was free to move. |
| ContentDryRun.StaleReferencesDecideSoundness | src/services/content-schema.ts:2162-2250 | For a batch with distinct ids in which no singleton is taken under schemas that accept everything, the dry run foretells the partial run for all schema verdicts if and only if there is no such reference. |
| ContentDryRun.DryRunTrustsOldReferences | src/graphql/resolvers.ts:2187-2203 | Witness: the dry run accepts a row that the partial run refuses, because the row before it retypes the item it refers to. |
| ContentDryRun.StaleReferenceMisleads | src/services/content-schema.ts:2212-2250 | Any such stale reference admits schema verdicts under which the dry run is wrong. |
| ContentDryRun.SingletonVacatedUnderWay | src/graphql/resolvers.ts:1119-1138 | Witness: one row leaves a singleton type and the next enters it; the dry run rejects the second, the partial run accepts it. |
| ContentDryRun.ClaimsStep | src/graphql/resolvers.ts:1128-1137 | Across one more row, a singleton type can have gained a member in the partial run only if the dry run has claimed it or a former member has been processed. |
| ContentDeletes.AtomicDeleteAgreesWithPartial | src/graphql/resolvers.ts:2691-2759 | An atomic batch delete succeeds exactly when the partial mode deletes every row, with equal reports and tables; otherwise it changes nothing and names the first row not found. |
| ContentDeletes.DeleteDryRunAgreesExactly | src/graphql/resolvers.ts:2669-2689 | The dry run of a batch delete reports what the partial run does if and only if no item that exists is named twice. |
| ContentDeletes.RepeatedDeleteMisleads | src/graphql/resolvers.ts:2669-2689 | Witness: of two equal ids the second is found in the dry run only. |
| ContentCreates.AtomicCreateAgreesWithPartial | src/graphql/resolvers.ts:1924-2073 | Where no row refers to an id that the sequence would give to an earlier row: an atomic batch create succeeds exactly when partial reports every row ok, with equal reports and tables; otherwise it fails at partial's first failing row and leaves only a gap in the id sequence. |
| ContentCreates.AtomicCreateAgreesExactly | src/services/content-schema.ts:2162-2192 | For a batch the atomic mode accepts under schemas that accept everything: the modes agree under all schemas if and only if no row refers to such an id. |
| ContentCreates.AtomicMissesNewItem | src/graphql/resolvers.ts:1935-1938 | Witness: a row that refers to the item the row before it creates is refused in atomic mode and taken in partial mode. |
| ContentOutcomes.CreateItemOutcome | src/graphql/resolvers.ts:1805-1861 | A create is refused exactly for a missing type, a taken singleton, the schema's verdict or the workflow, in this order. A real one answers the sequence's next id and adds under it one item with the requested domain, type and data, the requested status or else draft, version 1; every other item and the history are untouched. A dry one answers 0 and changes nothing. |
| ContentOutcomes.CreateBatchOutcome | src/graphql/resolvers.ts:1863-2074 | Whatever a real batch create reports as created is there with the requested columns at version 1, under ascending new ids, and no other item is new; an atomic one creates every row or leaves only a gap in the id sequence as long as the rows before the failing one. |
| ContentOutcomes.NewRowOutcome | src/graphql/resolvers.ts:1924-2073 | Each row of a batch create is reported with the code it is refused for, or adds one item as requested; an atomic batch ends at the first row refused. |
| ContentOutcomes.NewRowRefusal | src/graphql/resolvers.ts:1930-1961 | A batch row is refused exactly for a missing type, the schema's verdict, the workflow, or a singleton taken in the tables or claimed by an earlier row, in this order. |
| ContentOutcomes.DryCreateOutcome | src/graphql/resolvers.ts:1881-1922 | The dry run reports each row by the same checks without the workflow, with id 0 and version 1, and writes nothing. |
| ContentOutcomes.UpdateItemOutcome | src/graphql/resolvers.ts:2076-2168 | A single update is refused exactly for its reasons in their order; a success keeps or sets type, data and status column by column, empty data counting as none, raises the version by one, and archives the old head as it was; the dry run shows the same columns and changes nothing. |
| ContentOutcomes.RowRefusal | src/graphql/resolvers.ts:1090-1145 | The same for a row of a batch update, with the schema's verdict before the singleton, the claims of earlier rows, and without the workflow in atomic mode. |
| ContentOutcomes.RowOutcome | src/graphql/resolvers.ts:2211-2372 | A batch row taken archives the head and writes the columns asked for, empty data included in atomic mode only, and is reported with the new version; one refused is reported with its code or ends the atomic batch. |
| ContentOutcomes.DryRowOutcome | src/graphql/resolvers.ts:2187-2209 | A dry row is reported with the version it would get and writes nothing. |
| ContentOutcomes.UpdateGlobalOutcome | src/graphql/resolvers.ts:2375-2500 | With the singleton type of that slug: the answer is the schema's refusal exactly for the schema's verdict on the new data, then the workflow's; otherwise its one item gets that data, or a new item does, with the status given or else kept, or draft, and the history gains the old head. |
| ContentOutcomes.RollbackOutcome | src/graphql/resolvers.ts:3014-3066 | Rolling back to an earlier version is refused for the schema exactly if the schema of the head's type refuses the data of that version's timeline entry; otherwise the answer is the head's version plus one, and a real run writes that entry's data and status as the new head. Dry runs answer alike. |
| ContentOutcomes.DeleteItemOutcome | src/graphql/resolvers.ts:2626-2655 | A delete takes exactly the item and its history rows away. |
| ContentOutcomes.CreateTypeOutcome | src/graphql/resolvers.ts:1656-1704 | A new type is refused for an unknown kind, a fault of its schema sources, or a slug its domain uses, in this order; otherwise it is stored under the next id with the requested columns, as a collection if no kind is named. |
| ContentOutcomes.UpdateTypeOutcome | src/graphql/resolvers.ts:1706-1772 | A type update is refused for its reasons in their order, several items of a type to become a singleton included; otherwise each column is as asked for or as before. |
| ContentOutcomes.DeleteTypeOutcome | src/graphql/resolvers.ts:1774-1803 | A type is deleted exactly if the domain has it and no item is of it. |
| ContentStore.Store.CreateContentType | src/graphql/resolvers.ts:1656-1704 | Performs the prescribed create, with kind, schema source and slug errors in their order, and keeps the tables sound. |
| ContentStore.Store.UpdateContentType | src/graphql/resolvers.ts:1706-1772 | Performs the prescribed update, with kind and schema source errors, and refuses to make a type with several items a singleton. |
| ContentStore.Store.DeleteContentType | src/graphql/resolvers.ts:1774-1803 | Performs the prescribed delete; a type in use is refused. |
| ContentStore.Store.CreateContentItem | src/graphql/resolvers.ts:1805-1861 | Performs the prescribed create with all its error branches; what is refused and stored is spelled out in ContentOutcomes.CreateItemOutcome. |
| ContentStore.Store.ValidateNewItem | src/graphql/resolvers.ts:1930-1961 | The row checks of a batch create in their order, and the singleton claim on success. |
| ContentStore.Store.CreateItemsAtomic | src/graphql/resolvers.ts:1924-2008 | The transaction loop: at the first failing row the items are put back, the id sequence is not; the items written are those of ContentOutcomes.CreateBatchOutcome. |
| ContentStore.Store.CreateContentItemsBatch | src/graphql/resolvers.ts:1863-2074 | The loops of all three modes leave the prescribed tables and reports, spelled out in ContentOutcomes.CreateBatchOutcome and DryCreateOutcome; the aborted transaction restores the items. |
| ContentStore.Store.UpdateContentItem | src/graphql/resolvers.ts:2076-2168 | Performs the prescribed update: checks in order, head archived, new head written. |
| ContentStore.Store.ValidateUpdate | src/graphql/resolvers.ts:1051-1145 | The row checks in their order, and the singleton claim on success. |
| ContentStore.Store.UpdateItemsAtomic | src/graphql/resolvers.ts:2211-2324 | The transaction loop: at the first failing row item and history tables are put back. |
| ContentStore.Store.UpdateContentItemsBatch | src/graphql/resolvers.ts:2170-2373 | The three modes leave the prescribed tables and reports and keep the tables sound. |
| ContentStore.Store.UpdateGlobalItem | src/graphql/resolvers.ts:2375-2500 | Finds the global by slug and its item, checks, and creates or updates as prescribed. |
| ContentStore.Store.DeleteContentItem | src/graphql/resolvers.ts:2626-2655 | Removes the item of the domain with its history rows, or reports it missing. |
| ContentStore.Store.DeleteContentItemsBatch | src/graphql/resolvers.ts:2657-2760 | Row-by-row deletion with reports, or all-or-nothing in atomic mode. |
| ContentStore.Store.FindVersion | src/graphql/resolvers.ts:3006-3012 | Scans the history for the row of a version, which is found exactly if there is one. |
| ContentStore.Store.RollbackContentItem | src/graphql/resolvers.ts:2998-3092 | Looks the version up and restores it as prescribed; the verdict that decides and the row written are spelled out in ContentOutcomes.RollbackOutcome. |
| Idempotency.Plugin.PurgeExpired | src/middleware/idempotency.ts:59-66 | The loop leaves exactly the unexpired cache entries. |
| Idempotency.ReadKey | src/middleware/idempotency.ts:26-36 | There is a key exactly if the header's text is not blank; it is trimmed, not empty, and stands in that text with only white space around it. |
| Idempotency.TrackedExactly | src/middleware/idempotency.ts:68-83 | A request is tracked exactly if its method is POST, PUT or DELETE in any case and the header carries more than white space, and then under method, path without the query, and the trimmed text. |
| Idempotency.UntrackedWithoutHeader | src/middleware/idempotency.ts:26-36 | Without a header text no request is tracked. |
| Idempotency.Plugin.OnRequest | src/middleware/idempotency.ts:68-110 | Replays an unexpired entry, refuses a key in flight, or marks it in flight; the cache key is set in all three cases. |
| Idempotency.Plugin.OnSend | src/middleware/idempotency.ts:112-138 | Clears the mark and caches answers below 500, the duplicate's own 409 included, but not replays. |
| Idempotency.Plugin.OnError | src/middleware/idempotency.ts:140-145 | Clears the key's mark and nothing else. |
| Idempotency.Plugin.Fail | src/middleware/idempotency.ts:112-145 | An exception: the mark is cleared and the error reply is cached if it is below 500. |
| Idempotency.Plugin.Arrive | src/middleware/idempotency.ts:68-145 | The whole hook chain of an arriving request, as the protocol below takes it. |
| Idempotency.CacheKeyInjective | src/middleware/idempotency.ts:81-83 | Paths without a colon: equal cache keys mean equal method, path and key. |
| Idempotency.ColonsCollide | src/middleware/idempotency.ts:82 | A path contains a colon if and only if a request with a shorter path and some other admissible key shares its cache key. |
| Idempotency.ColonCollision | src/middleware/idempotency.ts:82 | Witness: requests to /a:b and /a share a cache key. |
| IdempotencyProtocol.HandlersNeverOverlap | src/middleware/idempotency.ts:85-100 | If every handler answers in less than the time to live, no two handlers of one key overlap in any interleaving. |
| IdempotencyProtocol.StepKeepsExclusive | src/middleware/idempotency.ts:112-145 | The invariant behind it: a running key is in flight, or cached until at least its start plus the time to live. |
| IdempotencyProtocol.BoundIsSharp | src/middleware/idempotency.ts:130-135 | With handlers that take exactly the time to live, two of one key can overlap. |
| IdempotencyProtocol.SettledAnswersAreReplayed | src/middleware/idempotency.ts:85-109 | Once a handler answers below 500 at time f, every request for its key looked up before f plus the time to live gets that exact status, payload and content type, and no handler of the key runs in between. |
| IdempotencyProtocol.RunKeepsFlightsOwned | src/middleware/idempotency.ts:112-145 | Keys in flight are always keys of running handlers, after errors, conflicts and overlaps too. |
| IdempotencyProtocol.NoKeyStaysBlocked | src/middleware/idempotency.ts:91-100 | As soon as no handler works on a key, a request for it is replayed from an unexpired entry or handled; no conflict is possible. |
| IdempotencyProtocol.EntryAfterStep | src/middleware/idempotency.ts:112-138 | After any event an answer is kept for a key if and only if the event gave it, or it was kept before, was not replaced and had not expired when looked at; only answers below 500 and the 409 of a duplicate are ever given. |
| IdempotencyProtocol.KeptAnswersWereGiven | src/middleware/idempotency.ts:120-135 | In every interleaving, whatever is kept for a key is below 500 and was given for that very key at some event, to be kept for exactly the time to live. |
| IdempotencyProtocol.ReplaysAreBelow500 | src/middleware/idempotency.ts:120-122 | No request is ever answered with a kept answer of 500 or above, or with an expired one. |
| IdempotencyProtocol.ServerErrorsAreRetried | src/middleware/idempotency.ts:118-122 | When the only handler of a key ends with 500 or above and nothing unexpired is kept for it, the next request for the key is handled, whatever happens to other keys in between. |
| IdempotencyProtocol.DuplicateIsRefused | src/middleware/idempotency.ts:91-97 | A request for a key in flight gets a 409, which is kept for the time to live and takes the key out of flight. |
| L402Token.MintedTokenVerifiesExactly | src/middleware/l402.ts:129-184 | A minted token verifies, for its own hash, exactly when upper-cased method, query-stripped path, domain and amount equal those it was minted for and it has not expired. |
| L402Token.ForeignTokenRejected | src/middleware/l402.ts:173-175 | A token minted under another secret never verifies. |
| L402Token.GenuineIsHanded | src/middleware/l402.ts:173-175 | Whatever someone without the secret makes of the tokens handed out, under other secrets or by appending caveats: if it is genuine, it extends a token that was handed out for the same payment. |
| L402Token.AttenuationOnlyRestricts | src/middleware/l402.ts:156-175 | Appending a caveat never turns a rejected token into an accepted one. |
| L402Token.AttenuationKeepsHash | src/middleware/l402.ts:177-180 | Appending a caveat does not change the payment an accepted token stands for. |
| L402Token.AcceptedExactly | src/middleware/l402.ts:148-184 | A token is accepted exactly if its signature is genuine and every caveat is one of the request's five facts or an expiry that has not passed; it then stands for its identifier. |
| L402Token.MintedCaveats | src/middleware/l402.ts:129-146 | A minted token carries the six caveats in order and the signature over them. |
| L402Token.RequestReadExactly | src/middleware/l402.ts:106-117 | What a token is bound to: the path up to the query, or /api, the upper-cased method, or GET, and the domain, or 1. |
| L402Token.ReachIsClosed | src/middleware/l402.ts:129-146 | Callers without the secret do reach the tokens handed out, everything under other secrets, and whatever appending caveats makes of them. |
| L402Token.NormalizePrice | src/middleware/l402.ts:119-121 | The least whole amount that is at least one satoshi and covers the price. |
| L402Token.AuthorizationRoundTrip | src/middleware/l402.ts:186-212 | The header printed from a trimmed macaroon and preimage without colons parses back to exactly these. |
| L402Token.ParsedCredentialsAreClean | src/middleware/l402.ts:186-212 | Whatever header parses yields a non-empty, trimmed macaroon and preimage without colons. |
| L402Token.ParsesExactly | src/middleware/l402.ts:186-212 | A header is read as macaroon and preimage if and only if it is the scheme followed by the two, separated by its only colon, with nothing but white space around either. |
| L402Token.QuotedRoundTrip | src/middleware/l402.ts:214-218 | Reading a quoted string (section 5.6.4 of RFC 9110) inverts the two escaping passes, for any text. |
| L402Token.ChallengeRoundTrip | src/middleware/l402.ts:214-218 | A standard reader recovers both values from the challenge header, whatever characters they contain. |
| L402Token.MacaroonPatternRecovers | src/graphql/resolvers.ts:1209 | The resolver's first pattern recovers a macaroon without quotes and backslashes. |
| L402Token.InvoicePatternRecoversExactly | src/graphql/resolvers.ts:1210 | The second pattern recovers the invoice if and only if the macaroon does not end with `invoice=`. |
| L402Token.InvoicePatternMisled | src/graphql/resolvers.ts:1210 | Witness: after a macaroon that ends with `invoice=` the pattern captures the separator. |
| L402Gate.Gate.TransitionPayment | src/services/payment-ledger.ts:46-85 | Moves a payment along the allowed transitions, ignores unknown hashes, and changes nothing on a forbidden one. |
| L402Gate.Gate.ConsumePayment | src/services/l402-config.ts:230-253 | Marks a payment consumed, by way of paid if it is still pending. |
| L402Gate.Gate.CreateChallenge | src/middleware/l402.ts:236-291 | Requests an invoice, stores its row as pending, and hands out the token minted for it. |
| L402Gate.Gate.EnforcePayment | src/middleware/l402.ts:293-409 | The gate's branches in order, with the ledger callbacks each of them makes. |
| L402Gate.Gate.JudgePayment | src/middleware/l402.ts:348-377 | The answer to a fitting token by the state of its payment. |
| L402Gate.Gate.FollowReport | src/middleware/l402.ts:379-402 | What the provider reports is observed in the ledger, verified, and decides. |
| L402Gate.Gate.Handle | src/middleware/l402.ts:474-492 | The finish rule: a 2xx answer consumes the payment the request passed with. |
| L402Gate.PassesExactly | src/middleware/l402.ts:316-403 | The protected handler runs exactly when there is no positive price, or a fitting token is presented whose payment is neither consumed, expired nor failed and the provider says paid; it then stands as paid. |
| L402Gate.PaymentMoves | src/services/payment-ledger.ts:9-36 | A payment stays or makes one of the four moves, pending to paid, expired or failed and paid to consumed, and any other is refused; marking consumed consumes exactly what is not expired or failed. |
| L402Gate.DecidedByCases | src/middleware/l402.ts:293-409 | Every decision by header, row and report: the verdict, the challenge's reason, token and header, and the whole ledger it leaves. |
| L402Gate.ServedByCases | src/middleware/l402.ts:474-492 | A free operation passes; of a priced one only a 2xx answer changes the ledger further, by consuming the payment passed with. |
| L402Gate.OnlyPresentedRowMoves | src/services/payment-ledger.ts:46-85 | One call moves no row but that of the payment presented, only from pending or paid and only as reported; new rows are those of new invoices, pending. |
| L402Gate.ReportIsKept | src/middleware/l402.ts:379-402 | After a report of expired or failed on a pending payment its row says so, and the call does not pass. |
| L402Gate.LostPaymentNeverPasses | src/middleware/l402.ts:365-367 | Over every run of later calls that row stays as it is and no call passes with the payment, whatever the provider then says. |
| L402Gate.CallersReach | src/middleware/l402.ts:318-342 | Calls without a header, with one that cannot be read, or with a token handed out are within everybody's reach. |
| L402Gate.ConsumedIsFinal | src/services/payment-ledger.ts:9-15 | A consumed payment stays consumed and is refused, and ledger rows never disappear. |
| L402Gate.EachPaymentBuysOneSuccess | src/middleware/l402.ts:481-492 | Over every sequential run from an empty ledger, whatever callers without the secret make of the tokens handed out, each payment hash yields at most one 2xx answer to a priced request. |
| L402Gate.HandedHaveRows | src/middleware/l402.ts:254-270 | Every token handed out in a run is genuine, and its payment has a ledger row for good. |
| L402Gate.ReachIsUnforged | src/middleware/l402.ts:332-342 | So no caller without the secret can present a genuine token for a payment without a row. |
| L402Gate.UnsuccessfulAnswerKeepsToken | src/middleware/l402.ts:484-488 | After an answer that is not 2xx the same request passes again. |
| L402Gate.MintedTokenIsFit | src/middleware/l402.ts:328-348 | A freshly minted token sent back in time for the same operation is accepted as presenting its payment hash. |
| L402Gate.LostRowsAreReplayable | src/services/payment-ledger.ts:51-54 | A redeemed payment is consumed exactly if it had a ledger row; without one it can be redeemed again. |
| L402Gate.LostRowRedeemedTwice | src/services/payment-ledger.ts:51-54 | Witness: on an empty ledger one fit token is redeemed twice. |
| L402Gate.PaidRetryPasses | src/middleware/l402.ts:236-291 | Whoever is challenged, pays, and presents the challenge's token for the same operation before it expires, passes. |
| L402Gate.ChallengeHeaderCarriesToken | src/middleware/l402.ts:272-277 | The challenge header hands out that very token and the invoice's payment request. |
| FilterJson.SerializationIsCanonical | src/mcp/reactive-events.ts:249-253 | Two filter records serialise to the same text (JSON escaping as in section 7 of RFC 8259) if and only if their defined fields are equal, whatever the order and the undefined entries. |
| FilterJson.DropUndefinedKeepsFields | src/mcp/reactive-events.ts:228-232 | Normalising filters keeps the value of every defined field and adds none. |
| ReactiveEvents.SamenessIsFieldEquality | src/mcp/reactive-events.ts:255-261 | Subscriptions are the same exactly if topics and defined filter fields are equal. |
| ReactiveEvents.SameSubscriptionsMatchAlike | src/mcp/reactive-events.ts:337-390 | Same subscriptions match the same events. |
| ReactiveEvents.MatchesExactly | src/mcp/reactive-events.ts:337-390 | A subscription matches an event if and only if its topic is the star or one the event goes out under, and every defined entry of its record agrees: for entity type, action, actor id, actor type, status and decision an empty text or that very property, for the four ids that very number. |
| ReactiveEvents.SubscribersExactly | src/mcp/reactive-events.ts:271-298 | Which scopes each supported topic needs. |
| ReactiveEvents.DeriveTopics | src/mcp/reactive-events.ts:300-335 | The topics collected are exactly the event's topics, without repetition and starting with audit.*. |
| ReactiveEvents.SelectCanonicalTopic | src/mcp/reactive-events.ts:392-409 | The notification's topic is the first by priority; failing that the first that is not a catch-all; failing that the first of all, or audit.*. |
| ReactiveEvents.IntegrationEventsNeedScope | src/mcp/reactive-events.ts:271-298 | Without admin, tenant:admin and audit:read, no topic that may be subscribed to belongs to an event on an integration entity. |
| McpSession.Session.Subscribe | src/mcp/http-session-manager.ts:102-158 | The loop leaves the prescribed list, appends exactly the entries reported as newly added, and reports the unsupported and blocked topics. |
| McpSession.Session.SubscribeTopic | src/mcp/http-session-manager.ts:119-142 | One topic: what is answered and whether an entry is appended. |
| McpSession.Session.PublishAuditEvent | src/mcp/http-session-manager.ts:83-100 | A notification goes out exactly if a listed subscription matches in the session's domain, and lists exactly those that do; what matching means is spelled out in ReactiveEvents.MatchesExactly. |
| McpSession.DeduplicationLosesNothing | src/mcp/http-session-manager.ts:138-141 | After any subscribe calls, an event is notified exactly when a request accepted since the last replacement matches it. |
| McpSession.NotifiedExactly | src/mcp/http-session-manager.ts:83-142 | After any subscribe calls, an event is notified if and only if it happened in the session's domain and some call that no later one replaces named a topic, supported and permitted, under which the event goes out, with filters that all agree. |
| McpSession.ListStaysTidy | src/mcp/http-session-manager.ts:119-142 | The list never holds two canonically equal entries, nor an unsupported or forbidden topic. |
| McpSession.RepeatedCallAddsNothing | src/mcp/http-session-manager.ts:111-142 | Repeating a call, with or without replacement, leaves the list as it is. |
| McpSession.IntegrationEventsStayPrivate | src/mcp/reactive-events.ts:288-295 | Whatever it requests, a session without the three scopes is never notified of an integration event. |
| McpSession.SessionManager.Unregister | src/mcp/http-session-manager.ts:189-193 | Removes a session only while it is the one registered under its id. |
| McpSession.SessionManager.Close | src/mcp/http-session-manager.ts:195-200 | Forgets every session and returns all of them for closing. |
| McpSession.SessionManager.OnAuditEvent | src/mcp/http-session-manager.ts:164-170 | Exactly the registered sessions with a matching subscription notify their clients. |
| AuditPages.ClampLimit | src/graphql/resolvers.ts:722-728 | A page size between 1 and 500, 50 if absent, the wanted one if allowed. |
| AuditPages.WalkIsCompleteExactly | src/graphql/resolvers.ts:1527-1574 | The walk by cursor ends, repeats nothing, keeps descending order and delivers matching rows only; it delivers all of them if and only if each page's cursor is before the first row of the next page. |
| AuditPages.WalkIsCompleteForWholeMs | src/graphql/resolvers.ts:1547-1573 | Where times are whole milliseconds the pages concatenate to the full filtered list, for every limit. |
| AuditPages.SubMillisecondRowsAreMissed | src/api/routes.ts:2143-2145 | Witness: the cursor's millisecond truncation makes the walk miss a row. |
| AuditPages.NewerRowsDoNotDisturb | src/graphql/resolvers.ts:1547-1573 | Newer rows appended while the walk goes on change none of its later pages. |
| JsonRpcClient.FramingIsFaithful | scripts/verification/verify-mcp-advanced.ts:41-47 | Lines and tail put together give the text back, and no line contains a newline. |
| JsonRpcClient.ChunkingDoesNotMatter | scripts/verification/verify-mcp-advanced.ts:40-71 | However the input is cut into chunks, the lines handled are those of the whole text in order and the buffer is its unterminated tail. |
| JsonRpcClient.RequestsSettleOnce | scripts/verification/verify-mcp-advanced.ts:52-61 | Whatever arrives, each request sent is either pending or settled exactly once, and nothing else is. |
| JsonRpcClient.FirstResponseSettles | scripts/verification/verify-mcp-advanced.ts:40-71 | Over any lines: a pending request is settled exactly by the first response with its id, rejected exactly if that carries an error, with that error or result; nothing else is settled, and the log gains exactly the notes of the log notifications in order. |
| JsonRpcClient.SentOutcome | scripts/verification/verify-mcp-advanced.ts:73-82 | A request takes the next number, which nothing waits under, and leaves the others as they are. |
| JsonRpcClient.BlankLinesPassedOver | scripts/verification/verify-mcp-advanced.ts:45-48 | Only lines of white space are passed over unread. |
| JsonRpcClient.Client.HandleData | scripts/verification/verify-mcp-advanced.ts:40-71 | The shifting loop handles the complete lines in order and keeps the rest. |
| JsonRpcClient.Client.Send | scripts/verification/verify-mcp-advanced.ts:73-82 | Registers the request under the next id and nothing else. |
| ApiKeys.ParseOfSerialize | src/services/api-key.ts:24-47 | Parsing serialised scopes gives back the set of trimmed, non-blank scopes. |
| ApiKeys.KeyLifecycle | src/services/api-key.ts:61-139 | Over every run of create, revoke, rotate and touch: a revocation stands for good and its hash never resolves again, and of each rotation chain only the newest key can be unrevoked, so no older key's hash resolves. |
| ApiKeys.RotationReplacesKey | src/services/api-key.ts:115-139 | A rotation swaps one live key for another of the same domain, scopes and expiry, keeps the number of live keys, and only the new plaintext's hash resolves; a failed one leaves the keys alone. |
| ApiKeys.CreateOutcome | src/services/api-key.ts:61-77 | A key is refused exactly for an unknown scope or a taken hash; otherwise it is stored with the requested domain, name, creator and expiry, the plaintext's first twelve characters and hash, and scopes that read back as those given, unrevoked and unused. |
| ApiKeys.StampOutcome | src/services/api-key.ts:100-113 | Revoking stamps exactly the domain's unrevoked key and touching any key there is; no other column and no other row changes. |
| ApiKeys.RotateOutcome | src/services/api-key.ts:115-139 | A rotation leaves the old row revoked at that time and otherwise as it was, and stores a new row with its domain, scopes, expiry, marked name, and the actor or else the old creator. |
| ApiKeys.RotationKeepsGrant | src/services/api-key.ts:115-139 | Over every run, each key has the domain, scopes and expiry of the first key of its rotation chain. |
| ApiKeys.ApiKeyStore.RotateApiKey | src/services/api-key.ts:115-139 | The transaction: revoke, insert the successor, and undo both if the insert fails. |
| ApiKeys.ApiKeyStore.GetApiKeyByHash | src/services/api-key.ts:95-98 | Finds the unrevoked key with the hash if there is one. |
| ApiKeys.ApiKeyStore.RevokeApiKey | src/services/api-key.ts:106-113 | Revokes an unrevoked key of the domain, and reports whether there was one. |
| ApiKeys.ApiKeyStore.CreateApiKey | src/services/api-key.ts:61-77 | Stores a new key under its hash with its serialised scopes, or reports invalid scopes. |
| RunMetrics.GetMetrics | src/services/agent-run-metrics.ts:143-254 | All counters, sample sums and derived figures equal their declarative totals over the rows. |
| RunMetrics.CountRuns | src/services/agent-run-metrics.ts:143-179 | The first loop's counters and samples equal the totals. |
| RunMetrics.CountCheckpoints | src/services/agent-run-metrics.ts:181-225 | The second loop's amounts equal the totals. |
| RunMetrics.CounterIsCardinality | src/services/agent-run-metrics.ts:143-179 | Each counter is the number of runs of its kind: of a status, or with a time in the window. |
| RunMetrics.DelaysAreAdded | src/services/agent-run-metrics.ts:158-171 | Each run started or completed in the window adds the time since its creation to its sum, and nothing if that is negative. |
| RunMetrics.AmountsAdded | src/services/agent-run-metrics.ts:181-225 | What one more checkpoint adds to each amount, by its key and the numbers in its payload. |
| RunMetrics.WindowHours | src/services/agent-run-metrics.ts:24-30 | 24 hours if none are given, otherwise whole hours rounded down, at least 1 and at most 720. |
| RunMetrics.TotalsAddUp | src/services/agent-run-metrics.ts:143-179 | Every run tally adds up over any split of the runs. |
| RunMetrics.AmountsAddUp | src/services/agent-run-metrics.ts:181-225 | Every checkpoint tally adds up over any split of the checkpoints. |
| RunMetrics.OrderDoesNotMatter | src/services/agent-run-metrics.ts:90-98 | Run tallies do not depend on the order in which the database returns the runs. |
| RunMetrics.CheckpointOrderDoesNotMatter | src/services/agent-run-metrics.ts:106-112 | Nor do checkpoint tallies depend on the order in which it returns the checkpoints. |
| RunMetrics.OutcomesAreCompleted | src/services/agent-run-metrics.ts:165-178 | Succeeded, failed and cancelled runs together are at most the completed ones. |
| RunMetrics.WiderWindowCountsMore | src/services/agent-run-metrics.ts:83 | Widening the window never lowers a run tally. |
| RunMetrics.CompletionRateIsNear | src/services/agent-run-metrics.ts:242-244 | The completion rate is absent exactly without outcomes, else in [0,1] and within half a unit of the fourth decimal of the exact ratio. |
| RunMetrics.AverageIsNear | src/services/agent-run-metrics.ts:14-22 | An average is the mean of its samples, rounded half up. |
| AssetKeys.SanitizedNamesAreClean | src/services/asset-storage.ts:60-64 | A sanitised name is non-empty, of allowed characters, without a separator and without a hyphen at either end; a clean name is left as it is. |
| AssetKeys.SanitizedExactly | src/services/asset-storage.ts:60-64 | Of a file name the directories go, then the white space around it, then, once unsafe runs are hyphens, the hyphens at its ends; what is left is the name, or asset.bin if nothing is. |
| AssetKeys.RunBecomesHyphen | src/services/asset-storage.ts:62 | Each unsafe run, however long, becomes one hyphen, and safe text stays. |
| AssetKeys.SafeChars | src/services/asset-storage.ts:62 | The safe characters are the ASCII letters and digits, dot, underscore and hyphen. |
| AssetKeys.SegmentRoundTrip | src/services/asset-storage.ts:89-93 | Percent decoding inverts the segment encoding, and an encoded segment has no slash. |
| AssetKeys.UnreservedAreKept | src/services/asset-storage.ts:89-93 | Exactly the unreserved characters (section 2.3 of RFC 3986) are not percent-encoded. |
| AssetKeys.EncodedKeysAgreeExactly | src/services/asset-storage.ts:95-101 | Two storage keys encode alike if and only if their non-empty segments are equal. |
| AssetKeys.StorageKeysAreDistinct | src/services/asset-storage.ts:286-289 | Two keys made by the storage share a URL path only if they are equal. |
| AssetPaths.ConfinementIsExact | src/services/asset-storage.ts:66-75 | A storage key is accepted exactly when the path it leads to is the root or below it, directory by directory; a root that is the top directory accepts nothing below it. |
| AssetPaths.ResolvedByPieces | src/services/asset-storage.ts:67-68 | One more piece behind a slash leads to the same place, to the directory above, or to that name below. |
| AssetPaths.PrintedByNames | src/services/asset-storage.ts:70 | A resolved path is printed with a slash before each name, and the top directory as a slash. |
| AssetPaths.TopDirectoryRefusesKeys | src/services/asset-storage.ts:70 | Witness: with the top directory as root, the key `a` is refused. |
| AssetPaths.StoredKeysStayInside | src/services/asset-storage.ts:240-245 | Every key the local storage makes is accepted and leads to a file two levels below the root. |

## Left out

Content store:
- Concurrency of several resolvers and database faults: each resolver is one step, and a transaction is snapshot and restore.
- Payloads given as objects: data is text here. The atomic batch update passes an object on without turning it into text, which no other mode does.
- Null arguments, id parsing, names, descriptions, the compilation of schemas and manifests (its outcome is a parameter), actors, scopes, policy, audit records and embeddings.
- JSON schema validation and asset references are an arbitrary verdict on the document, the data and the types of the referenced items; workflow look-up is an arbitrary predicate.
- Foreign keys of other tables on content types, and the writers outside the GraphQL mutations (REST and MCP routes, workflow transitions, jobs, forms).
- Which item a global is shown with when a singleton type has several: with one item at most the order of the query does not matter.
- How far the dry run of a batch create foretells the other modes: it skips the workflow check (`ContentOutcomes.DryCreateOutcome` says what it reports).
- ContentDryRun.StaleReferencesDecideSoundness: exact without singleton conflicts; with them only the sufficient half is stated (`ContentDryRun.DryRunSoundness`), since verdicts cannot tell rows with equal documents apart.
- ContentVerdicts.StatusSafeExactly: exact where no row sends the item to a singleton type that another item occupies.

Idempotency:
- HTTP and its header parsing beyond the key; the hook chain of one reply is one step, and each hook's clock readings are in order.
- The 409 of a duplicate is cached like any other answer; the model keeps this, and exclusion is proved in spite of it.

L402:
- Cryptography: a signature is a term, and callers come by those of tokens handed out, those under other secrets, and what appending caveats makes of either.
- Caveat numbers are decimal integers, upper-casing is that of ASCII letters, and a domain is an integer.
- L402Token.InvoicePatternRecoversExactly: about header texts; the serialised form of a macaroon, which decides whether the failing text can occur, is not modelled.
- Entitlements, offers, revenue allocation, metrics, and the price calculation; provider answers are parameters.
- L402Gate.EachPaymentBuysOneSuccess: sequential requests only, because the code itself checks and consumes in two steps.

Events and clients:
- MCP transport, notification formatting, the sorted topic list of the reply, and the recipes.
- ReactiveEvents.DeriveTopics: event details are taken as parsed, with integers for numbers.
- Text is a sequence of UTF-16 units without lone surrogates; a chunk boundary inside a multi-byte character is not modelled.
- Base64 and JSON decoding of audit cursors.

API keys, metrics, assets:
- JWT and bcrypt, expiry checks at authentication, and randomness: a plaintext is a parameter, and its hash an arbitrary function.
- RunMetrics.CompletionRateIsNear: over real numbers; floating point is not modelled.
- The database queries that select the runs and checkpoints of a domain, window and run type.
- File and network input and output, S3 request signing, direct uploads, and the path separator of Windows.
- AssetKeys.EncodedKeysAgreeExactly: about the encoded path before a URL object drops segments that are `.` or `..`; the keys the storage makes have none.
- AssetPaths.ConfinementIsExact: for absolute roots; a relative one is taken from the working directory first.
