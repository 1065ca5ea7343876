# Verification of the ProxyDeck gateway

ProxyDeck keeps its truth in SQLite and a fast copy with live counters in Redis, and several loops
change both at once. This project models that shared state and proves what it keeps. In the ledger, the
limiter, and the checks and toggles of `overlaps.dfy`, each Redis command, each transaction and each SQL
statement is one atomic step; imports, deletions and picks are steps as a whole. There is one flusher:
its loop is started once, at `backend/cmd/gateway/main.go:79`.

| files | what they model |
|---|---|
| `ledger.dfy`, `ledger_conservation.dfy`, `ledger_totals.dfy`, `quota.dfy` | the traffic ledger as a state machine: records, one flusher, load-then-save windows of node rows, creations, deletions and clean-ups, interleaved freely; conservation, totals, admission |
| `ledger_runs.dfy` | particular runs of it: flushes nothing interrupts, and the shortest runs that lose traffic or count it twice |
| `stats_service.dfy`, `quota_service.dfy` | the same as imperative classes over string keys, with other requests between any two commands |
| `node_cache.dfy`, `store.dfy` | cached rows, inverted index, sticky sessions, and the store that changes them |
| `catalog.dfy`, `catalog_invariants.dfy`, `subscription_graph.dfy` | nodes, links and subscriptions in SQL with their unique keys, what the services do to both halves, and what that keeps |
| `tables.dfy`, `subscription_service.dfy`, `node_services.dfy` | the tables statement by statement and the loops of the services, proved equal to the specification |
| `selector.dfy`, `selector_service.dfy` | sticky keys, the set-intersection fast path, the SQL query, the pick |
| `system_runs.dfy` | runs of whole operations in any order: the invariant, sticky stability, health |
| `overlaps.dfy` | the same runs with checks and toggles command by command, overlapping with each other and with everything else |
| `limiter.dfy`, `gateway.dfy` | the concurrency limiter command by command, and the exit paths of the two handlers |
| `base64.dfy`, `credentials.dfy`, `username.dfy`, `proxy_users.dfy`, `redis_keys.dfy`, `text.dfy` | parsers, printers and key formats, and which users a request can name |
| `retry.dfy` | the retry loop |

Code that changes state step by step is a class or a loop here, proved against a specification on
values; the theorems are about the specification.

Traffic records and sessions carry a `Uid`, a text without colon, because that is all a request can name:
its credentials are cut at their first colon (`ProxyUsers.ClaimedForm`). Rows of users may be called
anything.

## What the code does not do

Where the code falls short of what one would expect of it, the exact statement that holds is proved,
with the run that breaks the other one:

- Requests recorded between the two reads of a user's flush are lost (`RequestsConserved`,
  `RequestIsLost`); flushes abandoned between SQL and DecrBy count twice (`UsageNeverBelowRecorded`,
  `FlushCountsTwice`), and so the totals of the dashboard part (`FourTotalsAgree`, `AbandonBreaksTotals`).
- A client that hangs up during the copy of a plain response is not charged for it (`RelayedAccounted`,
  `HangUpLosesTraffic`).
- A user called `node` is never flushed to SQL (`SkippedSender`, `SkippedNeverStored`). A user called
  `node:<id>` can be created, but never log in (`SendableExactly`); deleting it deletes what is pending for
  that node (`NamesakeClearsNode`). Nor can users log in whose uid holds two underscores in a row.
- A check, a failure or a toggle saves the whole row it loaded and overwrites what was flushed in
  between (`NodeConserved`, `SaveBreaksTotals`), also what an import or another toggle wrote: disabling a
  node while it is checked has no effect (`CheckOverwrites`, `DisablingIsLost`). Such a save brings back a
  row that was deleted meanwhile (`SaveBringsBack`).
- Saving a row and caching it are separate. When two of them cross, the cache keeps the older row
  (`ExecAgreesExactly`) and the fast path yields a node that is disabled (`CrossedDisagrees`).
- A flush between the two reads of authentication hides pending bytes (`SplitAdmitsExactly`,
  `FlushHidesBytes`); deleting a user during a flush leaves negative counters behind
  (`ClearHarmlessExactly`, `CleanupDuringFlush`), from which the next user of that name starts
  (`SuccessorStartsBelowZero`).
- `Release` reads before it deletes, and another request in between breaks any limit
  (`SplitReleaseBreaks`) and leaves the counter below zero with nobody inside (`RestsBelowZero`); a
  release or an undo lost to a cancelled context takes a slot for good (`LeaksShutOut`).
- Cached rows expire, their set memberships do not: the fast path can then yield a node of another
  region (`FastPathSoundExactly`, `UnsoundWasLeft`, `StaleRegionYielded`).
- The unique index on host and port makes the same endpoint under another protocol an import error
  (`PersistFailsExactly`), which ends the whole import.
- Deleting a node ignores the error of deleting its links (`DanglingExactly`); a failed check that
  cannot be saved is cached all the same (`CheckedAgrees`).
- Cleaning up after a uid with a star or a question mark takes sessions of others
  (`SparesOthersExactly`); a bar in a filter value lets different filters share sessions
  (`OwnTextExactly`).

## Model

| member | source | states |
|---|---|---|
| Ledger.RecordEffect | backend/internal/stats/service.go:35-50 | One traffic record raises the counter of an owner by its amount once as the user and once as the node, and no other counter. |
| Ledger.RecordCounters | backend/internal/stats/service.go:35-50 | By the fields of a record: its user, and its node if it has an id, gain its upload, its download and its requests, one at least; nobody else gains anything, and nothing but counters changes. |
| Ledger.AdvanceEffect | backend/internal/stats/service.go:61-86 | Of all commands of a flush iteration only the DecrBy pipeline changes counters: of the flushed owner, by exactly what was read. |
| Ledger.PendingEffect | backend/internal/stats/service.go:35-88 | The only steps that touch the counters of an owner are a record, a DecrBy pipeline and a clean-up. |
| LedgerConservation.ClearHarmlessExactly | backend/internal/quota/service.go:82-95 | Deleting the counters of an owner keeps them non-negative and covering what the flusher read if and only if the flusher has read nothing of this owner but zeros. |
| LedgerConservation.PendingNonNegative | backend/internal/stats/service.go:52-88 | Over every run, with flushes abandoned anywhere: the counters are non-negative and cover what the flusher has read in all its states if and only if every clean-up in it is such a harmless one. |
| LedgerConservation.BytesConserved | backend/internal/stats/service.go:35-88 | For every uid a request can carry and every run of records, flushes, saves, creations, deletions and clean-ups: used_bytes plus pending, plus what clean-ups deleted and what went with a row, is what was there plus everything recorded plus exactly what flushes hold in both places. |
| LedgerConservation.UsageNeverBelowRecorded | backend/internal/stats/service.go:35-89 | While clean-ups are harmless, used plus pending plus deleted is never below the recorded bytes, and equal to them if and only if no flush is, or was abandoned, between its SQL add and its DecrBy while holding bytes of this user. |
| LedgerConservation.SkippedNeverStored | backend/internal/stats/service.go:57-60 | The row of a user the user half skips never changes in any run: all traffic of such a user stays pending. |
| LedgerConservation.RequestsConserved | backend/internal/stats/service.go:68-82 | In every run, SQL requests plus pending plus lost plus deleted equal recorded requests (plus what flushes hold twice); lost is exactly how far the counter moved between the two reads of completed flushes. |
| LedgerConservation.WindowsAgreeInRuns | backend/internal/healthcheck/service.go:115-162 | For every check or admin handler that loaded a row and has not saved it yet, in every run: the row of the table is the loaded one plus what was flushed, deleted and overwritten since. |
| LedgerConservation.NodeConserved | backend/internal/stats/service.go:233-265 | In every run all three node counters are conserved, except what whole-row saves overwrote (exactly the drift inside their load-then-save window), what clean-ups under the name of the node deleted, and what went with the row. |
| LedgerTotals.TotalsInRuns | backend/internal/stats/service.go:45-47 | Region scores and hour counters grow by exactly the bytes of their records, whatever is flushed, abandoned, saved or deleted. |
| LedgerTotals.RegionsInRuns | backend/internal/redisstore/store.go:67-72 | By the regions of the records, in every run: a named region scores exactly the bytes of its records, __unknown__ those of records with no region or that one, and the empty text is no member. |
| LedgerTotals.FourTotals | backend/internal/stats/service.go:35-50 | In every run from an unused ledger the totals over regions and over hours are all recorded bytes, and those over users and over nodes are too but for exactly what flushes hold twice, what saves overwrote and what was deleted. |
| LedgerTotals.FourTotalsAgree | backend/internal/stats/service.go:35-50 | The four totals agree if and only if these amounts add up to nothing, for the users and for the nodes. |
| LedgerTotals.UserTotalExactly | backend/internal/stats/service.go:61-82 | As long as no listed user is deleted, the total over users is never below the recorded bytes, and equal to them if and only if no flush holds, or was abandoned holding, bytes of any of them in both places. |
| LedgerTotals.AbandonBreaksTotals | backend/internal/stats/service.go:66-81 | After a flush that failed behind its SQL update the users add up to twice the recorded bytes, the nodes to the recorded ones. |
| LedgerTotals.SaveBreaksTotals | backend/internal/healthcheck/service.go:115-161 | After a node flush between the load and the save of a row the users add up to the recorded bytes, the nodes to zero. |
| LedgerTotals.TodayIsDay | backend/internal/stats/service.go:272-281 | Adding up the hour counters from the current hour back to midnight yields the bytes recorded in the current UTC day. |
| StatsService.Service.RecordTraffic | backend/internal/stats/service.go:35-50 | The string-keyed transaction is the Record step of the ledger. |
| StatsService.Service.FlushUser | backend/internal/stats/service.go:61-82 | One iteration with other requests between any two commands: it leaves other users alone, only abandons on failure, and on success the bytes pending when it began are in SQL. |
| StatsService.Service.FlushUsers | backend/internal/stats/service.go:53-83 | The loop over scanned keys: on success, for every user it does not skip, what was pending when it began is in SQL; counters of skipped owners only grow. |
| StatsService.Service.FlushNode | backend/internal/stats/service.go:239-262 | One node iteration: bytes and requests pending when it began are in SQL on success; other nodes and all users are untouched. |
| StatsService.Service.FlushNodeUsage | backend/internal/stats/service.go:233-265 | The node loop covers every node with a pending upload key, also when several keys parse to one node. |
| StatsService.Service.FlushUsage | backend/internal/stats/service.go:52-88 | On success everything that was pending at the call, of users and of nodes, is in SQL; the trace is a run of the ledger in which a flush is abandoned only on failure. |
| StatsService.Service.TodayTraffic | backend/internal/stats/service.go:272-281 | The loop returns the bytes of all records of the current day in the trace. |
| Quota.QuotaEnforced | backend/internal/quota/service.go:31-51 | With both halves read from one state, even mid-flush, no user whose recorded bytes, less the deleted ones, reach a positive quota is admitted, in any run whose clean-ups are harmless. |
| Quota.AuthenticateExactly | backend/internal/quota/service.go:31-51 | Each refusal, and admission, by an if and only if on the row, the clock, the password and the usage, in the order of the checks. |
| ProxyUsers.RequestsEnforced | backend/internal/proxy/gateway.go:101-112 | The same from the header on: whatever a request sends, the user it names gets in only below the quota; no assumption on names is left. |
| Quota.PendingInRuns | backend/internal/redisstore/store.go:184-188 | In every run a pending counter is what it was plus what was recorded minus what flushes drained and clean-ups deleted. |
| Quota.SplitReadsSee | backend/internal/quota/service.go:33-47 | With the row and the two counters read at different times, the sum seen is the usage at the first read less exactly what left each counter until it was read. |
| Quota.SplitAdmitsExactly | backend/internal/quota/service.go:31-51 | Split reads admit a user if and only if row and password allow it and, under a positive quota, more left the counters between the reads than the usage exceeds the quota by. |
| Quota.SplitQuotaEnforced | backend/internal/quota/service.go:31-51 | Split reads enforce the quota over all runs before them as long as no more leaves the counters between them than comes in. |
| LedgerRuns.UninterruptedFlush | backend/internal/stats/service.go:61-82 | A flush iteration nothing interrupts moves all pending bytes and requests of the user into SQL and leaves nothing pending. |
| LedgerRuns.UninterruptedNodeFlush | backend/internal/stats/service.go:243-262 | The same for a node. |
| LedgerRuns.NoBytesNoFlush | backend/internal/stats/service.go:62-67 | A user without pending bytes, or a skipped one, is not flushed at all: pending requests wait for bytes. |
| LedgerRuns.NothingNoNodeFlush | backend/internal/stats/service.go:243-248 | A node is left alone only when none of its three counters has anything pending. |
| Quota.FlushHidesBytes | backend/internal/quota/service.go:31-51 | A flush between the two reads hides every pending byte: a user over quota is admitted whenever the SQL column alone is below it. |
| LedgerRuns.CleanupDuringFlush | backend/internal/quota/service.go:82-95 | Deleting the counters of a user at any command of the running flush of this user leaves each of them negative by exactly what the rest of the iteration drains: bytes as they were read, requests only after their second read. |
| LedgerRuns.SuccessorStartsBelowZero | backend/internal/adminapi/server.go:266-281 | A whole run from an idle ledger: a user is deleted right before the DecrBy and created again, and starts with a usage below zero by all bytes of the predecessor. |
| LedgerRuns.RequestIsLost | backend/internal/stats/service.go:68-79 | A run in which two requests are recorded, one between the two reads of a flush: afterwards nothing is pending and SQL holds one. |
| LedgerRuns.FlushCountsTwice | backend/internal/stats/service.go:66-81 | A run in which a flush is abandoned behind its SQL update: the user is charged twice the recorded bytes. |
| LedgerRuns.NamesakeClearsNode | backend/internal/adminapi/server.go:266-281 | Deleting a user called node:<id>, whom an admin may create, deletes what is pending for that node. |
| QuotaService.Service.AuthenticateUser | backend/internal/quota/service.go:31-51 | On counters that mirror a ledger, the early returns decide exactly as the admission the quota theorems are about. |
| QuotaService.Service.Acquire | backend/internal/quota/service.go:53-63 | INCR and the rejecting DECR, with any commands of other requests in between, are the Arrive and Undo commands of the limiter; no other key changes. |
| QuotaService.Service.Release | backend/internal/quota/service.go:65-72 | GET and then DEL or DECR, with any commands of other requests in between, are the Read and Finish commands of the limiter; no other key changes. |
| QuotaService.Service.CleanupUserRuntime | backend/internal/quota/service.go:82-95 | Exactly the connection counter and the three usage counters of the user are gone, and exactly the sessions the pattern matches. |
| QuotaService.CleanupClearsUser | backend/internal/quota/service.go:82-95 | On usage counters that mirror a ledger the clean-up of a user is the clean-up step of the ledger. |
| StatsService.RemovalClearsNode | backend/internal/redisstore/store.go:170-174 | So is what removing a node from the store does to the counters of the node. |
| QuotaService.RuntimeKeysApart | backend/internal/quota/service.go:83-88 | The number keys of two users are disjoint. |
| RedisKeys.UsageKeyInjective | backend/internal/redisstore/store.go:39-49 | A usage key determines the uid and the direction, for any uid. |
| RedisKeys.UserNodeCollision | backend/internal/redisstore/store.go:39-57 | A user counter and a node counter share a key if and only if the uid spells that node. |
| RedisKeys.ConnKeyInjective | backend/internal/redisstore/store.go:43-45 | Connection keys of different users differ. |
| RedisKeys.UploadKeySlicing | backend/internal/stats/service.go:57-61 | A key matches the scan if and only if it is an upload key, and slicing the uid out of it undoes the key builder. |
| RedisKeys.UploadGlobIs | backend/internal/stats/service.go:53 | The pattern of the scan, under the glob rules of KEYS, matches exactly the keys that have its prefix and suffix. |
| RedisKeys.NodeUploadGlobIs | backend/internal/stats/service.go:234 | So does the pattern of the node scan. |
| RedisKeys.SkippedUids | backend/internal/stats/service.go:57-60 | The user half skips exactly the uids that start with "node:" and the plain uid "node". |
| RedisKeys.SkippedSender | backend/internal/stats/service.go:57-60 | Of the uids requests can carry, exactly "node" is skipped. |
| RedisKeys.ScanNodeIdInverts | backend/internal/stats/service.go:234-242 | Scanning the id out of a node key undoes the key builder. |
| RedisKeys.ScansExactly | backend/internal/stats/service.go:238-242 | What scans is exactly a number between the two literal parts with anything behind, and it scans as that number. |
| RedisKeys.StickyKeyInjective | backend/internal/redisstore/store.go:35-37 | A sticky key determines uid, hash and session id, for uids requests can carry and hashes without colon. |
| RedisKeys.SessionsOfOneUser | backend/internal/quota/service.go:89 | The clean-up pattern of a uid without pattern characters matches the sessions of this user, and of others exactly those whose key the uid spells out with its colons. |
| RedisKeys.SparesOthersExactly | backend/internal/quota/service.go:89 | For colon-free uids without bracket and backslash, the clean-up spares everybody else if and only if the uid holds no star and no question mark. |
| NodeCache.CachedCoherent | backend/internal/redisstore/store.go:94-130 | Caching any row keeps "in a set if and only if the cached row has that key" true, whatever row was cached before. |
| NodeCache.CachedPlaces | backend/internal/redisstore/store.go:94-130 | By the fields of the row: after caching it the node is in the set of a region if and only if that is the detected region, or none was detected and it is the expected one; in those of city, number and provider if and only if the field says so; other nodes are where they were. |
| NodeCache.RemovedPlaces | backend/internal/redisstore/store.go:152-182 | After a removal that is given the cached row the node is in no set and no session, and other nodes are where they were. |
| NodeCache.CachedFindable | backend/internal/redisstore/store.go:94-130 | Caching keeps every cached row in all its sets, expired rows or not. |
| NodeCache.RemovedCoherent | backend/internal/redisstore/store.go:152-182 | RemoveNode keeps the index coherent if and only if the row it is given has every index key of the cached one. |
| NodeCache.ExpiryLeavesStaleEntries | backend/internal/redisstore/store.go:94-130 | After the cached row expired, caching a new one leaves the index coherent if and only if the new row has all index keys of the old one; the old memberships stay. |
| NodeStore.Store.NodeIndexKeys | backend/internal/redisstore/store.go:212-231 | The appended keys are one for each attribute that is not empty, the detected region before the expected one. |
| NodeStore.Store.ReplaceSetMembership | backend/internal/redisstore/store.go:201-210 | Bare family prefixes are left alone; any other key gains or loses the member. |
| NodeStore.Store.CacheNode | backend/internal/redisstore/store.go:94-135 | The pipeline and the sticky clean-up, command by command, yield the specified cache: row, memberships of the old row replaced, sessions of an unavailable row gone. |
| NodeStore.Store.RemoveNode | backend/internal/redisstore/store.go:152-182 | Row, memberships of the given row, the three usage counters and the sessions are gone; nothing else changes. |
| NodeStore.Store.CleanupStickyForNode | backend/internal/redisstore/store.go:233-255 | The scan-and-delete loop removes exactly the sessions pinned to the node. |
| Catalog.SupportedHasNoColon | backend/internal/subscription/service.go:191-198 | A supported protocol, in any case and with surrounding white space, holds no colon. |
| Catalog.SupportedExactly | backend/internal/subscription/service.go:191-198 | Supported is exactly one of eight names in any case with nothing but white space around it. |
| Catalog.NodeKeyInjective | backend/internal/subscription/service.go:1035 | The printed node key determines protocol, host (colons allowed) and port. |
| CatalogInvariants.UpsertRejects | backend/internal/subscription/service.go:1057-1062 | The upsert is rejected if and only if a row holds the same host and port under another protocol; the node_key index never rejects by itself. |
| CatalogInvariants.UpsertEffect | backend/internal/subscription/service.go:1034-1062 | An upsert keeps all unique keys, writes the entry into one row only, and keeps health, disabled flag, fail count, profile and traffic of an existing one, and its subscription when the import has none. |
| CatalogInvariants.ImportOneSound | backend/internal/subscription/service.go:1031-1072 | Importing one entry keeps the whole invariant, adds at most one row and one link, and leaves the other rows and links as they are. |
| CatalogInvariants.DropNodeSound | backend/internal/subscription/service.go:1281-1287 | Deleting an unlinked node with its SQL row keeps the invariant: the index fields of that row are those of the cached one. |
| CatalogInvariants.SaveRowSound | backend/internal/healthcheck/service.go:155-161 | Saving a row that keeps its address and caching it keeps the invariant. |
| CatalogInvariants.AddTrafficSound | backend/internal/stats/service.go:249-255 | Traffic added in SQL only keeps the invariant: the cached row then differs in its traffic. |
| SubscriptionGraph.PersistEffect | backend/internal/subscription/service.go:1029-1076 | An import keeps the invariant however it ends, deletes no row or link, changes no health; run to its end it has one linked row for each entry, holding what the last entry for its address says. |
| SubscriptionGraph.PersistFailsExactly | backend/internal/subscription/service.go:1029-1076 | Without SQL faults an import fails if and only if an entry has the host and port of a stored row, or of an earlier entry, under another protocol. |
| SubscriptionGraph.PruneSound | backend/internal/subscription/service.go:1261-1292 | Pruning keeps the invariant and every row that is still linked, wherever it stops. |
| SubscriptionGraph.PruneEffect | backend/internal/subscription/service.go:1261-1292 | Completed, it deletes exactly the links of the subscription whose node is not to be kept, and exactly the nodes these dropped that no link is left for. |
| SubscriptionGraph.SyncSound | backend/internal/subscription/service.go:100-143 | A sync keeps the invariant and what rows carried on every early return: no link to a missing node, one link at most for subscription and node. |
| SubscriptionGraph.FailedImportPrunesNothing | backend/internal/subscription/service.go:121-127 | A sync that stops while persisting deletes no row and no link. |
| SubscriptionGraph.SyncExactly | backend/internal/subscription/service.go:100-143 | After a successful sync the links of the subscription are exactly the nodes of the parsed addresses, links of others unchanged; deleted are exactly the nodes it dropped that no other subscription links; survivors keep health, disabled flag, fail count and traffic, and imported rows hold what the last entry for them says. |
| SubscriptionGraph.SyncSucceedsExactly | backend/internal/subscription/service.go:100-143 | With no SQL fault, which is a number of statements given by the entries and the links after the import, a sync succeeds if and only if the subscription is there, something was fetched and no entry conflicts. |
| SubscriptionGraph.RefusedSyncChangesNothing | backend/internal/subscription/service.go:105-120 | A sync of an unknown subscription, or of one that could not be fetched or parsed, changes nothing. |
| SubscriptionGraph.PruneCompletes | backend/internal/subscription/service.go:1261-1292 | With no SQL fault pruning gets to its end, in at most three statements for each link. |
| SubscriptionGraph.SyncedAreCached | backend/internal/subscription/service.go:1063-1072 | After a successful sync every imported row is cached as it is in the table. |
| SubscriptionGraph.DeleteExactly | backend/internal/subscription/service.go:1234-1259 | Deleting a subscription keeps the invariant and every node another one links wherever it stops; completed, no link of it is left and exactly its unshared nodes are gone. |
| SubscriptionGraph.DeleteCompletes | backend/internal/subscription/service.go:1234-1259 | With no SQL fault a deletion completes, in three statements and at most two for each node the subscription links. |
| SubscriptionGraph.RefusedDeletionChangesNothing | backend/internal/subscription/service.go:1234-1244 | A deletion whose first or second statement fails changes nothing. |
| SubscriptionGraph.DeleteNodeSound | backend/internal/adminapi/server.go:546-560 | Admin deletion of a node keeps the invariant unless the links could not be deleted and the node was. |
| SubscriptionGraph.DeleteNodeExactly | backend/internal/adminapi/server.go:546-560 | Deleting a node, by which of its two statements work: its links go with the first; its row, its cached row, its sets and its sessions with the second; nothing else changes. |
| SubscriptionGraph.DanglingExactly | backend/internal/adminapi/server.go:552-556 | Links without a node are left if and only if deleting them failed, the node was deleted, and it was linked. |
| SubscriptionService.Service.PersistParsedNodes | backend/internal/subscription/service.go:1029-1076 | The loop over entries does, statement by statement, what the import theorems are about, early return included. |
| SubscriptionService.Service.PruneSubscriptionNodes | backend/internal/subscription/service.go:1261-1292 | The loop over the links that were read does what the pruning theorems are about, for every point of failure. |
| SubscriptionService.Service.SyncNodes | backend/internal/subscription/service.go:100-143 | Result and state are those of the specified sync; the invariant holds. |
| SubscriptionService.Service.DeleteSubscription | backend/internal/subscription/service.go:1234-1259 | Result and state are those of the specified deletion; the invariant holds. |
| SubscriptionService.Service.ImportManualNodes | backend/internal/subscription/service.go:145-189 | An invalid entry anywhere stores nothing; otherwise state and result are those of the import of all entries. |
| SubscriptionService.Service.ParseInputs | backend/internal/subscription/service.go:147-180 | The validation loop returns all entries, or none. |
| SubscriptionService.ManualNodesAre | backend/internal/subscription/service.go:147-180 | Entries go on if and only if every one is valid, each at its place. |
| SubscriptionService.EntryFields | backend/internal/subscription/service.go:147-180 | By the fields of an input: when it is valid, and each field that is stored of it. |
| SubscriptionService.ManualNodesAccepted | backend/internal/subscription/service.go:148-154 | Protocols of accepted entries hold no colon. |
| SqlTables.Tables.InsertNode | backend/internal/subscription/service.go:1057-1062 | The insert with its conflict target and the other two unique indexes is the specified upsert, or fails and changes nothing. |
| Selector.HashInputInjective | backend/internal/selector/service.go:111-114 | The text that is hashed determines the five filters when no value but the last holds a separator. |
| Selector.SessionKeyInjective | backend/internal/selector/service.go:111-119 | A session key determines user, filters and session id for every user a request can name and such values. |
| Selector.OwnTextExactly | backend/internal/selector/service.go:111-114 | Filters share the hashed text with no other filters if and only if none of their five values holds a separator. |
| Selector.FastPathExactly | backend/internal/selector/service.go:142-157 | On a coherent index the set intersection and the second look yield exactly the cached rows that are available and have all asked attributes as indexed. |
| Selector.FastPathByFields | backend/internal/selector/service.go:142-157 | In any state, stale sets included: the fast path yields exactly the members of all asked sets whose cached row is there, healthy, enabled, and has the asked provider as provider or organisation. |
| Selector.IndexedAndQuery | backend/internal/selector/service.go:159-175 | Rows found by the sets satisfy the query; a row of the query is missed exactly for a state filter, or when it matches by country, shadowed expected region or organisation alone. |
| Selector.FastPathSound | backend/internal/selector/service.go:142-157 | As long as no cached row expired, every node of the fast path satisfies the SQL query. |
| Selector.FastPathSoundExactly | backend/internal/selector/service.go:142-175 | Whatever expired: the fast path yields only rows of the query if and only if every row it lists still fits the region, city and number it is listed under. |
| Selector.FastPathSoundForAll | backend/internal/selector/service.go:142-175 | That holds for all filters at once if and only if every region, city and number set a cached available row is in fits the row. |
| Selector.CandidatesAvailable | backend/internal/selector/service.go:142-180 | Expired rows or not, a candidate is an available row of the table and the returned row is that row but for traffic. |
| Selector.PickFailsExactly | backend/internal/selector/service.go:116-140 | With no sticky hit a pick fails if and only if no row satisfies the query. |
| Selector.PickMatches | backend/internal/selector/service.go:116-140 | What a pick without a sticky hit returns satisfies the query, for every random choice. |
| Selector.PickReturns | backend/internal/selector/service.go:159-175 | The same field by field: what is picked without a sticky hit is healthy, enabled, and has the region, state, city, number and provider that were asked for. |
| Selector.PickFindsExactly | backend/internal/selector/service.go:116-140 | A pick without a sticky hit finds something if and only if some row of the table has these field values. |
| Selector.PickPrefersIndexed | backend/internal/selector/service.go:142-157 | When a cached row has all that is asked for as it is indexed, only such rows are picked. |
| Selector.PickWithoutSession | backend/internal/selector/service.go:116-140 | Without a session id sessions are neither looked at nor stored. |
| Selector.SessionFollowed | backend/internal/selector/service.go:120-124 | In any state a session on a healthy and enabled node is followed. |
| Selector.StaleSessionForgotten | backend/internal/selector/service.go:124-126 | In any state a session on another node is forgotten before anything is looked up. |
| Selector.PickSound | backend/internal/selector/service.go:116-140 | A pick keeps the invariant, returns an available node, pins the session to it and touches no other session. |
| Selector.NeverStale | backend/internal/selector/service.go:120-126 | A pinned session is always a hit. |
| Selector.StaleRegionYielded | backend/internal/selector/service.go:142-157 | After a cached row expired and its exit moved, the fast path yields it for the old region although the query rejects it. |
| SelectorService.Service.MatchNodeIds | backend/internal/selector/service.go:182-211 | The list of set keys that is built and intersected. |
| SelectorService.Service.LoadMatches | backend/internal/selector/service.go:149-154 | The loop appends exactly the members whose cached row passes the second look. |
| SelectorService.Service.ListCandidates | backend/internal/selector/service.go:142-180 | The rows are exactly the candidates: of the fast path if it has any, else of the query. |
| SelectorService.Service.PickNode | backend/internal/selector/service.go:116-140 | The sticky branch, the stale branch and the random choice are the specified pick for some choice. |
| SystemRuns.ApplySound | backend/internal/subscription/service.go:100-143 | Every operation keeps the invariant; only the expiry of a cached row costs the exactness of the index. |
| SystemRuns.SoundInRuns | backend/internal/redisstore/store.go:94-182 | Over every run of imports, syncs, deletions, checks, toggles, flushes, picks, clean-ups, expiries and restarts the invariant holds, with an exact index as long as no cached row expired. |
| SystemRuns.SoundWithLeft | backend/internal/redisstore/store.go:94-182 | With expiries too, after every run a node is in no set but those of its cached row and those that its expired rows left behind. |
| SystemRuns.UnsoundWasLeft | backend/internal/selector/service.go:142-175 | Whatever the fast path yields although the query rejects it was left in one of the asked sets by a row of that node that expired earlier in the run. |
| SystemRuns.IndexInRuns | backend/internal/redisstore/store.go:94-182 | In runs without expiry a node is in healthy_nodes if and only if it is cached, healthy and enabled, in a region set if and only if that is its detected region, or its expected one with none detected, and in the other sets if and only if its cached row has that value. |
| SystemRuns.StaleBranchDead | backend/internal/selector/service.go:120-126 | Over every run the branch that deletes a stale sticky key is never taken. |
| SystemRuns.SessionKept | backend/internal/selector/service.go:116-140 | A session stays pinned through any run in which its node is available after each operation and nothing takes the session away. |
| SystemRuns.SameNodeWhileAvailable | backend/internal/selector/service.go:116-140 | Once a pick bound (uid, filters, session id), every later pick with the same three returns that node, whatever else happens or is chosen, until the node is unavailable or the session expired, was cleaned up or lost in a restart. |
| SystemRuns.OthersSpareSession | backend/internal/quota/service.go:82-95 | The clean-up of a uid without pattern characters takes the session if and only if it is of this user or the uid spells its key, and touches nothing but sessions. |
| SystemRuns.ApplyCarries | backend/internal/healthcheck/service.go:115-162 | Nothing but a check changes health or fail count of a row; new rows start without. |
| SystemRuns.HealthInRuns | backend/internal/healthcheck/service.go:151-162 | From rows never checked, after any run: the fail count is the number of failed checks since the last success, and healthy holds if and only if some check succeeded and that number is zero or below the limit. |
| SystemRuns.CheckMovesNode | backend/internal/healthcheck/service.go:144-161 | After a successful check a node is in exactly the sets of what the check learned, of the expected region if it learned none, whatever sets it was in, and in healthy_nodes unless it is disabled. |
| SystemRuns.CheckStores | backend/internal/healthcheck/service.go:144-162 | Every field of the row after a successful check, in SQL and in the cache; nothing else changes. |
| SystemRuns.FailedCheckStores | backend/internal/healthcheck/service.go:287-294 | The same after a failed one: one more failure, healthy only if it was and the limit is not reached. |
| SystemRuns.ToggleStores | backend/internal/adminapi/server.go:526-544 | After a toggle row and cached row are disabled as asked and otherwise as before; sessions go exactly when the node is not available. |
| SystemRuns.FlushStores | backend/internal/stats/service.go:249-255 | A node flush changes the traffic columns in SQL and nothing else. |
| Overlaps.ApplyAges | backend/internal/subscription/service.go:1034-1065 | No operation makes an id that was given out before stand for another address. |
| Overlaps.UndisturbedCaching | backend/internal/redisstore/store.go:94-135 | The commands of CacheNode, the sweep of sessions included, with nothing in between are the caching the other modules take as one step. |
| Overlaps.SaveBringsBack | backend/internal/healthcheck/service.go:158-161 | After the save of a check or toggle the node is there if and only if it was there before or nothing took the place of its address; one that was deleted meanwhile is back, linked by no subscription. |
| Overlaps.OverlapsSound | backend/internal/healthcheck/service.go:115-168 | In every interleaving of whole operations with the loads, saves, reads, pipelines, scans and deletions of any number of checks and toggles, the tables stay in order and the whole invariant holds of every node that is not under way and not spoiled; spoiled is a node exactly when a move of another changes its row or entry between a save and its caching, pins it between a scan and its deletion, or a rejected failure is cached. |
| Overlaps.SettledSound | backend/internal/healthcheck/service.go:115-168 | When nothing is under way, nothing was spoiled and nothing expired, the whole invariant holds. |
| Overlaps.ExecAgreesExactly | backend/internal/healthcheck/service.go:158-162 | The caching pipeline leaves the cached row in agreement with SQL if and only if the row of the table is still the one that was saved, but for traffic. |
| Overlaps.ExecExplainedExactly | backend/internal/redisstore/store.go:94-130 | It leaves the node in its own sets only if and only if every index key the node had is one of the row read before or of the new one. |
| Overlaps.CrossedDisagrees | backend/internal/healthcheck/service.go:158-168 | The run Save(check), Save(toggle), CacheNode(toggle), CacheNode(check) ends with the node disabled in SQL, available in the cache, and yielded by the fast path. |
| Overlaps.CheckOverwrites | backend/internal/healthcheck/service.go:115-161 | Configuration, disabled flag, subscription and traffic written between the read and the save of a check are gone from the table. |
| Overlaps.DisablingIsLost | backend/internal/adminapi/server.go:526-544 | Disabling a node while it is being checked has no effect: after the check it is available and in healthy_nodes. |
| NodeServices.CheckedAgrees | backend/internal/healthcheck/service.go:287-294 | A check keeps the cache in agreement with SQL if and only if it does not record a failure it could not save. |
| NodeServices.HealthService.CheckOne | backend/internal/healthcheck/service.go:115-162 | All outcomes of a check, with the save working or not, on the row and its cached copy. |
| NodeServices.HealthService.MarkFailure | backend/internal/healthcheck/service.go:287-294 | Fail count and health are stepped, saved if possible, and cached in any case. |
| NodeServices.HealthService.CheckNodes | backend/internal/healthcheck/service.go:95-113 | All ids are checked in order; counted as healthy are exactly those with a healthy row right after their own check, as failed those without a row or a successful probe. |
| NodeServices.AdminServer.ToggleNodeDisabled | backend/internal/adminapi/server.go:526-544 | The flag is set in SQL and in the cache, or nothing happens. |
| NodeServices.AdminServer.DeleteNode | backend/internal/adminapi/server.go:546-560 | Links, row and cache are deleted with the error of the first statement ignored. |
| Limiter.Accounted | backend/internal/quota/service.go:53-72 | In every interleaving, with releases split at their GET, lost or not: counter plus what was wiped out equals requests inside plus rejections not undone plus leaks. |
| Limiter.CounterExactly | backend/internal/quota/service.go:53-72 | With atomic releases the counter is exactly requests inside plus rejections not undone plus leaks. |
| Limiter.LimitHolds | backend/internal/quota/service.go:53-63 | With atomic releases a positive limit is never exceeded. |
| Limiter.RejectedExactly | backend/internal/quota/service.go:53-63 | In every interleaving a new request is turned away if and only if those inside, those being turned away and the leaks, less what was wiped out, fill a positive limit. |
| Limiter.CounterAtRest | backend/internal/quota/service.go:65-72 | In every interleaving, when everybody is through, the counter is the leaks less what was wiped out. |
| Limiter.LeaksShutOut | backend/internal/quota/service.go:53-63 | Once the leaks, less what was wiped out, fill a positive limit nobody is let in any more. |
| Limiter.PhaseByLast | backend/internal/proxy/gateway.go:126 | In orderly runs the last command a request has issued tells its phase. |
| Limiter.AllThrough | backend/internal/proxy/gateway.go:126 | When every request that arrived has issued its last command, in any interleaving and with releases split or not, nobody is inside and the counter is the leaks less what was wiped out. |
| Limiter.ErasedStep | backend/internal/quota/service.go:65-72 | A command wipes counts out if and only if it deletes the counter at a value other than the one it stands for. |
| Limiter.LimitHoldsIfHarmless | backend/internal/quota/service.go:65-72 | Split releases keep counter and limit right as long as every DEL finds the counter at one. |
| Limiter.RaceLeaves | backend/internal/quota/service.go:65-72 | The run GET reads 1, another INCR, DEL leaves the counter one below what it should count. |
| Limiter.SplitReleaseBreaks | backend/internal/quota/service.go:65-72 | For every positive limit that run, followed by new arrivals, lets one request too many in, with no command lost. |
| Gateway.Gateway.HandleHttp | backend/internal/proxy/gateway.go:114-232 | On every exit path: one answer with the right status, one traffic record if and only if the response was relayed and the context is live when it is sent, the slot given back as far as the context allows, each request counted once. |
| Gateway.Gateway.ForwardHttp | backend/internal/proxy/gateway.go:127-231 | The paths between the deferred release and the return, with the record lost when the context ended during the copy. |
| Gateway.Gateway.HandleConnect | backend/internal/proxy/gateway.go:234-355 | The same for CONNECT, whose record is sent under a context of its own: one record if and only if the tunnel was up, with the tunnel gauge back where it was on every path. |
| Gateway.Gateway.ForwardConnect | backend/internal/proxy/gateway.go:247-354 | The paths of a CONNECT between the deferred release and the return. |
| Gateway.DenialAnswers | backend/internal/proxy/gateway.go:469-494 | 407 exactly for bad credentials, 403 for accounts that may not, 429 for too many at once; only the first are counted as failed authentication. |
| Gateway.DeniedStatus | backend/internal/proxy/gateway.go:114-122 | A denied request of either kind gets the answer of its denial. |
| Gateway.HttpAnswers | backend/internal/proxy/gateway.go:114-232 | A plain request that got in is answered by upstream if and only if every stage worked, else 502; it is recorded if and only if also the context was live. |
| Gateway.ConnectAnswers | backend/internal/proxy/gateway.go:234-355 | A CONNECT that got in is answered 200 if and only if the tunnel is up, 500 if and only if the connection could not be taken over, else 502. |
| Gateway.CommandsAre | backend/internal/proxy/gateway.go:101-126 | What each kind of request tells the limiter, by its refusal and the end of its context. |
| Gateway.CountsAre | backend/internal/proxy/gateway.go:114-247 | What each request is counted as, number by number. |
| Gateway.RelayedAccounted | backend/internal/proxy/gateway.go:174-181 | For any sequence of requests, the relayed bytes of a user are the recorded ones plus exactly those of requests whose context ended before the record was sent. |
| Gateway.LostExactly | backend/internal/proxy/gateway.go:174-181 | Nothing is lost if and only if every such request of the user relayed no bytes. |
| Gateway.HangUpLosesTraffic | backend/internal/proxy/gateway.go:174-181 | A client that hangs up when it has read everything: all its bytes are relayed, none recorded, and the slot is not given back. |
| Gateway.ServerAtRest | backend/internal/proxy/gateway.go:114-355 | However the requests of a user interleave, reads and deletions of releases included, once all handlers returned nobody is inside and the counter is the leaks less what was wiped out, zero if and only if these are equal; nothing leaks when no context ended early. |
| Gateway.ServerAtZero | backend/internal/proxy/gateway.go:114-355 | With no context ended early and every DEL finding the counter at one, the counter is zero. |
| Gateway.RestsBelowZero | backend/internal/quota/service.go:53-72 | Two requests under a limit of one, no context ended, all handlers returned: the counter rests at minus one. |
| Base64.DecodeEncode | backend/internal/subscription/service.go:1147-1166 | Each of the four encodings is undone by its own decoder, for every byte string. |
| Base64.AlphabetIs | backend/internal/subscription/service.go:1147-1166 | The two alphabets written out. |
| Base64.TripleIs | backend/internal/subscription/service.go:1147-1166 | Three bytes and four sextets are the same 24 bits. |
| Base64.LastGroupIs | backend/internal/subscription/service.go:1147-1166 | One or two bytes at the end are followed by zero bits. |
| Base64.DecodeIsLoose | backend/internal/subscription/service.go:1147-1166 | Whichever decoder accepts a text, it reads the same bytes. |
| Base64.PaddedEncoding | backend/internal/subscription/service.go:991-996 | padBase64 turns an encoded text, padded or not, into the padded encoding. |
| Base64.TextIsLoose | backend/internal/subscription/service.go:1147-1166 | Whatever the chain returns is what the text reads as. |
| Base64.DecodeTextInverts | backend/internal/subscription/service.go:1147-1166 | decodeBase64Text returns the bytes for every byte string under all four encodings, surrounded by white space or not. |
| Base64.ShadowrocketKeepsLinks | backend/internal/subscription/service.go:470-489 | A line that is a link is kept, but for white space around it. |
| Base64.ShadowrocketLineInverts | backend/internal/subscription/service.go:470-489 | decodeShadowrocketLine returns the trimmed text of an encoded line under all four encodings, and an error for an empty one. |
| Credentials.AuthorizationInverts | backend/internal/proxy/gateway.go:357-370 | parseBasicAuth undoes ProxyAuthorization if and only if the user holds no colon and user and password are not both empty. |
| Credentials.ParsesSent | backend/internal/upstream/http_proxy.go:67-80 | A printed header parses as the text cut at its first colon. |
| Credentials.BasicScheme | backend/internal/proxy/gateway.go:357-370 | The word Basic, one space and the padded encoding of user:password parse to the two, that is what is sent upstream, and no other scheme is accepted. |
| Credentials.ParsedPrintsAgain | backend/internal/proxy/gateway.go:357-370 | What is parsed holds no colon in the user, joins to the decoded text, and printing it again parses the same. |
| ProxyUsers.ClaimedForm | backend/internal/proxy/gateway.go:101-112 | The uid that the user name of any accepted header parses to holds no colon and no legacy separator. |
| ProxyUsers.SendableExactly | backend/internal/proxy/gateway.go:101-112 | A uid can be named by a request if and only if it holds no colon and no two underscores in a row, and does not end in an underscore unless it is trimmed and free of dashes. |
| Username.ParseUsername | backend/internal/selector/service.go:39-44 | The dispatch between the two grammars. |
| Username.ParseLegacyUsername | backend/internal/selector/service.go:46-74 | The loop folds the pieces that hold an equals sign, cut at the first one, in order. |
| Username.ParseDashUsername | backend/internal/selector/service.go:76-109 | Trimming, splitting and the loop over alternating keys and values. |
| Username.LastDuplicateWins | backend/internal/selector/service.go:57-70 | In both grammars a field holds the value of the last pair that names it (st and state name one field), or is empty. |
| Username.LegacySplitsExactly | backend/internal/selector/service.go:47 | Splitting a joined text on the separator, which overlaps itself, gives the pieces back if and only if none holds it and none but the last ends in half of it. |
| Username.LegacyInverts | backend/internal/selector/service.go:46-74 | Parsing undoes printing of the legacy form for such pieces and keys without an equals sign. |
| Username.DashInverts | backend/internal/selector/service.go:76-109 | Parsing undoes printing of the dash form for trimmed pieces without dash when the text does not hold the legacy separator. |
| Username.LegacyFiltersInvert | backend/internal/selector/service.go:39-74 | Uid and filters printed in the legacy form are parsed back. |
| Username.DashFiltersInvert | backend/internal/selector/service.go:39-109 | Uid and filters printed in the dash form are parsed back. |
| Retry.Do | backend/internal/retry/retry.go:31-64 | Calls, result and sleeps for every context: as many calls as outcomes, limit and context allow, the result of the last call unless the context ended the loop, and only completed sleeps. |
| Retry.AsStop | backend/internal/retry/retry.go:66-78 | The stop error is written through if and only if there is one. |
| Retry.LiveCount | backend/internal/retry/retry.go:31-64 | With a live context the loop calls up to the first success or stop, at most as often as configured, and once if that is zero or less. |
| Retry.LiveLoop | backend/internal/retry/retry.go:31-64 | For k calls the sleeps add up to the configured base, 100 if that is zero or less, times k(k-1)/2; nil or the error of the last call is returned, by an if and only if on that call. |

## Left out

- Quota.QuotaEnforced: the password check is an input, and the clock is a parameter.
- LedgerConservation.BytesConserved: a transaction that fails is taken as not applied; overflow of 64-bit integers is not modelled and bounds the amounts for which the statement holds; an admin who edits the columns or the uid of a user is not part of the ledger.
- LedgerTotals.FourTotals: region scores are integers, which a float64 holds exactly below 2^53.
- LedgerTotals.TodayIsDay: the printed hour stamp is taken as a number of hours since the epoch, one for each stamp.
- StatsService.Service.FlushUsage: while it runs, other requests record traffic; deletions, clean-ups and saves of node rows interleave in the state machine of `ledger.dfy` but not in this class.
- RedisKeys.ScanNodeIdInverts: white space and signs that Sscanf also accepts before a number are not modelled.
- RedisKeys.SparesOthersExactly: patterns with brackets and backslashes are not modelled.
- Catalog.SupportedHasNoColon: trimming and lower case are those of ASCII text.
- ProxyUsers.SendableExactly: white space around a uid is that of ASCII text; characters stand for the bytes of a Go string.
- SubscriptionGraph.SyncExactly: fetching and parsing a body yield an arbitrary list of entries, or nothing; the time stamp, tags of links and encrypted credentials are not part of rows and links.
- SubscriptionGraph.SyncSound: SQL statements whose error is returned fail at any point; statements whose error the code ignores (the lookup after the upsert, the creation of a link) and Redis commands are taken to work.
- SubscriptionService.Service.ImportManualNodes: the guess of a region from a tag and the JSON text of an entry are parameters.
- Selector.SessionKeyInjective: SHA-1 printed in hexadecimal is an injective function without colons.
- Selector.PickFailsExactly: an error of the SQL query is not modelled.
- SelectorService.Service.PickNode: the order of candidates and the random choice are arbitrary; the time to live of a session is an expiry step at any time.
- SystemRuns.SoundInRuns: operations follow each other; checks and toggles that overlap with others are in `overlaps.dfy`, flushes that do in `ledger.dfy`. A node deletion whose first statement failed is excluded (its effect is `DanglingExactly`), and so is a failed check that could not be saved (`CheckedAgrees`).
- Overlaps.OverlapsSound: imports, syncs, deletions and picks are steps as a whole, with the caching they do, so two of them do not overlap; the lookup of the sessions of a node, KEYS and one GET for each key, is one step.
- NodeServices.HealthService.CheckOne: the probe and what it learns of an exit are inputs, also the merge of two sources.
- Gateway.Gateway.HandleHttp: dialling, writing, copying and reading are outcomes; a context ends at one of the points where the handler uses it; of the two copies of a tunnel only the byte counts are kept.
- Base64.DecodeEncode: Go's decoder is modelled from its documentation: line breaks are skipped, trailing bits are not checked.
- Retry.Do: a sleep is a number; a context ends at one of the points where the loop looks at it.
- The trojan, vless, vmess and shadowsocks framing, TLS and all cryptography.
- The parsers of subscription bodies and the table of region names.
- Routing, admin sessions, settings, audit log, metrics output and the web console: plumbing.
- The dashboard's other figures and the list of top regions: queries without an invariant of their own.
- Editing users and subscriptions: one statement each.
