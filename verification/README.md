# Event store protocol: a Dafny model

The repository keeps event-sourced state in a store that competing workers share: an append-only event log, and
beside it a table of subscriptions from which workers claim streams, process events and finalize their leases.
This project models that protocol and the pieces around it, and proves what callers rely on.

| file | what it models |
|---|---|
| `EventLog.dfy`, `LogContents.dfy`, `Replay.dfy`, `WarmReads.dfy` | the event table: optimistic commit, full and windowed truncate, the snapshot-floored read and the warm read |
| `Subscriptions.dfy`, `Conservation.dfy` | the subscription row (watermark, work mark, lease, retry, block, defer) and every step on it; runs of steps, and what becomes of every grant |
| `SqliteSteps.dfy`, `SqliteStore.dfy` | the SQLite adapter as a class over its three tables, each method one write transaction |
| `StreamFilters.dfy` | the filter of the bulk operations |
| `StoreRuns.dfy`, `Truncation.dfy` | calls on the store as runs of row steps and of single truncates, and what a truncate reports |
| `ClaimSelection.dfy`, `SelectionLaws.dfy`, `Fairness.dfy` | which streams a claim picks, and how long a stream can be passed over |
| `PostgresClaim.dfy`, `PostgresRuns.dfy` | the Postgres claim as interleaved transactions: unlocked read, lock and recheck, update at commit; and as runs of row steps |
| `PostgresCommit.dfy`, `PostgresVersions.dfy` | the Postgres commit as interleaved steps: unlocked head probe, advisory lock, insert, publish; visibility, and versions |
| `Correlator.dfy` | the per-key correlation lease and checkpoint |
| `WorkMark.dfy`, `Correlate.dfy` | the work mark and the `correlate` helper that computes it |
| `StreamPattern.dfy`, `FilterSyntax.dfy` | the compiler from stream filters to `GLOB` patterns, and its filter syntax spelled out |
| `Values.dfy`, `Patch.dfy`, `Delta.dfy` | JavaScript values, the deep merge, the differ, and replay through recorded deltas |
| `Paging.dfy`, `QueryStats.dfy` | keyset pages, and the two paths of `query_stats` |
| `ClaimPlans.dfy` | the store property loop that counts claims and resolutions |
| `Seqs.dfy` | filters and prefixes of sequences |

Where the source changes state step by step, the model does too: `SqliteStore` is a class whose methods update the
tables in place and whose `ensures` name the whole new state, as a function of the old one or as a run of row steps.
What is promised of runs is then proved about those functions. `ORDER BY ... LIMIT k` is any valid top-`k`, because
neither adapter fixes ties. Clocks, holder ids and lane choices are parameters. Time is an integer.

Findings, each stated as a lemma:

- `ActDelta.RoundTripFails`: the documentation of `delta` promises that patching with the delta gives back `after`
  whenever its keys include those of `before`. With an array (or another truthy value that is not a plain object)
  replaced by a plain object the merge keeps parts of the old value. `ActDelta.RoundTrip` gives the exact condition.
- `ActPatch.MergePatchDiffers`: for the same reason `patch` is not RFC 7396 section 2 everywhere;
  `ActPatch.AgreesWithMergePatch` gives the exact condition.
- `PostgresVersions.FullTruncateRace` and `PostgresVersions.WindowedTruncateRace`: the unique index alone does not
  detect every head that moved between a writer's probe and its insert. A full truncate in between can leave the probed
  base above the head, and a windowed one can drop the versions the insert would have collided with; either way a
  commit with an expected version succeeds although the head is another one, and the stream's versions are no longer
  contiguous. `PostgresVersions.CarefulExactly` gives the exact condition a truncate must meet towards the commits in
  flight, and `PostgresVersions.Linearizable` shows that it suffices.
- `ClaimPlans.OutlivedLeaseLosesCount`: the property loop's count (resolved plus pending equals claimed) is lost by a
  plan that outlives one of its leases. `ClaimPlans.CountKeptExactly` says that a plan keeps it exactly when no
  finalization meets a stream that is pending twice.
- `WarmReads.TombstoneLeavesCacheStale`: a state cached before a full truncate that leaves a tombstone is not reset by
  the warm read. `WarmReads.WarmReadExactly` gives the condition, and `WarmReads.WarmForAnyReducer` what a reader can
  check beforehand: without a snapshot since, the cached state may be relied on exactly when it is the initial one.
- `PostgresRuns.GrantWithoutWork`: a claim can grant a row another worker has just caught up, because the recheck under
  the lock does not look at the work mark. `PostgresRuns.GrantHasWorkExactly`: a granted row has work exactly when that
  recheck, had it compared the watermark with the mark as well, would have let it through.
- `Subscriptions.SharedHolderIsNotFenced`: fencing fails when a holder id is used twice. `Conservation.FencedExactly`:
  a finalize changes the table exactly when some grant to its holder id is open (and, for a block, the row is not
  blocked already).

## Model

| member | source | states |
|---|---|---|
| StreamPattern.StreamPatternToGlob | libs/act-sqlite/src/sqlite-store.ts:219-254 | the two loops compute the compiled pattern, and refuse exactly what `Compile` refuses |
| StreamPattern.Tokenize | libs/act-sqlite/src/sqlite-store.ts:231-241 | the token loop with its look-ahead yields the token list of the body |
| StreamPattern.CollapseStars | libs/act-sqlite/src/sqlite-store.ts:243-253 | the collapsing pass keeps one star of every run of stars |
| StreamPattern.CompileKeepsMeaning | libs/act-sqlite/src/sqlite-store.ts:200-254 | for every filter and every string: it compiles iff its body is portable, and the GLOB matches the whole string iff the filter, read as a regular expression with its anchors, matches somewhere in it; no adjacent stars remain |
| FilterSyntax.RefusedExactly | libs/act-sqlite/src/sqlite-store.ts:181-230 | a filter is refused iff between its anchors stands one of `\ ^ $ ( ) [ ] { } + ?`, a vertical bar, or a `*` not directly after a `.` |
| FilterSyntax.AnchorsMean | libs/act-sqlite/src/sqlite-store.ts:219-224 | with both anchors the body matches the whole string, with one a prefix or a suffix, with none some stretch of it |
| StreamPattern.TokensMean | libs/act-sqlite/src/sqlite-store.ts:231-241 | the tokens of a portable body match exactly the strings its regular expression matches |
| StreamPattern.CollapseKeeps | libs/act-sqlite/src/sqlite-store.ts:243-253 | collapsing adjacent stars changes no match |
| StreamPattern.CollapseIsMinimal | libs/act-sqlite/src/sqlite-store.ts:243-253 | the collapsed pattern has no two adjacent stars |
| ActPatch.Merge | libs/act-patch/src/patch.ts:25-75 | the index loops, with their early returns and recursion, compute the merge function |
| ActPatch.Unpatched | libs/act-patch/src/patch.ts:39-49 | the spread path for at most 16 keys and the copy loop for more agree on every key the patch does not name |
| ActPatch.RulesByKind | libs/act-patch/src/patch.ts:51-72 | undefined and null delete; primitives, arrays and the like replace; a plain object merges into what was there, or into nothing in place of a falsy value |
| ActPatch.LeftoversSurvive | libs/act-patch/src/patch.ts:39-49 | what is not patched stays: fields, the own properties of an array or the like, the characters of a string |
| ActPatch.AgreesWithMergePatch | libs/act-patch/src/patch.ts:25-75 | the merge equals MergePatch of RFC 7396 section 2 iff every object-valued patch entry meets a target whose leftovers it absorbs |
| ActPatch.AbsorbedExactly | libs/act-patch/src/patch.ts:63-68 | patching what `original_value \|\| {}` leaves equals merging into an empty object iff the old value has no own key that would survive |
| ActPatch.MergePatchDiffers | libs/act-patch/src/patch.ts:63-68 | an empty object patched over a number keeps the number, where RFC 7396 gives the empty object |
| ActPatch.Idempotent | libs/act-patch/src/patch.ts:25-75 | applying a patch twice is applying it once |
| ActPatch.PatchCongruence | libs/act-patch/src/patch.ts:25-75 | states equal up to null-valued keys stay so under any patch |
| ActDelta.Diff | libs/act-patch/src/delta.ts:56-93 | the loop computes the one delta, whichever equal objects happen to share a reference at whichever place |
| ActDelta.RoundTrip | libs/act-patch/src/delta.ts:34-93 | patching `before` with the delta gives `after` up to null-valued keys iff nothing non-null is dropped silently and no object replaces a value whose leftovers survive it |
| ActDelta.RoundTripFails | libs/act-patch/src/delta.ts:36-42 | a pair with equal key sets, as the documentation asks, whose round trip gives back `before` |
| ActDelta.ReplayRebuilds | libs/act-patch/src/delta.ts:34-93 | folding `patch` over the recorded deltas rebuilds every state of a recorded sequence, up to null-valued keys, iff every step is faithful |
| SqliteStore.SqliteStore.Commit | libs/act-sqlite/src/sqlite-store.ts:550-631 | refused iff a version is expected that is not the head, and then nothing changes and the head is reported; accepted, the k-th new row carries the k-th message's name and data, the stream, the time, the head plus one plus k and the next id |
| LogContents.LogIsMessages | libs/act-sqlite/src/sqlite-store.ts:561-608 | over any run without truncates a stream's rows are the messages of its accepted commits in order, numbered from zero, and a commit is accepted iff it expects no version or the last message's number |
| SqliteStore.SqliteStore.Load | libs/act-sqlite/src/sqlite-store.ts:662-692 | the `with_snaps` read of an exact stream from its latest snapshot |
| SqliteStore.SqliteStore.Truncate | libs/act-sqlite/src/sqlite-store.ts:1668-1770 | windowed targets first, then full ones; the whole new table and the report per stream; versions and ids stay well formed |
| LogContents.WindowedExactly | libs/act-sqlite/src/sqlite-store.ts:1694-1713 | a windowed truncate keeps, in id order, every row of another stream and every row of its own that no `__snapshot__` older than the cutoff and within the cap lies above |
| LogContents.BoundaryIsLatest | libs/act-sqlite/src/sqlite-store.ts:1694-1704 | the boundary is the highest such snapshot, and absent iff there is none |
| Truncation.ReportMeans | libs/act-sqlite/src/sqlite-store.ts:1697-1763 | for distinct targets each entry tells how many of its stream's rows are gone and the row the stream now starts with -- for a windowed target the latest safe snapshot, for a full one the seed; a windowed target without one has no entry and keeps its stream, and no other stream is touched |
| Truncation.TruncateIsRun | libs/act-sqlite/src/sqlite-store.ts:1688-1766 | the call's table is that of a run of single truncates |
| Truncation.TruncatedReads | libs/act-sqlite/src/sqlite-store.ts:1668-1766 | after the call the floored read of every stream is still the fold of its domain events since its last full truncate |
| SqliteStore.SqliteStore.Claim | libs/act-sqlite/src/sqlite-store.ts:872-1000 | the granted streams are a valid outcome of the direct rule, with their frontier flags; every leased row was not blocked, not leased or deferred past the time, behind its mark and in the lane asked for, and with budget for all of them all such rows are leased; a leased row gets holder, expiry and one more try, every other row is untouched |
| SqliteSteps.ClaimedClaimable | libs/act-sqlite/src/sqlite-store.ts:907-910 | a claim leases claimable rows only, and all of them when either budget covers them |
| Subscriptions.DeferredStaysOut | libs/act-sqlite/src/sqlite-store.ts:908-909 | after a defer, or an owner's ack with a due time, the stream is granted to no one before that time until another defer, ack, block, reset or unblock |
| Subscriptions.AckMeans | libs/act-sqlite/src/sqlite-store.ts:1028-1035 | an owner's ack sets watermark and schedule, gives up the lease and starts the tries over unless it is due again; anyone else's changes nothing |
| Subscriptions.BlockMeans | libs/act-sqlite/src/sqlite-store.ts:1073-1076 | an owner's block of an unblocked row records the error, drops the schedule and keeps watermark, tries and lease; any other changes nothing |
| Subscriptions.SubscribeMeans | libs/act-sqlite/src/sqlite-store.ts:745-787 | a new row starts before the log with nothing but what was given; an existing one takes the higher priority, the later mark and the given lane, and keeps the rest |
| SqliteStore.SqliteStore.Ack | libs/act-sqlite/src/sqlite-store.ts:1003-1056 | the batch is the run of its ack steps; exactly the owned entries without a due time are returned, with the row's own retry and lane |
| SqliteStore.SqliteStore.Block | libs/act-sqlite/src/sqlite-store.ts:1059-1098 | the batch is the run of its block steps; exactly the owned, unblocked entries are returned, at the watermark the row holds |
| SqliteStore.SqliteStore.Defer | libs/act-sqlite/src/sqlite-store.ts:1109-1118 | each named row is deferred once, repeated names count once, nothing else changes |
| SqliteStore.SqliteStore.Reset | libs/act-sqlite/src/sqlite-store.ts:1183-1192 | each named row is reset once, repeated names count once, nothing else changes |
| SqliteStore.SqliteStore.Unblock | libs/act-sqlite/src/sqlite-store.ts:1218-1226 | exactly the named rows that are blocked are unblocked and counted, repeated names once |
| SqliteStore.SqliteStore.DeferWhere | libs/act-sqlite/src/sqlite-store.ts:1119-1128 | exactly the rows the filter selects are deferred and counted; an unportable pattern changes nothing |
| SqliteStore.SqliteStore.ResetWhere | libs/act-sqlite/src/sqlite-store.ts:1193-1202 | exactly the rows the filter selects are reset and counted; an unportable pattern changes nothing |
| SqliteStore.SqliteStore.UnblockWhere | libs/act-sqlite/src/sqlite-store.ts:1227-1241 | exactly the blocked rows among those the filter selects are unblocked and counted, whatever it says of `blocked` |
| SqliteStore.SqliteStore.Prioritize | libs/act-sqlite/src/sqlite-store.ts:1650-1662 | every selected row ends with the priority, and only those that had another are counted |
| StreamFilters.Matching | libs/act-sqlite/src/sqlite-store.ts:1140-1174 | the compiled clause selects exactly the rows the filter means, its patterns read as regular expressions, and is refused iff one is unportable |
| SqliteStore.SqliteStore.Subscribe | libs/act-sqlite/src/sqlite-store.ts:726-867 | refuses a source outside the portable subset before writing; otherwise rows, marks, priorities and lanes are the run of the subscribe steps, and the checkpoint, lease outcome, new-row count and highest watermark are reported |
| SqliteStore.SqliteStore.Checkpoint | libs/act-sqlite/src/sqlite-store.ts:798-851 | the conditional upserts write the checkpoint table that the correlation rule gives, and report whether the lease was taken |
| Correlator.CallMeans | libs/act-sqlite/src/sqlite-store.ts:799-841 | the exact position, holder and expiry of the caller's key and of the shared row after one call, for winner and loser, new key and old |
| ClaimSelection.Choose | libs/act-sqlite/src/sqlite-store.ts:902-974 | three bounded reads, a union and a re-split pick a valid outcome of the direct rule over the whole eligible set, without duplicates and within the budget |
| ClaimSelection.Split | libs/act-sqlite/src/sqlite-store.ts:945-974 | the slices, the fairness reserve and the dedup of the code satisfy the direct rule over the rows read |
| ClaimSelection.BoundedReadsRefineDirect | libs/act-sqlite/src/sqlite-store.ts:902-974 | any valid split of any three valid bounded reads is a valid outcome of the Postgres rule over every eligible row |
| SelectionLaws.DirectMeans | libs/act-pg/src/postgres-store.ts:1240-1281 | the rule in plain numbers: an eligible row left out of the priority slice has a lower priority than any in it, or the same and no lower watermark; left out of the reserve too, no lower watermark; left out of the leading slice, no higher one |
| SelectionLaws.SliceSizes | libs/act-sqlite/src/sqlite-store.ts:945-966 | the reserve is a quarter of the lagging budget, one at least from a budget of two; the priority slice takes the rest, and each slice is filled as far as there are rows |
| SelectionLaws.BudgetForAll | libs/act-sqlite/src/sqlite-store.ts:945-974 | when either budget covers all eligible rows, all are picked |
| ClaimSelection.BoundedReadSuffices | libs/act-sqlite/src/sqlite-store.ts:902-907 | a bounded read answers a smaller top question asked of any superset of it, with the earlier picks excluded |
| ClaimSelection.PickedWithinBudget | libs/act-pg/src/postgres-store.ts:1240-1281 | a pick is eligible, at most `lagging + leading` large, and not empty when there is work and budget |
| ClaimSelection.MissedMeansBehind | libs/act-sqlite/src/sqlite-store.ts:945-960 | if an eligible stream is passed over, the fairness reserve served one at or behind its watermark |
| Fairness.BoundedWait | libs/act-sqlite/src/sqlite-store.ts:945-960 | with `lagging >= 2` and forward acks, a continuously eligible stream, fresh or left behind with an expired lease, is served within one claim plus, for every other stream, the events it is behind, whatever the priorities |
| Fairness.Passed | libs/act-sqlite/src/sqlite-store.ts:945-960 | every claim that passes a stream over uses up some of what the other streams can still be served ahead of it |
| Subscriptions.FencedOut | libs/act-sqlite/src/sqlite-store.ts:1018-1076 | once a granted lease is lost it never comes back, and an ack or block by its holder changes no row |
| Subscriptions.HeldSince | libs/act-sqlite/src/sqlite-store.ts:976-1056 | a held lease goes back to one grant, and the watermark has not moved since |
| Subscriptions.WatermarkNeverFalls | libs/act-sqlite/src/sqlite-store.ts:1003-1056 | with fresh holder ids and holders that finalize no lower than they were leased at, only a reset lowers a watermark |
| Subscriptions.SharedHolderIsNotFenced | libs/act-sqlite/src/sqlite-store.ts:1028-1035 | with one holder id used twice, a superseded claim does finalize through the second lease |
| Conservation.HoldsExactly | libs/act-sqlite/src/sqlite-store.ts:976-1076 | after any run a holder id owns a row iff a grant to it on that row is still open |
| Conservation.FencedExactly | libs/act-sqlite/src/sqlite-store.ts:1018-1076 | an ack, however late, changes the table iff some grant to its holder id is open; a block iff the row is moreover not blocked |
| Subscriptions.RetryLaw | libs/act-sqlite/src/sqlite-store.ts:976-1032 | a row's retry is its last reset value (-1, or that carried by a due ack) plus the claims since |
| Conservation.EveryGrantSettled | libs/act-tck/src/store-property-tck.ts:175-220 | every grant is still carried by its row, with its holder and expiry, or exactly one step is the first to end it: it finds that very lease, an ack is by the same holder, and a later claim comes only after expiry |
| Conservation.GrantsPartition | libs/act-tck/src/store-property-tck.ts:175-220 | the grants of a run fall apart into the open ones and those acked, deferred, superseded and voided, without overlap |
| Conservation.GrantsConserved | libs/act-tck/src/store-property-tck.ts:175-220 | so the totals add up, over acked, deferred, superseded, voided, held, and held by a blocked row |
| Conservation.OpenCounted | libs/act-sqlite/src/sqlite-store.ts:976-1035 | open grants are as many as leased rows |
| Conservation.OpenCarries | libs/act-sqlite/src/sqlite-store.ts:976-1098 | until some step ends it, a grant's row carries its holder and its expiry |
| Subscriptions.MarkNeverFalls | libs/act-sqlite/src/sqlite-store.ts:775-786 | over any run of steps a work mark is never lowered or cleared, and a row keeps its source |
| Subscriptions.BlockedStaysOut | libs/act-sqlite/src/sqlite-store.ts:907-909 | a blocked stream is granted to no one until a reset or an unblock |
| SqliteSteps.ClaimIsRun | libs/act-sqlite/src/sqlite-store.ts:976-992 | a claim's table is that of a run of grants, each of a row free when it is taken |
| SqliteSteps.OnRowsIsRun | libs/act-sqlite/src/sqlite-store.ts:1186-1192 | a step on a set of rows is a run of one step for each |
| StoreRuns.CallsAreRuns | libs/act-sqlite/src/sqlite-store.ts:726-1246 | any sequence of subscribe, claim, ack, block, defer, reset, unblock and prioritize calls takes the table where an allowed run of row steps does |
| StoreRuns.PerformAll | libs/act-sqlite/src/sqlite-store.ts:726-1246 | performing any requests on the store is such a sequence of calls |
| StoreRuns.StoreConserves | libs/act-sqlite/src/sqlite-store.ts:976-1246 | so every lease the store handed out is still carried or was ended once, properly, and the totals add up |
| Subscriptions.RunPaired | libs/act-sqlite/src/sqlite-store.ts:980-1035 | a holder and an expiry come and go together, and no step removes a row |
| ClaimPlans.NothingLost | libs/act-tck/src/store-property-tck.ts:175-220 | for any plan and any clocks the loop ends as a run of the loop's state machine that carries out the plan, and resolved plus pending equals claimed iff that run finalizes no stream that is pending twice |
| ClaimPlans.CountKeptExactly | libs/act-tck/src/store-property-tck.ts:186-217 | over any run of commits, claims, ack-alls and block-alls no claim is counted twice, and none is lost iff no finalization meets a stream that is pending twice |
| ClaimPlans.OneLeaseNeverTwice | libs/act-tck/src/store-property-tck.ts:186-217 | a run that ends before its leases do finalizes no stream twice |
| ClaimPlans.OutlivedLeaseLosesCount | libs/act-tck/src/store-property-tck.ts:196-215 | commit, claim, claim again when the lease has run out, then ack or block all: two claimed, one resolved, none pending |
| ClaimPlans.MarkAll | libs/act-tck/src/store-property-tck.ts:14-40 | every listed row behind the log's head is marked to it, and nothing else changes in the subscription or checkpoint table |
| ClaimPlans.AckedOnce | libs/act-tck/src/store-property-tck.ts:201-206 | an ack of held leases returns each of their streams exactly once |
| ClaimPlans.BlockedOnce | libs/act-tck/src/store-property-tck.ts:207-214 | a block of held, unblocked leases returns each of their streams exactly once |
| ClaimPlans.ClaimDistinct | libs/act-tck/src/store-property-tck.ts:196-200 | while the pending leases last, a new claim takes none of their streams |
| PostgresClaim.LeaseExclusive | libs/act-pg/src/postgres-store.ts:1240-1308 | in no reachable state of any interleaving do two unexpired, unreleased leases exist on one stream, and the holder of the one there may be still owns the row |
| PostgresClaim.RunKeeps | libs/act-pg/src/postgres-store.ts:1282-1308 | every interleaved step keeps the ledger of leases, the row locks and the transaction clocks consistent with the table |
| PostgresRuns.SameCandidates | libs/act-pg/src/postgres-store.ts:1243-1247 | on a table whose holders and expiries come and go together both adapters select from the same rows |
| PostgresRuns.InterleavingIsRun | libs/act-pg/src/postgres-store.ts:1240-1308 | any interleaving takes the table where an allowed run of row steps does |
| PostgresRuns.WorkersConserve | libs/act-pg/src/postgres-store.ts:1296-1304 | every lease competing workers were granted is still carried or was ended once, properly, and the totals add up |
| PostgresRuns.WorkersFenced | libs/act-pg/src/postgres-store.ts:1479-1548 | with a fresh holder id per claim, a worker that has lost its lease finalizes nothing |
| PostgresRuns.GrantHasWorkExactly | libs/act-pg/src/postgres-store.ts:1282-1304 | every row a commit grants was locked, after passing the recheck, by a step of its own worker and held since; it gets the holder, the expiry counted from the transaction's clock and one more try, and it has work iff it had work at that lock |
| PostgresRuns.GrantedHasWork | libs/act-pg/src/postgres-store.ts:1240-1304 | a row read with work is granted with work unless a step in between has moved its watermark up to its mark |
| PostgresRuns.GrantWithoutWork | libs/act-pg/src/postgres-store.ts:1287-1295 | two workers read one row, the first claims it and acks up to the mark, and the second is granted it with nothing left to do |
| PostgresCommit.NoLateArrivals | libs/act-pg/src/postgres-store.ts:995-1102 | nothing becomes visible with an id at or below one already visible |
| PostgresCommit.ReaderSkipsNothing | libs/act-pg/src/postgres-store.ts:995-1005 | whatever a later read finds at or below the last id an earlier page returned was already in that page |
| PostgresVersions.Linearizable | libs/act-pg/src/postgres-store.ts:1018-1143 | in runs whose truncates are careful, each stream's versions are contiguous in id order, a commit lands only on the head it was computed from and only on the expected one, and a failed commit adds nothing |
| PostgresVersions.CarefulExactly | libs/act-pg/src/postgres-store.ts:2384-2451 | after any such run a truncate leaves every truncate-free continuation contiguous iff it is careful: a full one finds no commit to the stream in flight past version 0, a windowed one only commits at the head or reaching its boundary |
| PostgresVersions.ContiguousExactly | libs/act-pg/src/postgres-store.ts:1096-1102 | over any run at all, every stream stays contiguous throughout iff every publish goes on top of the head |
| PostgresVersions.AtomicExactly | libs/act-pg/src/postgres-store.ts:1018-1143 | a publish is the atomic commit of its request iff its base is still the head |
| PostgresVersions.PublishStores | libs/act-pg/src/postgres-store.ts:1039-1102 | a publish appends one row per message, with that message's name and data, the next version after the base and the ids drawn for it |
| PostgresVersions.ConflictExactly | libs/act-pg/src/postgres-store.ts:1131-1143 | the unique index refuses an insert iff its versions meet those the stream still has; a base above the head goes unseen, and so does one too far below the first version |
| PostgresVersions.RunDense | libs/act-pg/src/postgres-store.ts:1018-1102 | without truncates a stream's versions are exactly 0..N-1 |
| PostgresVersions.FullTruncateRace | libs/act-pg/src/postgres-store.ts:2407-2417 | a run in which a commit expecting version 1 succeeds on a stream a full truncate has restarted at 0, leaving versions 0 and 2 |
| PostgresVersions.WindowedTruncateRace | libs/act-pg/src/postgres-store.ts:2428-2445 | a run in which a commit expecting an empty stream succeeds on one whose head is 1, leaving version 0 after version 1 |
| PostgresCommit.RunKeeps | libs/act-pg/src/postgres-store.ts:1096-1102 | ids are drawn only under the lock, so pending rows lie above every visible one |
| Correlator.PositionsOnlyRise | libs/act-sqlite/src/sqlite-store.ts:793-851 | after any run, one more call lowers no position, leaves other keys alone, keeps each key at or below the shared row, and leaves winner and loser at or past the position they reported |
| Correlator.LeaseExclusive | libs/act-sqlite/src/sqlite-store.ts:801-826 | at most one holder has a live lease per key |
| Correlator.LeaseTakenExactly | libs/act-sqlite/src/sqlite-store.ts:807-826 | a call takes the lease iff no other holder has a live one |
| WorkMark.MarkAgreesWithProbe | libs/act-tck/src/store-tck.ts:255-297 | in runs without truncate whose callers mark a row only with the id of an event in its window, a claimable row has an event due past its watermark; right after a pass a listed row is claimable iff it has one |
| WorkMark.ReadsExactly | libs/act-tck/src/store-tck.ts:246-287 | a subscription reads every stream without a source or with an empty one, the stream of that name for a source free of regex syntax, and otherwise the streams a portable pattern finds itself in |
| WorkMark.PatternAgreesWithProbe | libs/act-tck/src/store-tck.ts:255-297 | right after a pass a listed row with a pattern source is claimable iff an event that is no snapshot lies past its watermark on a stream the pattern, as a regular expression, finds itself in |
| WorkMark.CorrelateFindsWork | libs/act-tck/src/store-tck.ts:274-296 | after a pass over any log, a listed row with an event due is claimable |
| WorkMark.MarkIsHighest | libs/act-tck/src/store-tck.ts:279-287 | the running maximum is the highest id in the fetch window, or -1 |
| Correlate.Correlate | libs/act-tck/src/store-tck.ts:255-297 | the helper's loops and its one `subscribe` call change exactly the marks of the listed rows, and nothing else in the subscription or checkpoint table |
| Correlate.HighestInWindow | libs/act-tck/src/store-tck.ts:279-287 | the callback's running maximum is the mark of the window |
| Replay.SnapshotReadIsFullReplay | libs/act-sqlite/src/sqlite-store.ts:663-690 | through any run of commits, snapshots and truncates, folding the floored read gives the fold of every domain event since the last full truncate |
| Replay.WarmReadCatchesUp | libs/act-sqlite/src/sqlite-store.ts:662-690 | a state cached at any point of the stream's present history plus the events after its checkpoint gives the same fold |
| WarmReads.WarmReadExactly | libs/act-sqlite/src/sqlite-store.ts:662-690 | a state cached at any earlier point of the run catches up if the stream was not truncated in full since; if it was, iff a snapshot rebaselines it or its fold meets the initial state's, so always when it is the initial state, and on a bare tombstone only then |
| WarmReads.WarmForAnyReducer | libs/act-sqlite/src/sqlite-store.ts:662-690 | past a tombstone without a snapshot since, the cached state folds to the right one under every reducer iff it is the initial state |
| WarmReads.TombstoneLeavesCacheStale | libs/act-sqlite/src/sqlite-store.ts:662-690 | commit one event, cache, retire the stream: for every reducer the event moves off the initial state the warm read is wrong |
| Replay.WindowedInvisible | libs/act-sqlite/src/sqlite-store.ts:1688-1729 | a windowed truncate leaves every floored read, every fetch at or past `max_id` and every other stream unchanged |
| Replay.RunContiguous | libs/act-sqlite/src/sqlite-store.ts:1688-1766 | over any run each stream's versions stay a contiguous interval rising with id |
| EventLog.MaxVersionIsLast | libs/act-sqlite/src/sqlite-store.ts:561-565 | the head the commit reads is the version of the stream's last row, or -1 |
| EventLog.FloorIsLatest | libs/act-sqlite/src/sqlite-store.ts:665-674 | the floor is the id of the stream's latest snapshot, or -1 |
| EventLog.WindowedOf | libs/act-sqlite/src/sqlite-store.ts:1694-1713 | a windowed truncate drops a prefix of its stream that ends just before a qualifying snapshot, and nothing else |
| EventLog.FullOf | libs/act-sqlite/src/sqlite-store.ts:1730-1766 | a full truncate leaves its stream with the seed alone and every other stream as it was |
| Paging.NamePage | libs/act-sqlite/src/sqlite-store.ts:1285-1290 | a page is the first names past the cursor, all of them when it is short |
| Paging.LessExactly | libs/act-sqlite/src/sqlite-store.ts:1285-1290 | the order of names is dictionary order by character |
| Paging.PastLast | libs/act-sqlite/src/sqlite-store.ts:1285-1290 | the names past a page's last name are exactly the rest |
| Paging.WalkNames | libs/act-sqlite/src/sqlite-store.ts:1285-1290 | for any limit of at least one, chained pages concatenate to the ordered names, each once |
| Paging.WalkIds | libs/act-pg/scripts/iterate-pagination-rss.ts:135-159 | for any limit of at least one, the event-id loop ends and yields the unpaged read |
| QueryStats.QueryStats | libs/act-sqlite/src/sqlite-store.ts:1349-1427 | whichever path is taken, the result lists the matching streams in name order up to the limit, each with its highest and lowest matching version, its number of matching events and its counts by name; only an unportable pattern is refused |
| QueryStats.HeadsOnly | libs/act-sqlite/src/sqlite-store.ts:1433-1513 | the ranked and limited heads, and the tail query with its own ranked and limited subselect, merged by stream in any order, give the limited streams with head and tail and no aggregates |
| QueryStats.FullScan | libs/act-sqlite/src/sqlite-store.ts:1521-1647 | the limited heads joined to the aggregates and tails of every stream give the same, and counts that add up over the names |
| QueryStats.PathsAgree | libs/act-sqlite/src/sqlite-store.ts:1433-1647 | on any well-formed event table, for every filter, exclude list, bounds and limit, answers of the two queries name the same streams in the same order with the same head and tail |
| QueryStats.BothPaths | libs/act-sqlite/src/sqlite-store.ts:1410-1427 | calling the query without and with aggregates takes the two paths, and what they return agrees |
| QueryStats.Scan | libs/act-sqlite/src/sqlite-store.ts:1375-1408 | the compiled `WHERE` keeps exactly the events the filter means, a pattern read as a regular expression |

## Left out

- `restore`, `forget_pii`, encryption of pii and the framing of encrypted payloads.
- Notifications, reconnection, connection pooling, driver errors and rollback on them; a transaction that fails leaves the tables as they were.
- Schema creation, migrations, `seed` beyond the initial state, and the migration's over-estimate of work marks.
- The columns `meta`, `pii` and the correlation id, and the `query` filters by name, date and direction.
- A read of the empty stream name, which the source treats as no stream filter.
- JavaScript details: inherited property names, an own key named `constructor`, key order, UTF-16, line breaks under `.`, and dates compared as ISO text.
- Structural sharing of unpatched subtrees: values have no identity beyond what the equality test of `delta` sees.
- Negative budgets.
- The Postgres `ack`, `block`, `defer`, `reset`, `unblock` and `subscribe` are single row steps beside the interleaved claim; their SQL is not modelled on its own. The `lagging` flag Postgres gives a stream on both frontiers is arbitrary and not modelled.
- The early return of the Postgres `commit` for no messages, and its refusal of NUL bytes.
- The Postgres correlation lease, which differs from SQLite's only in how a release is written; the SQLite upserts are the ones modelled.
- Correlate.Correlate: the source lists at most a thousand rows, and so does the model; rows past that are not marked.
- Paging.WalkNames: the table is fixed while the pages are read.
- Fairness.BoundedWait: `Fairness` runs hold one step per claim or row operation and a fixed set of subscriptions; resets are excluded, as they move a watermark back, and so are late acks of the waiting stream itself.
- PostgresVersions.Linearizable: holds of careful truncates only; what a careless one does is `PostgresVersions.CarefulExactly` and the two races.
- WorkMark.MarkAgreesWithProbe: runs with truncates are left out, as one can remove the event a mark names.
- The JSON form of values in the tables, and date revival on reading them.
