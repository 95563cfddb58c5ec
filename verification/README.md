# A verified model of the trading system's operational scripts

Dafny 4.11 model of four parts of the system, with proofs about whole runs. `dafny verify dfyconfig.toml` checks everything.

1. **The quota-gated provider call.** One attempt writes `http_started` before its POST and a terminal record after it.
   The bounded driver and the dispatcher repeat attempts under the shared quota ledger and the global HTTP-start gate.
   `FdcAttempt` holds the executor and both drivers as methods over a log, with the coordinator, the provider and the recording calls as an arbitrary script;
   `FdcDriverLaws` relates the drivers and `FdcAttemptLaws` says what attempts and runs come to, status code by status code; `FdcQuota` is the Postgres ledger as atomic transactions, `FdcQuotaLaws` their exact answers and effects, and `FdcCoordinator` the check in front of it;
   `FdcRestart` puts the dispatcher in front of the ledger; `FdcSystem`, `FdcSystemLaws`, `FdcHistories` and `FdcGateLag` interleave any number of callers, which may crash anywhere, over it.
2. **Index memberships.** `SeedBuild` turns a source package into sorted rows, `SeedLoad` groups the rows, `SeedImport` drives the membership table to them. `Text` has `strip`, `upper` and string order.
3. **The signal-feature input job.** `SignalFetch` is the fetch loop, `SignalRounds` a round and its tail retries, `SignalFreeze` the frozen universe.
4. **Repair batches.** `Canonical` (KRX twins of KOSPI/KOSDAQ instruments), `BuyBackfill` (capped BUY quantities), `ExpiredOrders` (classification and repair) and `RetryReconciliation` (unlinked orders).

Methods follow the scripts statement by statement and are proved against specification functions; the lemmas are about those functions. Lemmas named `...Exactly` pin a specification function down with the source's own constants and columns, without its helper definitions.
Each SQL statement or transaction is one step. Clocks, generated ids, HTTP results, database failures and calendar answers are parameters.

Where code and comments, or code and intention, differ, the model follows the code:

- The comment before the dispatcher's backoff reset (scripts/fdc_manual_provider_gate.py:469) names grants and denials; only a grant resets it. The sleeps are those of the comment if and only if the backoff never moves (initial is 0 or the cap) or no error is read after an error and a denial with no grant between (`FdcDriverLaws.SleepsResetOnDenialIff`, `FdcDriverLaws.DenialDoesNotReset`).
- The two drivers agree exactly when the limit is at least one: below that the dispatcher still makes one attempt while the bounded driver fails its assertion (`FdcDriverLaws.DispatchRefinesBounded`, `FdcDriverLaws.LimitAllowsOne`).
- A handed-over grant keeps its history in the documented shape, in every continuation, if and only if it has no record yet and nobody else holds it (`FdcHistories.HandoverIsSafeIffClean`). A client that is handed a used grant sends nothing but overwrites the outcome of the finished attempt (`FdcHistories.GrantReuseRun`); of two clients that hold one unused grant, one starts and the other closes over it (`FdcHistories.TwoHoldersRun`).
- A dispatcher polls forever, whatever the other callers do, if and only if its attempt number is taken, the anchor row is missing or its quota is below one (`FdcRestart.PollsForeverIffHopeless`). It always starts at attempt 1, so one started again for a job that had a grant can only poll (`FdcRestart.RestartedDispatcherWaitsForever`, `FdcRestart.RestartRun`).
- The capped doubling min(initial * 2^k, cap) is what the dispatcher sleeps if and only if initial <= cap or it meets no coordinator error: the first wait is not capped (`FdcDriverLaws.DispatchSleeps`).
- The global gate limits grants, not POSTs: physical POSTs obey it only in windows shortened by the longest delay between grant and POST, and that is the best possible bound (`FdcSystemLaws.GatedPostRate`, `FdcGateLag.LagBoundIsTight`).
- A membership code seen only on unresolved symbols is not snapshotted (`SeedImport.OtherCodesAreKept`).
- A second identical import changes nothing, for all tables and lookups, if and only if no two listings of a seed symbol tie for first place in the lookup's order (`SeedImport.IdempotentIff`, `SeedImport.TiedListingsMove`).
- Canonicalisation deletes memberships held by a mapped KOSPI/KOSDAQ row with that row (`Canonical.MembershipsSurviveIffUnmapped`), and is refused and rolled back exactly when two rows of one unique key meet under the KRX row (`Canonical.UpdateRefusedIff`, `Canonical.TwinItemsRefuseTheRun`) or a realized P&L ledger refers to a mapped legacy row or to a bare KRX row that nothing else reaches (`Canonical.BlockedIff`, `Canonical.LedgerRefusesTheRun`).
- The comment on one-share reconstructions (scripts/backfill_buy_trade_decision_quantity.py:289-290) says they are kept; the batch replaces them by the default quantity. A reconstruction is what the batch writes if and only if a fifth of the cash buys two shares and, for a new position, reaches the threshold (`BuyBackfill.ReconstructionIsKeptIff`, `BuyBackfill.OneShareBecomesDefault`).
- `run_retry` documents exit code 0 as success, but a failed link insert alone leaves it at 0; the code tells whether every target was linked if and only if some run insert fails or no link insert does (`RetryReconciliation.ExitCodeIsHonestIff`, `RetryReconciliation.FailedLinkExitsZero`).

## Model

| member | source | states |
|---|---|---|
| FdcAttempt.Desk.OnHttpStart | scripts/fdc_manual_provider_gate.py:327-344 | The start callback raises exactly when the gate denies or the start record fails; only otherwise is the start recorded and the flag set |
| FdcAttempt.Desk.GenerateOnce | src/agent_trading/services/ai_agents/provider_client.py:581-650 | The one-shot client POSTs at most once, directly after a callback that returned, and not at all when preparing or the callback fails |
| FdcAttempt.Desk.ExecuteOneShot | scripts/fdc_manual_provider_gate.py:290-398 | Records, POST and result of one attempt for every provider result and every failing record, as the value `Attempt` |
| FdcAttempt.Desk.GeneratePreGranted | scripts/fdc_manual_provider_gate.py:558-624 | A pre-granted client makes exactly one attempt and passes its failure on |
| FdcAttempt.Desk.CallWithCoordinator | scripts/fdc_manual_provider_gate.py:185-281 | The bounded driver's log, result and unread replies on every script equal `Bounded` |
| FdcAttempt.Desk.RunRealDispatchJob | scripts/fdc_manual_provider_gate.py:401-487 | The dispatcher's log with sleeps, result and unread replies on every script equal `Dispatch` |
| FdcDriverLaws.DispatchRefinesBounded | scripts/fdc_manual_provider_gate.py:245-487 | Stuttering refinement: grants, attempt numbers, records, POSTs and result of the dispatcher are those of the bounded driver on the script without denials and errors, if and only if the limit is at least one |
| FdcDriverLaws.LimitAllowsOne | scripts/fdc_manual_provider_gate.py:480-485 | A dispatcher limit that is already reached or below one acts as one more attempt |
| FdcDriverLaws.NeverGivesUp | scripts/fdc_manual_provider_gate.py:445-487 | The dispatcher never ends with an unavailable quota |
| FdcDriverLaws.BoundedUsesPrefix | scripts/fdc_manual_provider_gate.py:245-281 | Independent description of the bounded driver on grants: it uses a prefix, each grant once and in order, stops at the first attempt that is not retryable or at the limit, and returns that attempt's result |
| FdcDriverLaws.DispatchCountsGrants | scripts/fdc_manual_provider_gate.py:445-487 | The attempt number of every reservation call is one more than the grants before it; at most `max` grants are consumed; only a grant ends the job |
| FdcDriverLaws.DispatchSleeps | scripts/fdc_manual_provider_gate.py:441-470 | The whole list of sleeps: the poll interval after a denial, the k-th backoff after the k-th error since the last grant, whatever denials lie between; equal to min(initial * 2^k, cap) throughout if and only if initial <= cap or no error was read |
| FdcDriverLaws.BackoffDoubles | scripts/fdc_manual_provider_gate.py:463-466 | Doubling with a cap steps from the k-th backoff to the next |
| FdcDriverLaws.SleepsResetOnDenialIff | scripts/fdc_manual_provider_gate.py:453-470 | The sleeps are those of a backoff that grants and denials both reset if and only if initial is 0 or the cap, or no error follows an error and a denial with no grant between |
| FdcDriverLaws.DenialDoesNotReset | scripts/fdc_manual_provider_gate.py:453-470 | A concrete script whose sleeps differ from those |
| FdcDriverLaws.AttemptHistory | scripts/fdc_manual_provider_gate.py:346-398 | An attempt's records are complete exactly when its closing record commits, else a proper prefix; POST exactly when the start is recorded; success and retry are told by the records |
| FdcAttemptLaws.FailedPostExactly | scripts/fdc_manual_provider_gate.py:372-391 | A failed POST is retried with its own failure and recorded http_failed_retryable if and only if the failure is a transport failure, status 429 or a status from 500 to 599; otherwise it is raised and recorded http_failed_final |
| FdcAttemptLaws.AnsweredPostExactly | scripts/fdc_manual_provider_gate.py:392-398 | An answered POST is recorded http_succeeded and returns its body |
| FdcAttemptLaws.UnsentExactly | scripts/fdc_manual_provider_gate.py:359-371 | A request that does not leave is recorded reserved_but_http_not_started and retried with what stopped it: preparation, else gate, else start record |
| FdcAttemptLaws.UnclosedExactly | scripts/fdc_manual_provider_gate.py:346-398 | A failing closing record ends the job with its failure |
| FdcAttemptLaws.BoundedEndsAt | scripts/fdc_manual_provider_gate.py:245-281 | The bounded driver goes on exactly while attempts are to be retried and the limit is not reached, and returns the body or raises the failure of its last attempt |
| FdcAttemptLaws.DispatchEndsAt | scripts/fdc_manual_provider_gate.py:443-487 | The same for the dispatcher on every script |
| FdcAttemptLaws.BoundedGivesUp | scripts/fdc_manual_provider_gate.py:245-262 | The bounded driver stops at the first denial or coordinator error |
| FdcAttemptLaws.TemporaryFailureUsesNextGrant | scripts/fdc_manual_provider_gate.py:480-485 | A 429, 5xx or transport failure with attempts left uses the next grant under the next number |
| FdcAttemptLaws.ServerErrorIsRetriedNotFoundIsNot | src/agent_trading/services/ai_agents/provider_client.py:92-94 | A 503 is retried, a 404 is final |
| FdcDriverLaws.DispatchHistories | scripts/fdc_manual_provider_gate.py:472-485 | In every dispatcher run each used grant has exactly the history of its own single attempt and every other grant has none |
| FdcDriverLaws.DecidesFrom | scripts/fdc_manual_provider_gate.py:445-487 | Termination by the lexicographic measure (attempts left, replies before the next grant) |
| FdcDriverLaws.DispatchTerminates | scripts/fdc_manual_provider_gate.py:445-487 | On every stream with finitely many non-grants between grants the dispatcher finishes, for every limit |
| FdcQuota.QuotaRepository.constructor | db/migrations/0068_add_fdc_quota_lifecycle_tables.sql:1-120 | A new ledger is empty and anchored |
| FdcQuota.QuotaRepository.TryReserve | src/agent_trading/repositories/postgres/fdc_quota.py:79-199 | The reservation transaction: window count, FIFO check, denial and permit counters, refused inserts, as `AnswerTo` and `Step` |
| FdcQuota.QuotaRepository.RecordAttemptOutcome | src/agent_trading/repositories/postgres/fdc_quota.py:201-286 | A second start record of one reservation is refused; otherwise the outcome, and for a start its time, are written |
| FdcQuota.QuotaRepository.AcquireGlobalGate | src/agent_trading/services/fdc_provider_global_gate.py:68-112 | Settings outside the contract are refused before the table is read; then a permit is granted if the window has room |
| FdcQuotaLaws.GrantedExactly | src/agent_trading/repositories/postgres/fdc_quota.py:79-199 | A reservation is granted if and only if the transaction does not fail, the anchor is there, fewer than rpm rows are later than the window's start, no QUEUED job has a lower sequence, the id is new, the job is known and its attempt number unused |
| FdcQuotaLaws.DeniedExactly | src/agent_trading/repositories/postgres/fdc_quota.py:137-165 | It is denied if and only if the window is full or a QUEUED job is ahead; so a denial with room means a QUEUED job ahead |
| FdcQuotaLaws.FirstInQueueIsGranted | src/agent_trading/repositories/postgres/fdc_quota.py:137-150 | With room, a job is granted if and only if every job of lower sequence holds a grant or has ended |
| FdcQuotaLaws.ReserveEffects | src/agent_trading/repositories/postgres/fdc_quota.py:79-199 | Row, status and counters after a grant, a denial and an error; nothing else changes |
| FdcQuotaLaws.RecordEffects | src/agent_trading/repositories/postgres/fdc_quota.py:201-286 | Which records are refused and exactly what an accepted one writes |
| FdcQuotaLaws.GateExactly | src/agent_trading/repositories/postgres/fdc_quota.py:704-770 | Grant and denial of the gate in numbers: 1 to 13 per 60 seconds |
| FdcQuotaLaws.JobEffects | src/agent_trading/repositories/postgres/fdc_quota.py:401-650 | Registering, requeueing and ending a job |
| FdcQuota.InsertKeepsCap | src/agent_trading/repositories/postgres/fdc_quota.py:116-124 | Counting rows later than the window start, without an upper end, keeps every window capped even when times are inserted out of order |
| FdcQuota.QuotaNeverExceeded | src/agent_trading/repositories/postgres/fdc_quota.py:79-199 | No run of any callers puts more than the target number of reservations into any window |
| FdcQuota.GateNeverExceeded | src/agent_trading/repositories/postgres/fdc_quota.py:704-770 | No run puts more than 13 gate grants into any 60 seconds whatever the callers' settings, nor more than any lower limit they all respect |
| FdcQuota.NoOvertaking | src/agent_trading/repositories/postgres/fdc_quota.py:79-199 | While a queued job waits, no run grants a reservation to a job behind it |
| FdcQuota.StepKeepsAccounts | src/agent_trading/repositories/postgres/fdc_quota.py:79-199 | Every transaction keeps the keys and each job's balance |
| FdcQuota.AccountsAlwaysBalance | src/agent_trading/repositories/postgres/fdc_quota.py:79-199 | In every run a job's permits equal its attempt rows and its polls equal permits plus denials |
| FdcQuota.RowsEvolve | src/agent_trading/repositories/postgres/fdc_quota.py:201-286 | Over every run a reservation is never deleted or re-dated and its start time is written at most once |
| FdcQuota.AttemptNumberIsSpent | db/migrations/0068_add_fdc_quota_lifecycle_tables.sql:107-109 | A (job, attempt number) pair is granted at most once in all continuations |
| FdcRestart.PollsForeverIffHopeless | scripts/fdc_manual_provider_gate.py:441-487 | Over all runs of the ledger with any other callers, a dispatcher never gets a grant, and only asks and sleeps, if and only if its attempt number is taken, the anchor row is missing or its quota is below one |
| FdcRestart.RestartedDispatcherWaitsForever | scripts/fdc_manual_provider_gate.py:442-470 | After a grant of attempt 1 and anything after it, a dispatcher started again for that job polls forever |
| FdcRestart.RestartRun | scripts/fdc_manual_provider_gate.py:442-470 | A concrete run from the empty ledger: before the grant the dispatcher can finish, after it one started again cannot |
| FdcRestart.GrantSpends | db/migrations/0068_add_fdc_quota_lifecycle_tables.sql:107-109 | Every grant to a job makes that attempt number taken, so the previous statement applies from then on |
| FdcCoordinator.CoordinatedReserve | src/agent_trading/services/fdc_quota_coordinator.py:114-160 | A caller whose id starts with manual: and has no policy or meets a trading day gets an error, with a failing calendar its failure, both without touching the ledger; every other request is the repository's |
| FdcCoordinator.BarredCallersAreInvisible | scripts/fdc_manual_provider_gate.py:145-164 | Deleting barred manual requests from any run changes neither the ledger nor any other caller's replies |
| FdcSystem.ApplyKeepsInv | scripts/fdc_manual_provider_gate.py:290-398 | Every step of every caller keeps: a safe log, a ledger that matches it, and at most one caller between start record and POST of a reservation |
| FdcSystem.PlayKeepsInv | scripts/fdc_manual_provider_gate.py:290-398 | The invariant holds in every reachable state |
| FdcSystemLaws.PostsAreSafe | scripts/fdc_manual_provider_gate.py:327-358 | In every prefix of every interleaving each POST has its own reservation, issued and recorded as started before it, none is POSTed twice, and POSTs never outnumber grants |
| FdcSystemLaws.PostsWithinQuota | src/agent_trading/repositories/postgres/fdc_quota.py:79-199 | No window of reservation times holds more POSTed reservations than the target |
| FdcSystemLaws.PlayKeepsGateInv | src/agent_trading/services/fdc_provider_global_gate.py:68-112 | In every interleaving each gate permit covers at most one POST |
| FdcSystemLaws.GatedPostRate | src/agent_trading/services/fdc_provider_global_gate.py:38-112 | If gated POSTs leave at most `lag` after their permit, no window of 60 seconds minus `lag` holds more than the limit |
| FdcGateLag.LagBoundIsTight | src/agent_trading/services/fdc_provider_global_gate.py:38-112 | For every limit the gate accepts, 1 to 13, and every positive lag up to 60 seconds, a run has limit + 1 POSTs in a window one microsecond longer |
| FdcHistories.AllHistories | scripts/fdc_manual_provider_gate.py:346-398 | In every interleaving of drivers and of gated or ungated pre-granted clients, with gate denials, crashes and failing records, every reservation's history is complete or a proper prefix of a complete one, if each grant is handed over unused and unshared |
| FdcHistories.RowsShowLastRecord | src/agent_trading/repositories/postgres/fdc_quota.py:201-286 | In every run the outcome column of a reservation is the last outcome recorded for it |
| FdcHistories.HandoverIsSafeIffClean | scripts/fdc_manual_provider_gate.py:558-624 | After any such run, handing a grant to an idle client keeps its history in shape in every continuation if and only if it has no record and no other holder |
| FdcHistories.TwoHoldersRun | scripts/fdc_manual_provider_gate.py:327-361 | A concrete run of two holders of one unused grant with history http_started, reserved_but_http_not_started |
| FdcHistories.SoloAttempt | scripts/fdc_manual_provider_gate.py:290-398 | The interleaved machine, played alone, with or without the gate, writes exactly the log of the sequential executor |
| FdcHistories.FullAttemptIsCompleteIffUnused | scripts/fdc_manual_provider_gate.py:591-624 | A gated or ungated client that alone runs a grant to the end leaves a complete history if and only if the grant had no record |
| FdcHistories.ReusedGrantOverwritesHistory | scripts/fdc_manual_provider_gate.py:346-361 | A client, gated or not, with a grant whose start is recorded sends nothing and appends reserved_but_http_not_started to whatever the history was |
| FdcHistories.GrantReuseRun | scripts/fdc_manual_provider_gate.py:558-624 | A concrete reachable run with that history |
| SeedBuild.LoadManifest | scripts/build_index_membership_seed_from_source_package.py:69-106 | Accepts exactly the manifests with header fields, entries, supported codes and file paths; the header fields are the stripped inputs, the entries normalised |
| SeedBuild.EntryExactly | scripts/build_index_membership_seed_from_source_package.py:78-96 | Which entries are accepted, with the four codes, and what is kept of them |
| SeedBuild.LoadSymbols | scripts/build_index_membership_seed_from_source_package.py:109-127 | The symbols of a file: normalised, non-empty, each once, exactly those listed |
| SeedBuild.IndexEntry | scripts/build_index_membership_seed_from_source_package.py:136-146 | The index after one more entry holds each symbol's codes once and the note of the first entry listing the pair |
| SeedBuild.BuildSeedRows | scripts/build_index_membership_seed_from_source_package.py:130-163 | Rows strictly sorted by (symbol, code), one per membership and no other, with the first note |
| SeedBuild.CellGivesRow | scripts/build_index_membership_seed_from_source_package.py:136-163 | Every non-blank cell gives a row with its normalised symbol, its code, the manifest's source and date and the note of the first entry listing it |
| SeedBuild.RowHasCell | scripts/build_index_membership_seed_from_source_package.py:136-163 | Every row comes from such a cell |
| Text.StripExactly | scripts/build_index_membership_seed_from_source_package.py:109-127 | Stripping cuts exactly the white space at both ends |
| Text.UpperExactly | scripts/build_index_membership_seed_from_source_package.py:109-127 | Upper-casing changes exactly the letters a to z |
| Text.LessExactly | scripts/build_index_membership_seed_from_source_package.py:148-163 | The sort order is lexicographic |
| SeedLoad.LoadSeedRows | scripts/import_instrument_index_membership_seed.py:128-193 | Accepts exactly the files whose rows are supported, dated and agree per symbol; groups exactly their codes |
| SeedLoad.LoadedExactly | scripts/import_instrument_index_membership_seed.py:128-193 | In terms of the file: accepted if and only if every row read has one of the four codes and no bad date and the rows of a symbol agree in source, date and note; a symbol has a code if and only if a row says so |
| SeedLoad.AcceptanceOfBuiltRows | scripts/import_instrument_index_membership_seed.py:143-193 | Built rows are acceptable if and only if there are none, or the date parses and each symbol's notes agree |
| SeedLoad.BuildLoadRoundTrip | scripts/import_instrument_index_membership_seed.py:143-193 | Round trip: loading built rows recovers for each symbol exactly the codes of the entries listing it and the manifest's metadata |
| SeedLoad.BuildAndLoad | scripts/build_index_membership_seed_from_source_package.py:130-163 | The same for the builder followed by the loader |
| SeedImport.MembershipTable.Sync | src/agent_trading/repositories/postgres/instrument_index_memberships.py:21-111 | The instrument's active codes become exactly the given ones; no other instrument changes |
| SeedImport.MembershipTable.ListActive | src/agent_trading/repositories/postgres/instrument_index_memberships.py:113-127 | Exactly the active codes of an instrument |
| SeedImport.MembershipTable.ListInstruments | src/agent_trading/repositories/postgres/instrument_index_memberships.py:151-165 | Exactly the instruments with an active code |
| SeedImport.MembershipTable.ImportListed | scripts/import_instrument_index_membership_seed.py:212-250 | The first loop, for every order of the symbols: the table, the target map and the counters in closed form |
| SeedImport.MembershipTable.CloseAll | scripts/import_instrument_index_membership_seed.py:254-281 | The snapshot loop, for every order of the codes, removes exactly the stale pairs and counts pairs |
| SeedImport.MembershipTable.ApplySeed | scripts/import_instrument_index_membership_seed.py:196-289 | The whole import, lookups included, equals a closed form that does not mention any iteration order; the counters are exact |
| SeedImport.SnapshotIsExact | scripts/import_instrument_index_membership_seed.py:254-281 | After a snapshot import a code with a resolved symbol is active on exactly the instruments the seed lists for it |
| SeedImport.OtherCodesAreKept | scripts/import_instrument_index_membership_seed.py:225-281 | Every other membership survives exactly unless replace mode drops it from a listed instrument |
| SeedImport.ImportedExactly | scripts/import_instrument_index_membership_seed.py:212-281 | For every mode, table and pair: active afterwards if and only if a resolved seed symbol asks for it, or it was active and neither replace mode nor the snapshot ends it |
| SeedImport.MergeLosesNothing | scripts/import_instrument_index_membership_seed.py:225-252 | A merge import without snapshot loses no membership |
| SeedImport.ImportIsIdempotent | scripts/import_instrument_index_membership_seed.py:196-289 | With the same lookup results a second import changes nothing and deactivates nothing |
| SeedImport.ImportTwice | scripts/import_instrument_index_membership_seed.py:196-289 | Two imports with their own lookups and orders: without ties the second changes and deactivates nothing |
| SeedImport.IdempotentIff | scripts/import_instrument_index_membership_seed.py:196-289 | The import is idempotent for all tables and lookups if and only if no first listing of a seed symbol is tied |
| SeedImport.TiedListingsMove | src/agent_trading/repositories/postgres/instruments.py:72-96 | For every tie, two admissible lookups under which the second import moves the membership |
| SeedImport.LookupsDeterminedIff | src/agent_trading/repositories/postgres/instruments.py:72-96 | The lookups have a single possible result if and only if no first listing is tied |
| SeedImport.GetBySymbolAnyMarket | src/agent_trading/repositories/postgres/instruments.py:72-96 | None exactly if no instrument has the symbol; else one of the symbol that no other beats in the order of the query |
| SeedImport.ChosenExactly | src/agent_trading/repositories/postgres/instruments.py:72-96 | The order of preference tier by tier, then segment, update and creation time |
| SeedImport.ResolvedIsInjective | src/agent_trading/repositories/postgres/instruments.py:72-96 | Two symbols never resolve to one instrument |
| SeedImport.ImportManifest | scripts/import_instrument_index_membership_seed.py:196-289 | From manifest to table: build, load and snapshot import make each carried code active on exactly the instruments the manifest lists; a refused file changes nothing |
| SignalFetch.FetchDailyBars | scripts/generate_signal_feature_snapshot_input.py:414-496 | First success, or first failure that is not retryable or at the limit of its own kind; at most max(limits) calls; exact pauses; the trailing empty return if and only if both limits are below one |
| SignalFetch.EndsExactly | scripts/generate_signal_feature_snapshot_input.py:426-496 | Which failure ends the loop, failure by failure, and under which limit |
| SignalFetch.PauseExactly | scripts/generate_signal_feature_snapshot_input.py:474-476 | The pause before the next call |
| SignalRounds.BuildRows | scripts/generate_signal_feature_snapshot_input.py:287-389 | The items of KRX, KOSPI and KOSDAQ whose fetch brought at least 20 bars become rows, in order; all others become errors, in order, with unsupported_market, insufficient_bars or the fetch's own code; exactly the items of those markets are fetched |
| SignalRounds.SplitKeys | scripts/generate_signal_feature_snapshot_input.py:315-389 | A key is a row key if and only if some item with it had enough bars on a supported market, and an error key if and only if some had not |
| SignalRounds.RoundPartitions | scripts/generate_signal_feature_snapshot_input.py:315-389 | The keys of rows and errors together are exactly the keys of the universe |
| SignalRounds.LoadRetryUniverse | scripts/generate_signal_feature_snapshot_input.py:561-617 | One item per non-empty error key, with that key, no duplicates, metadata from the file's own universe |
| SignalRounds.RetryKeys | scripts/generate_signal_feature_snapshot_input.py:582-617 | The keys of the next universe are exactly the non-empty error keys |
| SignalRounds.RetryItemExactly | scripts/generate_signal_feature_snapshot_input.py:606-617 | The last item of the file with the key supplies source type and reason, with their defaults |
| SignalRounds.BenchmarkAddsOnlyItsKey | scripts/generate_signal_feature_snapshot_input.py:827-872 | Adding the benchmark loses no key and adds at most its own |
| SignalRounds.BenchmarkExactly | scripts/generate_signal_feature_snapshot_input.py:863-872 | 069500 on KRX is appended exactly if no item has that symbol |
| SignalRounds.Round | scripts/generate_signal_feature_snapshot_input.py:875-954 | One round from universe to next universe |
| SignalRounds.TailRetry | scripts/generate_signal_feature_snapshot_input.py:582-617 | Over any number of rounds nothing outside the first universe and the benchmark is fetched; the rows are exactly those of items that brought at least 20 bars in some round; every non-empty key has succeeded so or is in the latest errors |
| SignalFreeze.Dedupe | src/agent_trading/services/universe_freeze_dedupe.py:33-52 | Keeps, in order, items from strictly increasing indices, re-ranked from one and pairwise distinct in key and instrument; every dropped item clashes with one kept from an earlier index; counts the dropped |
| SignalFreeze.DedupeIsDetermined | src/agent_trading/services/universe_freeze_dedupe.py:33-52 | That description has only one result, so the first of each key and instrument is kept |
| SignalFreeze.DedupedMeans | src/agent_trading/services/universe_freeze_dedupe.py:33-52 | No two kept items share key or instrument, and every item shares one with a kept item |
| SignalFreeze.FreezeTables.GetLatest | src/agent_trading/repositories/postgres/universe_freeze_runs.py:59-76 | A run of the highest sequence for the date and purpose, or none exactly if there is none |
| SignalFreeze.FreezeTables.Materialize | scripts/generate_signal_feature_snapshot_input.py:751-780 | The composed symbols with an instrument, in order and deduped; one error for each without |
| SignalFreeze.MaterializedIff | scripts/generate_signal_feature_snapshot_input.py:777-781 | Something is frozen if and only if some composed symbol has an instrument |
| SignalFreeze.FoundExactly | scripts/generate_signal_feature_snapshot_input.py:754-776 | The items before deduping, column by column |
| SignalFreeze.FreezeTables.Resolve | scripts/generate_signal_feature_snapshot_input.py:644-824 | Reuses the latest run if it has items, without writing; else adds a run of the next sequence with the deduped items, or fails without writing exactly if there are none |
| SignalFreeze.ResolvesExactly | scripts/generate_signal_feature_snapshot_input.py:654-800 | Reuse and the next sequence over the runs' dates, purposes and sequences; a failure changes nothing |
| SignalFreeze.ResolveKeepsOneRun | scripts/generate_signal_feature_snapshot_input.py:654-824 | Every resolution keeps at most one run, of sequence 1 and with items, per date and purpose |
| SignalFreeze.SameAnswer | scripts/generate_signal_feature_snapshot_input.py:654-675 | After a success every resolution returns the same run and universe and writes nothing |
| SignalFreeze.ResolveAll | scripts/generate_signal_feature_snapshot_input.py:644-824 | From an empty store, for any sequence of calls: one run per date and purpose, every later call gives the first answer, reused, and every answer is a stored run of that date and purpose with its items |
| Canonical.Database.UpdateReferenceTable | scripts/reconcile_instrument_canonical_consistency.py:61-79 | One table's references to mapped legacy rows move to the KRX twin, with the count of such rows, unless two rows would then share a unique key |
| Canonical.Database.DeleteLegacyRows | scripts/reconcile_instrument_canonical_consistency.py:82-95 | Exactly the mapped legacy rows and their memberships go, unless a ledger refers to one |
| Canonical.Database.DeleteOrphanCanonicalRows | scripts/reconcile_instrument_canonical_consistency.py:98-148 | Exactly the bare, unreferenced KRX rows without membership go, unless a ledger refers to one |
| Canonical.Database.Run | scripts/reconcile_instrument_canonical_consistency.py:151-175 | The run fails exactly when a unique key or a ledger's foreign key refuses a statement; it equals `Reconciled` when it succeeds and is applied, and leaves the database unchanged otherwise; the counts are exact |
| Canonical.UpdateRefusedIff | db/migrations/0039_add_universe_freeze_tables.sql:38-39 | An update is refused if and only if two rows of one unique key refer to different instruments of one symbol that become one |
| Canonical.BlockedIff | db/migrations/0053_add_realized_pnl_ledger_tables.sql:31-97 | The deletes are refused if and only if, before the run, a ledger refers to a legacy row with a twin, or to a bare KRX row without membership that no reference reaches directly or through a legacy twin |
| Canonical.LedgerRefusesTheRun | db/migrations/0053_add_realized_pnl_ledger_tables.sql:31-97 | A concrete database on which the run is refused for a ledger |
| Canonical.BlockedIffLedgerWouldDangle | db/migrations/0053_add_realized_pnl_ledger_tables.sql:31-97 | A refusal happens exactly where the deletes would otherwise leave a ledger without its instrument |
| Canonical.TwinItemsRefuseTheRun | db/migrations/0039_add_universe_freeze_tables.sql:38-39 | A concrete database on which the run is refused |
| Canonical.SurvivorsExactly | scripts/reconcile_instrument_canonical_consistency.py:82-148 | Which instruments survive, if and only if, unchanged |
| Canonical.LegacyMovesToKrx | scripts/reconcile_instrument_canonical_consistency.py:61-95 | A KOSPI or KOSDAQ row with a KRX row of its symbol is gone, and every reference to it is a reference to that KRX row |
| Canonical.OthersStay | scripts/reconcile_instrument_canonical_consistency.py:61-95 | References to any other row are unchanged, and a KOSPI or KOSDAQ row without a KRX row survives |
| Canonical.KrxRowGoesIff | scripts/reconcile_instrument_canonical_consistency.py:98-148 | A KRX row goes if and only if it is bare, has no membership, and nothing refers to it or to a KOSPI or KOSDAQ row of its symbol |
| Canonical.CountsExactly | scripts/reconcile_instrument_canonical_consistency.py:61-79 | What the reported counts count, by market |
| Canonical.ReferencesKeepTheirSymbol | scripts/reconcile_instrument_canonical_consistency.py:61-163 | Every reference of every table resolves to the same symbol as before and none dangles |
| Canonical.NoMappedRowSurvives | scripts/reconcile_instrument_canonical_consistency.py:82-95 | No legacy row with a twin survives; unique keys and foreign keys still hold |
| Canonical.ReferencedSymbolsSurvive | scripts/reconcile_instrument_canonical_consistency.py:98-148 | Every symbol referenced before still has an instrument |
| Canonical.MembershipsSurviveIffUnmapped | db/migrations/0041_add_instrument_index_memberships.sql:3-3 | A membership survives, in place, if and only if its instrument is not a mapped legacy row |
| Canonical.MembershipOnLegacyIsLost | db/migrations/0041_add_instrument_index_memberships.sql:3-3 | A concrete database that the run accepts and in which a membership is lost |
| Canonical.ReconcileIsIdempotent | scripts/reconcile_instrument_canonical_consistency.py:151-169 | A second run is not refused and changes nothing |
| BuyBackfill.SharesAreLargestAffordable | scripts/backfill_buy_trade_decision_quantity.py:271-300 | A quantity above one is the largest that a fifth of the cash buys; at least one always; one exactly below the threshold or below two shares |
| BuyBackfill.SharesMonotone | scripts/backfill_buy_trade_decision_quantity.py:271-300 | Non-decreasing in cash and non-increasing in price, across the threshold |
| BuyBackfill.TradeDecisions.NextUpdate | scripts/backfill_buy_trade_decision_quantity.py:378-440 | One row: cache, reconstruction and fallback agree with the batch price of its symbol |
| BuyBackfill.TradeDecisions.ApplyBackfill | scripts/backfill_buy_trade_decision_quantity.py:338-493 | Each symbol is looked up at most once, at its first row with cash data, and all its rows use that price; reconstructed plus defaults is the total |
| BuyBackfill.TradeDecisions.WriteUpdates | scripts/backfill_buy_trade_decision_quantity.py:462-491 | The guarded updates and the skip count |
| BuyBackfill.NewQuantityExceedsOne | scripts/backfill_buy_trade_decision_quantity.py:404-440 | Every new quantity exceeds one |
| BuyBackfill.UpdateExactly | scripts/backfill_buy_trade_decision_quantity.py:237-440 | What is written for a row, in numbers: the largest affordable quantity where a fifth of the cash buys two shares (500,000 for an entry), else 10 for an approval and 100 otherwise |
| BuyBackfill.FirstCashExactly | scripts/backfill_buy_trade_decision_quantity.py:378-402 | At which time a symbol's price is looked up |
| BuyBackfill.WrittenExactly | scripts/backfill_buy_trade_decision_quantity.py:481-491 | A row that held 1 gets exactly its new quantity; every other keeps its own |
| BuyBackfill.CountsAreSizes | scripts/backfill_buy_trade_decision_quantity.py:404-440 | The reconstructed count is the number of reconstructed rows |
| BuyBackfill.ReconstructionIsKeptIff | scripts/backfill_buy_trade_decision_quantity.py:404-440 | With cash and a price, the reconstruction is what is written if and only if a fifth of the cash buys two shares and, for a new position, reaches the threshold |
| BuyBackfill.OneShareBecomesDefault | scripts/backfill_buy_trade_decision_quantity.py:421-440 | A concrete row whose one-share reconstruction is replaced by the default |
| BuyBackfill.BatchUncapsItsRows | scripts/backfill_buy_trade_decision_quantity.py:462-491 | After the write no batch row holds 1, other rows are untouched, writing again changes nothing |
| BuyBackfill.BackfillIsComplete | scripts/backfill_buy_trade_decision_quantity.py:378-491 | For every batch of rows with quantity 1 and every price source: no skip, no row left selected, rerun is a no-op |
| BuyBackfill.CacheIsTransparent | scripts/backfill_buy_trade_decision_quantity.py:375-402 | Cached and uncached batches agree whenever lookups agree across a symbol's rows |
| ExpiredOrders.Classify | scripts/backfill_expired_odno_orders.py:238-372 | The sequence of checks equals a decision table: unusable, conflicting (with the conflict reported first), indirect, then by verdict |
| ExpiredOrders.TargetsAreJustified | scripts/backfill_expired_odno_orders.py:238-372 | filled if and only if verdict filled, direct, conflict-free (so known quantities equal); likewise partially_filled (known fill not above request) |
| ExpiredOrders.RepairExactly | scripts/backfill_expired_odno_orders.py:238-372 | When each repair is made, field by field |
| ExpiredOrders.ManualExactly | scripts/backfill_expired_odno_orders.py:238-372 | What is left to a person |
| ExpiredOrders.ConflictExactly | scripts/backfill_expired_odno_orders.py:258-352 | Which conflict is reported, in the order of the checks |
| ExpiredOrders.OrderTable.ApplyFix | scripts/backfill_expired_odno_orders.py:378-402 | Only an expired row moves, and the result tells whether it did |
| ExpiredOrders.OrderTable.RunBatch | scripts/backfill_expired_odno_orders.py:488-535 | Table, class counts (summing to the total) and applied counts of a dry or real batch |
| ExpiredOrders.OnlyExpiredOrdersMove | scripts/backfill_expired_odno_orders.py:378-402 | A batch moves only expired orders, and only to what the diagnosis of that order justified |
| ExpiredOrders.FirstTargetIsApplied | scripts/backfill_expired_odno_orders.py:488-535 | An expired order moves to the target of its first diagnosis that has one |
| ExpiredOrders.ClassTotalIsSize | scripts/backfill_expired_odno_orders.py:488-535 | The class totals are numbers of orders |
| ExpiredOrders.WantedTotalIsSize | scripts/backfill_expired_odno_orders.py:488-535 | The dry-run totals are numbers of orders that want a status |
| ExpiredOrders.AppliedTotalIsSize | scripts/backfill_expired_odno_orders.py:488-535 | The real totals are numbers of orders that are expired and first of their id to want it |
| ExpiredOrders.DryRunBoundsRealRun | scripts/backfill_expired_odno_orders.py:488-535 | Dry-run counts bound the real ones, with equality if and only if every such order finds its row expired |
| ExpiredOrders.AppliesExactly | scripts/backfill_expired_odno_orders.py:378-402 | An order finds its row expired if and only if it started expired and no earlier order of the same id had a target |
| ExpiredOrders.DryRunIsExact | scripts/backfill_expired_odno_orders.py:488-535 | The dry run predicts both counts if and only if every order with a target is expired and first of its id |
| RetryReconciliation.FindTargetOrders | scripts/retry_failed_reconciliation.py:119-171 | The unlinked reconcile_required orders in order of creation, up to the limit |
| RetryReconciliation.FoundExactly | scripts/retry_failed_reconciliation.py:139-157 | Found if and only if reconcile_required and no link joins it to a requires_reconciliation run |
| RetryReconciliation.FoundInOrder | scripts/retry_failed_reconciliation.py:154-159 | The found orders are in order of creation, and a limit takes the first |
| RetryReconciliation.GroupByAccount | scripts/retry_failed_reconciliation.py:174-179 | Accounts in order of first appearance, each with its own orders in order |
| RetryReconciliation.GroupingPartitions | scripts/retry_failed_reconciliation.py:174-179 | Accounts do not repeat, and an order is in the group of its account and in no other |
| RetryReconciliation.GroupKeepsOrder | scripts/retry_failed_reconciliation.py:174-179 | A group is exactly the orders of its account, in their order |
| RetryReconciliation.AccountsInOrder | scripts/retry_failed_reconciliation.py:174-179 | Accounts come in the order of their first orders |
| RetryReconciliation.Reconciliation.ProcessAccount | scripts/retry_failed_reconciliation.py:276-330 | One account: no run and no link if the run insert fails, else a new run with exactly the links whose insert succeeds |
| RetryReconciliation.Reconciliation.RunRetry | scripts/retry_failed_reconciliation.py:220-353 | A dry run writes nothing; a real one creates exactly the earned links and reports the summary, with runs created plus failed accounts equal to the accounts |
| RetryReconciliation.LinksCreatedExactly | scripts/retry_failed_reconciliation.py:301-323 | The reported link count is the number of target orders whose inserts succeeded |
| RetryReconciliation.ExitCodeTellsFailedRuns | scripts/retry_failed_reconciliation.py:386-408 | The exit code is 1 if and only if the run insert of some target's account failed |
| RetryReconciliation.ExitCodeIsHonestIff | scripts/retry_failed_reconciliation.py:220-353 | Exit code 0 means that every target was linked, if and only if some target's run insert fails or no target's link insert does |
| RetryReconciliation.FailedLinkExitsZero | scripts/retry_failed_reconciliation.py:301-330 | A concrete invocation that leaves an order unlinked and exits with 0 |
| RetryReconciliation.LinkedExactly | scripts/retry_failed_reconciliation.py:139-330 | After an invocation an order is linked if and only if it was, or it was a target and both its inserts succeeded |
| RetryReconciliation.AtMostOneClaimEver | scripts/retry_failed_reconciliation.py:139-340 | Over any number of serial invocations with any limits and failures, an unlinked order gains at most one requires_reconciliation link, never loses it, and is found again exactly while it has none |
| RetryReconciliation.FoundAgainIffFailed | scripts/retry_failed_reconciliation.py:139-157 | After an unlimited invocation an order is found again if and only if it was found and an insert for it failed |

## Left out

- FdcDriverLaws.DispatchSleeps: sleep intervals and the backoff cap are taken to be non-negative reals; float rounding is not modelled.
- FdcSystemLaws.GatedPostRate: the delay between a gate permit and its POST is a hypothesis, as nothing in the code bounds it.
- FdcAttempt.Desk.ExecuteOneShot: a recording call either commits or raises; one that commits and then reports a failure is not modelled.
- FdcQuota.QuotaRepository.TryReserve: one quota scope in real mode; shadow jobs, stale-job cancellation and job resumption would add easy steps.
- FdcCoordinator.CoordinatedReserve: the market-session provider behind the calendar is a parameter.
- SeedBuild.LoadSymbols: `strip` and `upper` are over ASCII; Unicode case folding and white space are not modelled.
- SeedImport.MembershipTable.Sync: effective dates and the metadata columns of a membership are not part of the table; only which memberships are active is, and stored codes are already in normal form.
- SeedImport.MembershipTable.ApplySeed: the instruments do not change during an import.
- SignalRounds.BuildRows: bar normalisation, pacing between batches and error messages; a row keeps its key and bar count.
- SignalFreeze.FreezeTables.Resolve: calls are serial, each in its own transaction, and the freeze metadata and source snapshots of a run are not modelled.
- Canonical.Database.Run: symbol_trade_states and instrument_status_snapshots, which a delete cascades to as it does to memberships, and signal_feature_batch_run_items, whose reference it clears, are not modelled.
- BuyBackfill.SharesAreLargestAffordable: money is exact; Decimal context rounding is not modelled.
- BuyBackfill.TradeDecisions.ApplyBackfill: the price query and the backup table are not modelled.
- BuyBackfill.TradeDecisions.WriteUpdates: for a batch that repeats an id the model writes the first update, where the single SQL statement may pick any; the selection returns primary keys.
- ExpiredOrders.Classify: parsing of quantities and deltas; they arrive as optional numbers, and human-readable reasons are only counted.
- RetryReconciliation.Reconciliation.RunRetry: invocations are serial, generated run ids are fresh, and the worker that later processes the runs is not modelled.
- CSV quoting, JSON encoding, SQL text, connection handling, argument parsing, logging and reports.
- Readiness and gate evaluators, fee and tax overlays, historical fill backfills, legacy-run cleanup, prompt measurement, research and monitoring scripts, and the admin UI: threshold ladders, statistics or plumbing.
