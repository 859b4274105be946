# Ruvicode gateway: a verified model of its money and its responses

A Dafny model of the prepaid-wallet API gateway. It follows the Go code branch by branch and proves what the
code guarantees over all inputs, all runs and all interleavings, and, where a natural claim is false, on what
condition exactly it holds or which input breaks it. `dafny verify dfyconfig.toml` checks everything.

| part | files |
|---|---|
| Credit holds, settlement and spend limits of one user, under every interleaving of single Redis and Postgres commands | `Hold.dfy` (the step machine), `HoldSoundness.dfy`, `SpendLimit.dfy`, `HoldLifetimes.dfy`, `HoldExpiry.dfy`, `Engine.dfy` (the methods of the billing engine, proved against the machine), `HoldOutcomes.dfy` (what they come to, as tables), `HoldEdges.dfy`, `HoldFaults.dfy` |
| The Postgres ledger of all users | `Ledger.dfy` |
| The USDC deposit monitor | `DepositMonitor.dfy`, `MonitorSafety.dfy`, `MonitorEdges.dfy` |
| Prices, costs, estimates and the margin audit | `Costs.dfy`, `Pricing.dfy`, `Reconcile.dfy` |
| Response masking: regular expressions on characters against passes over the JSON tree and one filter of it | `Regex.dfy`, `Json.dfy`, `Scan.dfy`, `Masking.dfy`, `MaskTree.dfy`, `MaskEdges.dfy`, `MaskIntact.dfy`, `MaskFilter.dfy`, `MaskTimes.dfy`, `MaskRepair.dfy`, `MaskSpaces.dfy` |
| The event-stream proxy and its usage capture | `UsageParsing.dfy`, `Sse.dfy`, `SseRefinement.dfy`, `SseEdges.dfy` |
| Upstream key pool, sliding-window limiter, deposit-address allocator | `KeyPool.dfy`, `RateLimit.dfy`, `AddressAllocator.dfy` |
| Options and sums | `Sums.dfy` |

What the environment does is a parameter: `fate`, `fates`, `swept`, `ok`, `reply` and `poll` say which command, query,
credit or write fails and how; clocks are arguments; `decode` is the JSON decoder; `derive` is the BIP-44
derivation, of which only injectivity is used. Code that changes state step by step is a class whose methods
are proved equal to a specification function; the theorems are about that function, so they hold of the methods.

## Model

| member | source | states |
|---|---|---|
| HoldSoundness.HoldsFitTheBalance | internal/billing/engine.go:196-235 | In every state of every interleaving within one lifetime of the balance hash, whatever commands fail except a read of the held field that would have refused, admitted and unreleased estimates sum to at most the cached balance, and the held field is at least the sum of all holds |
| HoldSoundness.HeldIsEverybodys | internal/billing/engine.go:200-235 | It is exactly that sum when no Redis command fails, lost trackers or not |
| HoldSoundness.SettlementIsCovered | internal/billing/engine.go:289-327 | In the same runs, with actual costs within their estimates, whoever reaches settlement finds a wallet row that covers its cost |
| HoldSoundness.NeverRefused | internal/billing/engine.go:305-327 | Hence in those runs the refused-settlement branch is unreachable |
| HoldFaults.MisreadAdmitsTwice | internal/billing/engine.go:225-235 | The excluded failure is real, with no expiry: in a run of commands only, none failing but one or more of the second request before its admission, a held field that cannot be read counts as nothing held, two requests are admitted on the same money and the second is refused at settlement, for every positive balance |
| HoldSoundness.MoveShares | internal/billing/engine.go:200-235 | Every single command moves the wallet by exactly its request's own share and the held field by at least that, exactly unless it fails, and admits only on a held total within the balance, if a failing read of the field is not mistaken for that |
| HoldSoundness.RunKeepsCosts | internal/billing/engine.go:168-254 | No schedule changes a request's key, estimate or cost, or any limit |
| HoldEdges.ReleaseUndoesPreCheck | internal/billing/engine.go:261-269 | Admission followed by ReleaseHold, uninterrupted and with every command succeeding, restores the held amount and every tracker of every key exactly |
| HoldEdges.ReleasedLeavesNoTrace | internal/billing/engine.go:261-269 | In every interleaving of one lifetime in which no Redis command fails, held amount, tracker and recorded spend in the presence of a released request are what all the others make of them |
| HoldEdges.ExpiryAdmitsTwice | internal/billing/engine.go:399-403 | One expiry between two admissions in flight, every command succeeding, admits both on the same money, for every positive balance |
| HoldLifetimes.LiveHoldsFitTheBalance | internal/billing/engine.go:196-235 | Over any number of lifetimes, the hash expiring whenever no request holds anything unsettled and no pending balance exceeds the wallet, the estimates admitted in the current lifetime, those in flight among them, sum to at most the cached balance |
| HoldLifetimes.SettlementStaysCovered | internal/billing/engine.go:289-327 | In all of them, whoever reaches settlement is covered by its wallet row |
| HoldLifetimes.NeverRefusedAgain | internal/billing/engine.go:305-327 | And no request is ever refused at settlement |
| HoldLifetimes.StaleReadIsRefused | internal/billing/engine.go:385-403 | Holding nothing is not enough: with every command succeeding, a balance read before the expiry and written after it lets a request in that settlement refuses, for every positive balance |
| HoldExpiry.ExpiryBreaks | internal/billing/engine.go:399-403 | The converse: from every state of such a run, an expiry while a positive hold is unsettled, or a pending balance exceeds the wallet, is broken by one more request and a schedule of commands that all succeed |
| HoldExpiry.ExpiryIsSafeIff | internal/billing/engine.go:399-403 | The exact condition, costs within estimates and no hold of just zero: after the expiry every further request of a key without limits and every interleaving of succeeding commands keeps estimates in flight within the cached balance and that request unrefused, if and only if no hold is unsettled and no pending balance exceeds the wallet |
| SpendLimit.RecordIdentity | internal/billing/engine.go:329-346 | In every run whatever, recorded spend is the actual cost of the committed requests |
| SpendLimit.TrackerIdentity | internal/billing/engine.go:241-246 | In every reachable state a tracker that is not lost and whose own writes do not fail is estimates in flight plus actual costs of completed requests plus estimates of lost ones; every other command may fail |
| SpendLimit.TrackerIsAtLeast | internal/billing/engine.go:261-269 | With failing roll backs and adjustments as well it is at least that, when costs are within estimates |
| SpendLimit.TrackerAboveSpend | internal/billing/engine.go:366-367 | In those runs tracker minus recorded spend is exactly the unsettled part of every request |
| SpendLimit.NeverBelowSpend | internal/billing/engine.go:347-367 | Such a tracker never shows less than was spent, if no committed request awaiting its adjustment cost more than its estimate |
| SpendLimit.NeverBelowSpendEither | internal/billing/engine.go:261-269 | Nor does one whose roll backs and adjustments fail, if no request of the key costs more than its estimate |
| HoldEdges.UnderestimateHidesSpend | internal/billing/engine.go:362-367 | Without that, for any estimate below the cost, one request on its own, every command succeeding, has its tracker below its spend between commit and adjustment |
| SpendLimit.OvershootBound | internal/billing/engine.go:172-187 | With at most c requests of a key between limit read and tracker increment, tracker plus pending estimates is at most limit + (c-1) estimates, whatever fails, as long as the usage records let nobody past an unreadable tracker that would have refused and no tracker is lost while below zero; requests between such a read and the answer of the records are not counted |
| SpendLimit.SpendBound | internal/billing/engine.go:172-187 | Recorded spend obeys the same bound in those runs, if no increment fails and no tracker is lost either |
| SpendLimit.SerialSpendBound | internal/billing/engine.go:172-187 | In those runs a key with one such request at a time never spends above its limit |
| HoldFaults.UnreadTrackerHidesFlight | internal/billing/engine.go:434-445 | A tracker that cannot be read, every increment succeeding and nothing lost: the usage records miss the request in flight and let past it a request it would have refused, and two requests one after the other spend twice the limit |
| HoldFaults.UnwrittenTrackerHidesFlight | internal/billing/engine.go:243-246 | A failing increment, every tracker that is there being read and none lost: the same |
| HoldFaults.LostTrackerHidesFlight | internal/billing/engine.go:434-445 | A lost tracker, every command succeeding: the same |
| HoldEdges.OvershootIsReached | internal/billing/engine.go:172-187 | The bound is tight: for every c and every estimate within the limit a schedule of c requests ends at limit + (c-1) estimates, in a window just begun when the estimate is the limit |
| Engine.DriveIsASchedule | internal/billing/engine.go:168-254 | An uninterrupted method call is one schedule of the interleaved machine, so its theorems cover the methods |
| Engine.Engine.PreCheck | internal/billing/engine.go:168-254 | Leaves Redis and Postgres as the machine does and returns admitted or refused at the same place, under every combination of failures |
| Engine.Engine.HoldAndTrack | internal/billing/engine.go:196-253 | The hold, the recovery from an expired hash, the availability check and the trackers, every failure included |
| Engine.Engine.GetSpend | internal/billing/engine.go:434-457 | The tracker when it can be read, else the sum of the usage rows, else zero |
| Engine.Engine.CheckSpendLimit | internal/billing/engine.go:172-187 | Refuses exactly when the machine refuses |
| Engine.Engine.SyncBalanceFromPostgres | internal/billing/engine.go:385-405 | Creates a missing wallet, never overwrites a cached balance, leaves held alone, agrees with the machine on success and failure |
| Engine.Engine.ReleaseHold | internal/billing/engine.go:261-269 | New state and outcome are the machine's; with an empty key id the trackers stay |
| Engine.Engine.FinalizeDeduction | internal/billing/engine.go:273-380 | New state and outcome are the machine's for begin, update, insert and commit failures, the refusal, and the charge |
| Engine.Engine.AfterCommit | internal/billing/engine.go:357-369 | A failed cache refresh does not stop the tracker adjustment |
| HoldOutcomes.PreCheckIs | internal/billing/engine.go:168-254 | For every state and every combination of failures, where PreCheck ends is one table of limits, balance and failures, and what it leaves is the hold where it admits or strands it, the trackers where it admits, and at most the wallet balance in the cache |
| HoldOutcomes.AdmittedIff | internal/billing/engine.go:172-235 | When every command succeeds: admitted if and only if both limits allow the estimate and it fits the balance beside what is held; otherwise refused for the limit or for the balance, with nothing held or tracked |
| HoldOutcomes.RefusalGivesTheHoldBack | internal/billing/engine.go:229-235 | A hold that does not fit the cached balance is taken back and nothing else changes |
| HoldOutcomes.RecordedIsTheSum | internal/billing/engine.go:434-457 | The spend in Postgres is the plain sum over the rows of the key, for the daily limit over those of today only |
| HoldOutcomes.ReleaseIs | internal/billing/engine.go:261-269 | For every combination of failures: the hold and each tracker go back as far as their own commands succeed, the trackers only with a key id |
| HoldOutcomes.FailedCallLeavesNothing | internal/handler/chat.go:104-130 | When the upstream call fails, the held amount, every tracker and the records are what they were before the request, if all other commands succeed |
| HoldOutcomes.SettlementIs | internal/billing/engine.go:273-380 | For every state and every combination of failures: charged if and only if covered and committed, lost if and only if covered and the row or the commit fails, given back otherwise, with what each leaves in wallet, rows, cache, hold and trackers |
| HoldOutcomes.OutcomesWhenAllGoesWell | internal/billing/engine.go:168-380 | In every interleaving of succeeding commands within one lifetime no hold is stranded: a finished request was refused for a limit or its balance, charged, or refused at settlement; with costs within estimates one of the first three |
| Ledger.Conservation | internal/billing/engine.go:281-355 | Over every interleaving of all ledger transactions and every failure: balance >= 0, balance + total_spent = total_loaded, total_spent = sum of completed usage rows |
| Ledger.AtMostOnce | internal/monitor/monitor.go:351-390 | A hash is credited once if its row is new and otherwise never; rows stay and stay unique |
| Ledger.LoadedIsAccountedFor | internal/store/wallets.go:24-33 | What was loaded into a wallet is its new top-up rows plus the effective CreditWallet calls |
| Ledger.SpentIsAccountedFor | internal/billing/engine.go:289-303 | Over every run, what was spent is the sum of the costs of the settlements that committed on a wallet whose balance covers them, and the balance is what was loaded less that |
| Ledger.UsageIsAccountedFor | internal/billing/engine.go:305-355 | Each of these leaves a completed row of its cost, each other one that commits a failed row of none, and nothing else leaves any |
| Ledger.CreditNeedsAWallet | internal/store/wallets.go:24-33 | A credit takes effect if and only if the wallet row exists |
| Ledger.PostgresStore.GetWalletBalanceAndHeld | internal/store/wallets.go:16-20 | The two amounts of the row, no row exactly when there is none, or the failure of the query |
| Ledger.PostgresStore.EnsureWallet | internal/store/wallets.go:36-43 | A zero row when missing, no change otherwise |
| Ledger.PostgresStore.CreditWallet | internal/store/wallets.go:24-33 | Balance and total_loaded of an existing row grow by the amount, nothing else changes |
| Ledger.PostgresStore.CreditDeposit | internal/monitor/monitor.go:351-390 | Insert-first transaction: row and credit together, or no change for a duplicate hash or any failure |
| Ledger.PostgresStore.FinalizeDeduction | internal/billing/engine.go:281-355 | Charge with a completed row, refusal with a zero failed row, or no change |
| DepositMonitor.Monitor.CheckForDeposits | internal/monitor/monitor.go:186-281 | One poll changes cursor and tables as the specification of a poll says, for every head, cursor error, chunk failure, crash and credit failure |
| DepositMonitor.Monitor.ScanForward | internal/monitor/monitor.go:243-280 | The chunk loop equals the recursive scan |
| DepositMonitor.Monitor.ProcessLog | internal/monitor/monitor.go:288-325 | A log becomes at most one credit, of its address's owner and its amount |
| MonitorSafety.ChunksTileTheWindow | internal/monitor/monitor.go:243-270 | An undisturbed scan handles every log from start to safe head exactly once and in order, for windows of any length |
| MonitorSafety.PollHandlesItsWindow | internal/monitor/monitor.go:155-280 | A poll in which nothing fails handles every log from the block after the cursor, or after head - 10000 when there is no readable cursor or it is more than 20000 behind, to head - 3, in order, and leaves the cursor there |
| MonitorSafety.StoppedPollHandlesFiveBlocks | internal/monitor/monitor.go:243-280 | Stopped after its first chunk it has handled five blocks of that window, or all, and the cursor says so |
| MonitorSafety.EmptyPollOnlyForwards | internal/monitor/monitor.go:199-262 | A poll that knows no address or whose first query fails changes nothing, except that a cursor more than 20000 blocks behind is moved to head - 10000 if that can be saved |
| MonitorSafety.RecheckIsSilent | internal/monitor/monitor.go:312-321 | The confirmation re-check never drops a log inside the window |
| MonitorSafety.EverythingBehindTheCursor | internal/monitor/monitor.go:183-281 | For every run of polls, failing or dying anywhere: every qualifying transfer above the start and up to the cursor, one of at least a million units for each dollar of the minimum, has its row with its owner and its units divided by a million, and every new row is that of a qualifying transfer, above the start unless a cursor read failed. Failing cursor reads are allowed as far as the bootstrap window reaches, failing credits where the row is there or no later chunk saves its cursor |
| MonitorSafety.CursorIsMonotone | internal/monitor/monitor.go:171-181 | A poll that reads the cursor never lowers it and never passes head - 3 |
| MonitorSafety.EventsRunTheirOps | internal/monitor/monitor.go:186-281 | Any run of polls, mixed with other transactions, is a run of ledger transactions |
| MonitorSafety.PollsCreditAtMostOnce | internal/monitor/monitor.go:348-371 | At most one credit per hash over replays, overlapping scans, bootstraps, fast-forwards and failing transactions |
| MonitorSafety.PollsKeepTheBooks | internal/monitor/monitor.go:373-390 | Over such runs the books stay balanced, and what was loaded is the user's new top-up rows plus the top-up flow's credits |
| MonitorEdges.FailedCreditIsLost | internal/monitor/monitor.go:266-270 | Committing credits are needed: a failed one is skipped while the cursor passes its block |
| MonitorEdges.SecondTransferIsLost | internal/monitor/monitor.go:364-367 | One transfer per hash is needed: of two in one transaction only the first is credited |
| MonitorEdges.FailedCursorReadSkipsBlocks | internal/monitor/monitor.go:155-168 | Readable cursors are needed: a failed read restarts at the bootstrap window and the saved cursor hides the older blocks |
| MonitorEdges.FastForwardSkipsBlocks | internal/monitor/monitor.go:199-213 | A fast-forward hides every block older than the bootstrap window behind the new cursor |
| MonitorEdges.LateAddressIsLost | internal/monitor/monitor.go:227-234 | A deposit to an address registered after its block was scanned is behind the cursor, uncredited |
| Costs.PromptIsSplit | internal/billing/engine.go:130-138 | Fresh and cached tokens add up to the prompt for every reported cache count |
| Costs.CostInTokens | internal/billing/engine.go:84-101 | The charge in tokens, for every usage: cached tokens up to the prompt at the cache rate, or at the input rate without one, the rest of the prompt at the input rate, the completion at the output rate |
| Costs.EstimateInTokens | internal/billing/engine.go:60-79 | The estimate in tokens: 500 a message at the input rate, the requested output or 1024 at the output rate |
| Costs.CostScales | internal/billing/engine.go:84-101 | Scaling a rate card scales every cost, through both cache fallbacks |
| Costs.NeverDearerIff | internal/billing/engine.go:84-164 | One card never costs more than another on any usage if and only if its input, output and effective cache rates are no higher |
| Costs.EstimateDominates | internal/billing/engine.go:67-101 | The held estimate is at least the charge for every cache count, overshoot and negatives included |
| Costs.EstimateDominatesIff | internal/billing/engine.go:67-101 | A rate card's estimates cover every charge they assume if and only if its input and output rates are not negative and its cache rate is within its input rate |
| Costs.LongPromptExceedsEstimate | internal/billing/engine.go:62-79 | More than 500 tokens a message at full output: the charge exceeds the estimate |
| Costs.CostAntitoneInCacheReads | internal/billing/engine.go:84-101 | More cache reads never cost more when cached tokens are not dearer |
| Pricing.DiscountTiesInput | internal/provider/client.go:354-369 | A listed row's discount is below 100 and turns the reference input price into the provider's exactly, in the record as in the listing, whose prices are a million times the record's |
| Pricing.SpreadIsTheMargin | internal/pricing/sync.go:12-53 | Where the discount is at least the spread, the user pays the spread in points of the reference price more than the provider, on input and on cached tokens; below it, the reference price; the reference cache price is reconstructed in the proportion of the input prices |
| Pricing.ExactScaling | internal/pricing/sync.go:25-44 | For every listed row and usage, charge = (1 - userDiscount/100) * reference cost |
| Pricing.MarketIsCoveredIff | internal/pricing/sync.go:25-44 | A listed row charges every usage at least its market cost if and only if the discount is not negative, the provider output price is within the user's, and, at discount 0 only, the cache price is within the input price |
| Pricing.ReferenceIsKeptIff | internal/pricing/sync.go:25-44 | It charges no usage above its reference cost if and only if the reference output price is not negative or there is no user discount |
| Pricing.CostsAreOrderedIff | internal/pricing/sync.go:25-44 | Market cost <= charge <= reference cost on every usage if and only if both conditions hold |
| Pricing.NegativeDiscountSellsAtLoss | internal/pricing/sync.go:25-29 | A listing dearer than its reference is sold at the reference and some usage is charged below its market cost |
| Pricing.OnlyListedPrices | internal/pricing/sync.go:126-136 | Whatever upserts, cache writes and sweeps fail, only prices built from feed rows of the catalog with positive input prices become active or cached |
| Pricing.LastWriteWins | internal/pricing/sync.go:145-202 | A model's active row is that of its last such feed row whose upsert succeeds, and its cached price too if that was cached |
| Pricing.LastCachedWins | internal/pricing/sync.go:186-202 | Its cached price is that of the last such row that was cached, whatever cache writes fail later |
| Pricing.OthersStay | internal/pricing/sync.go:126-184 | A model of which nothing is written keeps its row, and one of which nothing is cached its cached price |
| Pricing.SweptIsCurated | internal/pricing/sync.go:206-217 | After a sweep that runs no row outside the catalog is active; it removes no row, and changes no price and no row of the catalog |
| Pricing.PriceSync.FetchPricing | internal/provider/client.go:354-370 | One record per listing, in order |
| Pricing.PriceSync.UpdatePrices | internal/pricing/sync.go:118-220 | Skips, failing upserts, failing cache writes and a sweep that runs or fails, as one function of the old rows |
| Reconcile.HealthyIff | internal/billing/reconcile.go:42-56 | A window is ok if and only if provider cost is within revenue and, when positive, within the share the expected margin leaves; it is a negative margin if and only if provider cost exceeds revenue |
| Reconcile.AuditIsOfTheWindow | internal/billing/reconcile.go:79-101 | The totals are the plain sums over the rows completed at or after the start, the upstream figure standing in for a missing market cost; margin and percentage are those of the totals |
| Reconcile.WholeWindowIsHealthy | internal/billing/reconcile.go:79-101 | For any set of rows priced off sufficiently discounted listings, the audit is ok and the margin not negative |
| Reconcile.FeedRowIsWellPriced | internal/pricing/sync.go:25-44 | Every request on a row the sync lists, discounted by half the spread or more, leaves such a row |
| Reconcile.ListingIsHealthyIff | internal/billing/reconcile.go:79-101 | Every window priced off a listing audits as ok if and only if its market rates are within the allowed share of its user rates |
| Reconcile.ZeroMarketRowReadsAsLoss | internal/billing/reconcile.go:82-88 | The zero-market condition is needed: the fallback makes such a row a loss |
| UsageParsing.UsageCapture.ParseFromChunk | internal/handler/usage_capture.go:24-78 | Each field is overwritten only by a chunk with positive tokens, or a positive cost |
| UsageParsing.CaptureStream | internal/handler/chat.go:192-194 | The capture of a stream is the last-writer-wins fold of its lines |
| UsageParsing.LastUsageIsLast | internal/handler/usage_capture.go:63-78 | The fold yields the usage of the line no later token-bearing line follows |
| UsageParsing.LastCostIsLast | internal/handler/usage_capture.go:55-61 | The same for the upstream cost |
| UsageParsing.FirstReportedCounts | internal/provider/client.go:184-262 | Cached tokens are the first count that is not zero of hits, reads, top-level and nested cached tokens, the upstream cost the first positive amount of the usage cost, its details, the top-level cost and its details |
| UsageParsing.StreamAgreesIff | internal/provider/client.go:160-202 | Streamed and non-streamed usage agree if and only if some count is positive or both are zero; the upstream cost always agrees |
| UsageParsing.StreamBillsAlike | internal/handler/usage_capture.go:24-78 | For non-negative counts and every combination of cost and cache shapes, all three costs agree |
| Regex.SkipInert | internal/masking/body.go:34-53 | Every pass leaves text without quotes and commas as it is |
| Json.ValueIsMatched | internal/masking/body.go:37-39 | The value expression matches scalars, strings and flat objects whole, whatever follows |
| Json.ValueIsNotMatched | internal/masking/body.go:37-39 | It matches no part of an array or of an object with an object inside |
| Json.NumbersAreScalars | internal/masking/body.go:37-39 | Among the scalars are all numbers of an optional sign, digits, and optionally a point with digits |
| Masking.PassIsApply | internal/masking/body.go:45-53 | Each pass over the text of any tree prints the tree it structurally leaves, gaps for members that went without a comma included |
| MaskTree.StripFieldIsStrip | internal/masking/body.go:42-53 | The same for the three passes of a field, on any tree |
| MaskTree.StripFieldIsDrop | internal/masking/body.go:42-53 | Unless a member of the field that is not strippable holds another (`Settled`), the three passes remove exactly the strippable members, at every depth and with their commas, and leave JSON |
| MaskTree.FieldGoneIff | internal/masking/body.go:37-53 | Of the removal of the strippable members, which is what is left of settled trees: the field is gone from it if and only if no member of it has an array or nested object for a value outside removed members |
| MaskEdges.BareIsValidIff | internal/masking/body.go:48-52 | The last pass leaves JSON if and only if each member it deletes is alone in its object |
| MaskEdges.StripFieldIsValidIff | internal/masking/body.go:42-53 | For every tree, stripping leaves JSON if and only if every member that goes without a comma is alone in its object, and then the text is the print of the stripped tree |
| MaskIntact.StripFieldIsValidOnIntact | internal/masking/body.go:42-53 | The same decided on the body alone: stripping leaves JSON if and only if, in every object that stays, a member of the field that only becomes flat in the passes is the only member that stays |
| MaskIntact.StrippedFieldShowsIff | internal/masking/body.go:37-53 | And what of the field is found in that JSON, decided on the body alone |
| MaskEdges.PrintIsInjective | internal/masking/body.go:45-53 | Printed text determines its tree, so statements on the text are statements on the tree |
| MaskEdges.SelfNestedLeavesComma | internal/masking/body.go:42-53 | A field nested in itself leaves a stray comma, so the promised valid JSON fails there |
| MaskFilter.SanitizeIsMask | internal/masking/body.go:58-64 | With strippable internal members the thirteen passes print exactly the tree without them, at every depth, and with the requested model |
| MaskFilter.SanitizeIsFourDrops | internal/masking/body.go:58-64 | With arrays and nested objects allowed as internal members, but none that stays holding another of its own field (`AllSettled`): the model rewrite and four structural drops in order |
| MaskFilter.SanitizeIsSanitized | internal/masking/body.go:58-64 | For every tree, all thirteen passes print the tree they structurally leave |
| MaskFilter.SanitizeIsValidIff | internal/masking/body.go:42-64 | For every tree, the sanitized text is JSON if and only if every gap left at the end is alone in its object, and then it is the print of what is left; settled trees leave none with a comma |
| MaskTimes.SanitizeIsValidOnWhole | internal/masking/body.go:42-64 | The same decided on the body alone, for all thirteen passes: numbering the pass that deletes each member in one walk over the tree, the sanitized text is JSON if and only if every member deleted without a comma is in the end alone in its object |
| MaskTimes.SanitizedShowsIff | internal/masking/body.go:42-64 | And which keys, internal or not, are found in that JSON: exactly those of members that no pass deletes and that stand in none that is deleted |
| MaskRepair.LaterFieldRepairs | internal/masking/body.go:58-64 | Validity at the end, not after each field, is what counts: on this body one field leaves a stray comma and a later one takes it along, as the two conditions on the body say |
| MaskFilter.MaskByPath | internal/masking/body.go:55-64 | Nothing is found under an internal key; every other path leads to what it led to, with the model replaced |
| MaskFilter.MaskCleans | internal/masking/body.go:55-64 | Nothing internal remains, and a tree is unchanged if and only if it held nothing internal and no other model |
| MaskFilter.MaskIsIdempotent | internal/masking/body.go:58-64 | Masking after masking is masking once |
| MaskFilter.SanitizeTwice | internal/masking/body.go:58-64 | On the text: sanitizing again changes nothing, and a body is left alone if and only if its tree holds nothing internal and no other model |
| MaskFilter.DataLineIsMasked | internal/handler/chat.go:196-199 | A data line is masked like a body |
| MaskSpaces.SpacedObjectIsValue | internal/masking/body.go:37-39 | An object without braces inside is matched whole, whatever white space and text it holds |
| MaskSpaces.PrintedIsValue | internal/masking/body.go:37-39 | So is the print of every strippable value, which is what the next four take for a value |
| MaskSpaces.SpacedLeadIsCut | internal/masking/body.go:34-53 | On text with white space: the first pass cuts a member with the comma before it and all white space after that comma and around its colon |
| MaskSpaces.SpacedTrailIsCut | internal/masking/body.go:34-53 | The second pass cuts it with the comma behind it and the white space after that |
| MaskSpaces.SpacedBareIsCut | internal/masking/body.go:34-53 | The last pass deletes it with the white space around its colon |
| MaskSpaces.SpacedModelIsRewritten | internal/masking/body.go:34-35 | The model is rewritten whatever white space stands around its colon |
| Sse.Proxy | internal/handler/chat.go:172-211 | The loop writes the specified lines and captures the specified usage and cost, stopping after the done line |
| Sse.HandledIs | internal/handler/chat.go:172-211 | The lines handled are those up to and including the first that reads `data: [DONE]` but for white space, all if there is none |
| Sse.WrittenByFirstChar | internal/handler/chat.go:178-202 | The first character that is not white space decides: with a colon the line is dropped, with any other it is sanitized, without one a blank line is written |
| Sse.HeardIs | internal/handler/usage_capture.go:24-36 | What is parsed of a line that has "usage" in it and is no comment: the text behind its first `data: `, without the white space around it |
| SseRefinement.FeedMaskedIff | internal/handler/chat.go:196-202 | For every line that is not empty: sanitizing it and reading it does to every client what reading it and sanitizing its data does, if and only if the line passes the test of its field |
| SseRefinement.WrittenIff | internal/handler/chat.go:182-202 | The same for what the proxy writes, comments and white space included, if and only if the line is a comment, empty, or passes that test and is not white space |
| SseRefinement.OrdinaryLinesAreKept | internal/handler/chat.go:196-199 | The test on the line alone: the lines that pass the exact one whatever the model id |
| SseRefinement.ProxiedEvents | internal/handler/chat.go:172-211 | If the lines before the first `data: [DONE]` meet that exact condition, a conforming client dispatches the upstream's events before that line, in order, kinds and ids unchanged, data lines sanitized, and nothing else |
| SseRefinement.ProxiedJson | internal/handler/chat.go:196-202 | Where the data is JSON, the client gets the print of the filtered tree |
| SseEdges.BlanksSplitEvents | internal/handler/chat.go:182-191 | A line of spaces splits one event into two |
| SseEdges.ErasedLineSplitsEvents | internal/handler/chat.go:196-202 | A line clients ignore that is nothing but an internal member is written as a blank line and splits one event into two |
| SseEdges.EventNameIsLost | internal/handler/chat.go:196-202 | An event name that is an internal member is lost and the event becomes a message |
| SseEdges.LeadingSpaceIsLost | internal/handler/chat.go:196-202 | After `data:` without a space, removing a member at the start also loses the space that follows it |
| KeyPool.KeyPool.constructor | internal/provider/keypool.go:37-44 | Every key with capacity 1200, unused |
| KeyPool.KeyPool.Select | internal/provider/keypool.go:55-87 | The scan picks, and stamps, the entry the specification picks |
| KeyPool.KeyPool.UpdateFromHeaders | internal/provider/keypool.go:91-110 | Only the first entry with the key changes, only with a readable header |
| KeyPool.KeyPool.MarkError | internal/provider/keypool.go:113-122 | Only the error count of the first entry with the key changes |
| KeyPool.KeyPool.ChatCompletion | internal/provider/client.go:63-130 | Order and condition of the pool calls of a completion |
| KeyPool.SelectPicksTheBest | internal/provider/keypool.go:53-87 | Of the keys with at least 100 requests left the one with the most, then the least recently used, then the first; none if and only if there is none |
| KeyPool.FirstRound | internal/provider/keypool.go:37-87 | From a fresh pool the first n selections take keys 0 to n-1 in turn, for any positive clock |
| KeyPool.RotationHasPeriod | internal/provider/keypool.go:63-87 | With equal capacities and an increasing clock selection t takes key t mod n |
| KeyPool.StandingClockSticksToFirst | internal/provider/keypool.go:72-85 | The increasing clock is needed: within one second the first key is taken every time |
| KeyPool.DrainedStaysDrained | internal/provider/keypool.go:63-79 | Over any serial traffic with distinct keys a drained entry never changes |
| KeyPool.NeverHandedOutAgain | internal/provider/client.go:64-67 | And is never selected again |
| KeyPool.LowHeaderDrains | internal/provider/keypool.go:91-122 | What each reply leaves on the entry a call picked, a header its very value; after one below 100 the key is never handed out again |
| KeyPool.DuplicateKeyRevives | internal/provider/keypool.go:104-109 | Distinct keys are needed: a duplicate refills a drained entry |
| RateLimit.RateLimiter.Handle | internal/middleware/ratelimit.go:43-81 | Stored set and counter; the request passes if and only if the count is within the RPM and within 3000, and is told what remains of the smaller; a Redis failure lets it through |
| RateLimit.StoredIsWindow | internal/middleware/ratelimit.go:47-51 | After any history the stored set is the window before the key's last use, and the counter the number of requests |
| RateLimit.CountIsExact | internal/middleware/ratelimit.go:47-59 | The count judged by is the number of all requests in (now-60, now], whether or not the TTL dropped the set |
| RateLimit.PassesIff | internal/middleware/ratelimit.go:59-81 | A request passes if and only if that number is within its RPM and within 3000 |
| RateLimit.AdmittedWithinLimit | internal/middleware/ratelimit.go:43-81 | Admitted requests in any 60-second window never exceed the RPM, nor 3000, and without a positive RPM there are none |
| RateLimit.ClockSkewAdmitsTooMany | internal/middleware/ratelimit.go:43-48 | The clock condition is needed: one reading ahead admits three where two are allowed |
| AddressAllocator.QueryKeepsDense | internal/wallet/address.go:45-68 | Each query keeps the table at indices 0 to n-1 and appends at most the caller's row |
| AddressAllocator.LostMeansOvertaken | internal/wallet/address.go:70-82 | A lost attempt means another user's row took the index since MAX was read |
| AddressAllocator.KnownUserKeepsAddress | internal/wallet/address.go:30-43 | Under every interleaving, calls for a user who has a row answer with the address of its first row, unless their query fails, and add no row for it |
| AddressAllocator.AllocationIsSound | internal/wallet/address.go:29-86 | Under every interleaving: indices exactly 0 to n-1, one owner each, returned addresses belong to their callers, giving up takes five inserts of others |
| AddressAllocator.AddressManager.GetOrCreateAddress | internal/wallet/address.go:29-86 | The loop itself, with any inserts between its queries: dense table, own address, five inserts of others before giving up; a user who has a row gets its first address and no row is added |
| AddressAllocator.AddressManager.Attempt | internal/wallet/address.go:46-78 | A round leaves the table dense, and an answer names the owner of the claimed index |

## Left out

- HTTP handlers, routing, authentication, headers, error mapping, configuration, logging: no property beyond one branch.
- Floating-point and Postgres `numeric` rounding, and round6 and round2 of the audit's log line: exact reals are used.
- Parsing of limit strings, of the rate-limit header and of JSON bytes: decoded values are the inputs; usage counts have unbounded integers.
- Trees for masking are compact (`MaskSpaces` is about white space around single members), with strings free of quotes, backslashes and braces and numbers without exponents, which is what the expressions are written for; a model id holding a `$`, which ReplaceAll expands, is not modelled.
- The monthly tracker's and daily tracker's TTL and the change of calendar day or month during a run; a lost tracker is an explicit event (`Evict`), excluded where a theorem on it needs that.
- A commit reported as failed although it took effect, and Redis pipelines that fail half way.
- HoldSoundness.HoldsFitTheBalance: assumes one lifetime of the hash and excludes one failing command, a read of the held field that would have refused; `HoldFaults.MisreadAdmitsTwice` shows what that read does. `HoldLifetimes` is for any number of lifetimes, and `HoldExpiry.ExpiryBreaks` and `HoldExpiry.ExpiryIsSafeIff` say which expiries are excluded and why, up to requests whose hold is zero.
- SpendLimit.SpendBound: excludes a lost tracker, a failing increment, and a request the tracker would have refused slipping through because the tracker cannot be read and the usage records let it pass, of the key and window in question only; `HoldFaults` shows that each is needed.
- HoldEdges.ReleaseUndoesPreCheck: with no failing command and nobody in between; `HoldEdges.ReleasedLeavesNoTrace` is for every interleaving, and what failing commands leave behind is the subject of the tracker and held-field lemmas.
- Several users in the hold machine: their Redis keys and wallet rows are disjoint, so one user is modelled there and all users in the ledger.
- MonitorSafety.EverythingBehindTheCursor: assumes cursors that are read, or not further back than the bootstrap window reaches and not so close that it reaches below the lowest block accounted for; no fast-forward; credits that commit unless the row is there or no later chunk of the poll saves its cursor; one qualifying transfer per hash; and addresses registered before their deposits. `MonitorEdges` shows what happens without each of these.
- Within one poll the ledger is changed by the monitor only; other transactions come between polls. The at-most-once and conservation lemmas of `Ledger` allow any interleaving.
- Chain reorganisations deeper than the confirmation window, the fallback node, pacing between chunks, amounts beyond unbounded integers.
- The monitor's constructor and address map are reduced to their results; the repository's README calls the deposit flow planned, while the code modelled here runs it.
- The comment on stripField promises that the result stays valid JSON and the comment on SanitizeResponseBody that everything else stays identical; the model follows the code, and `MaskIntact.StripFieldIsValidOnIntact` and `MaskTimes.SanitizeIsValidOnWhole` state when the promise holds.
- Splitting the upstream bytes into lines, the one-megabyte line limit, a lone carriage return inside a line, the byte order mark and the retry field of event streams.
- SseRefinement.ProxiedEvents: the condition on each line is exact for every state a client can be in; a line that fails it may still go unnoticed in one particular stream.
- Masking of error responses, response headers and the leak warning, which only logs.
- Several gateway processes sharing one limiter and uncoordinated clocks: the limiter's theorem is for one process and a clock that does not go back.
- Concurrent calls into the key pool between select and header update: serial traffic is modelled; the mutex makes each pool call atomic.
- AddressAllocator.AllocationIsSound: for fewer than 2^32 allocated addresses, where the index does not wrap.
- BIP-32, BIP-39 and BIP-44 arithmetic, address checksums, signatures, the sweep of deposits, gas funding: derivation is an injective function.
- The failure counter of the price sync, display names, and the provider registry.
