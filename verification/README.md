# Verified models of the NexusTok backend

This project models the parts of the Go backend whose correctness does not show in any single function, and
proves what they promise: reconciliation of model lists with an upstream, the pool that tests channels, price
synchronisation, two admission limiters, the key list of a multi-key channel, request-body storage with its
counters, quota arithmetic, the Ogg scan that measures audio, and the map of verification codes.

`dafny verify dfyconfig.toml` checks everything. Code that updates state in the original is a class or a method
with loops here, each proved equal to a function of its inputs; the lemmas are about those functions, over all
inputs or over all runs.

| file | what it models |
|---|---|
| `Text.dfy`, `ModelNames.dfy` | trimming, splitting and joining; ordered duplicate-free name lists |
| `UpstreamModels.dfy` | detecting pending model changes, applying an operator's selection, automatic adding |
| `TestSummaries.dfy`, `WorkerPool.dfy` | the counts of one channel test; feeder, workers, closer and collector of a cycle as interleaved steps |
| `RateLimiter.dfy` | the sliding-window limiter with its background sweep |
| `ObservationLimiter.dfy` | the four-scope observation limiter and its leases |
| `BillingExpression.dfy` | compiling tiered prices into a conditional billing expression, and evaluating it |
| `RatioConversion.dfy` | converting prices to rounded ratios |
| `CandidateChoice.dfy` | choosing one of several listings of a model |
| `PricingData.dfy`, `PriceDifferences.dfy` | normalising price tables; comparing them and pruning the report |
| `MultiKey.dfy` | the key list of a channel with three index-keyed maps, and the status view |
| `CacheStats.dfy`, `BodyStorage.dfy`, `StorageRuns.dfy`, `StorageAccounting.dfy` | request bodies in memory and on disk, runs over both, and the counters under sequential and concurrent creations |
| `OggScan.dfy` | the page scan of an Opus file and the page format of section 6 of RFC 3533 |
| `Numbers.dfy`, `QuotaMath.dfy` | rounding; saturating quota conversion and the charge for a channel test |
| `Wrappers.dfy`, `Bytes.dfy`, `ChannelStatus.dfy` | shared types and constants |
| `VerificationCodes.dfy` | expiring verification codes against their history |

## Where the code falls short

Each of these is a property that the code, its comments or its naming suggest and that fails on some inputs or some
interleavings. The model keeps the code's behaviour; the lemmas named give an input on which the property fails and
the exact condition under which it holds, or, for the two about concurrency, the bound that is kept and a run that
meets it.

- Detecting again after applying a selection gives the recorded remaining lists exactly when no selected name
  shaped like an ignore rule (`regex:...`) changes which other names are ignored (`DetectAfterApply`). Ignoring an
  upstream model called `regex:b` hides the model `b`, which stays recorded as pending (`IgnoringARuleShapedName`).
- Names are stored joined by commas, and an accepted name with a comma comes back as fragments. Through storage the
  recorded lists stay exact when the selection is regex-safe for every other name, each accepted name with a comma is
  ignored afterwards, and each fragment is upstream or a redirect source and not pending (`RecordedAfterApply`); with
  no comma among the accepted names, when the selection is regex-safe (`RecordedWhenCommaFree`, `RecordedAfterCheck`).
  Otherwise such a name is pending again (`CommaNameReappears`, `AcceptingACommaName`).
- The rate limiter agrees with a full history exactly when every limit is at least one and, where the sweep runs,
  no window is more than one second longer than the expiry (`FaithfulExactly`, `ForgottenGrants`). Its own grants to
  a key are spaced by the window exactly when that key's limits meet this or its window is empty (`SpacedExactly`,
  `CrowdedRun`).
- Cancelling a test cycle does not stop every test: a worker that has found the context live still runs its
  channel, and the collector still makes the report it has decided on (`RunsAfterCancellation`,
  `ReportsAfterCancellation`). At most one job per worker and one report follow (`CancellationStopsStarts`).
- Deleting the automatically disabled keys of a channel that has no other keys brings them all back enabled: an
  empty key column is not written (`DeleteDisabledFilters`, `AllDeletedKeysReturn`).
- The choice among listings of a model depends on their order exactly when no candidate of the deciding pool
  dominates the others (`ChoiceIgnoresOrder`); a chain of prices each within the tolerance of the next is such a
  group (`NearPricesDependOnOrder`). Identifier rank counts only within the official listings
  (`RankIgnoredElsewhere`); `ChooseIsLeast` states the whole order.
- A source whose billing expression is literally `same` reads as agreeing. The report lists exactly the differences,
  and pruning deletes no row, if and only if no model has all its differing expressions spelled that way
  (`DifferencesAreExact`, `PruningKeepsRows`, `SameExpressionVanishes`).
- Body storages differ on an empty read at the end of the body and on any use of a replay reader after it was
  closed, and on nothing else (`StepAgrees`, `RunAgrees`, `EmptyReadDiffers`, `ClosedReaderDiffers`).
- Creation from a reader meets its size gate at every 64-bit limit except the largest, where adding one wraps and
  a nonempty stream is taken for an empty one (`SizeGate`).
- The disk maximum is tested against the announced length, so a stream that delivers more can overrun it. One
  creation keeps every process within the maximum exactly when it is not such a stream (`FitsExactly`,
  `ShortAnnouncementOverruns`). Testing the usage and counting the body are separate steps, so concurrent requests
  can overrun it with honest lengths too (`HonestOverrun`); the usage then exceeds the maximum by no more than what
  creations admitted together have reserved (`ConcurrentUsage`).

## Model

| member | source | states |
|---|---|---|
| ModelNames.Normalize | controller/channel_upstream_update.go:101-106 | the result holds trimmed, nonempty, distinct names |
| ModelNames.NormalizeMembers | controller/channel_upstream_update.go:101-106 | a name is kept exactly when it is the nonempty trimmed form of some input name |
| ModelNames.NormalizeNormal | controller/channel_upstream_update.go:101-106 | a normal list is unchanged, so normalising twice is normalising once |
| ModelNames.MergeModelNames | controller/channel_upstream_update.go:108-122 | the loop gives the normalised base followed by the new normalised names, in order |
| ModelNames.MergeNormal | controller/channel_upstream_update.go:108-122 | a merge is normal and holds exactly the names of both sides |
| ModelNames.SubtractModelNames | controller/channel_upstream_update.go:124-133 | the normalised base filtered by the set the loop collects: without the removed names, in order |
| ModelNames.IntersectModelNames | controller/channel_upstream_update.go:135-144 | the normalised base filtered by the set the loop collects: only the allowed names, in order |
| Text.TrimSpaceIs | controller/channel_upstream_update.go:101-106 | trimming takes spaces off both ends and nothing else |
| UpstreamModels.CollectPending | controller/channel_upstream_update.go:180-239 | the loops over local and upstream names, redirects and ignore rules compute `Detect` |
| UpstreamModels.DetectMembers | controller/channel_upstream_update.go:180-239 | exactly the uncovered, unignored upstream names are offered for adding; adds are disjoint from local names, removes from upstream names |
| UpstreamModels.DetectOffers | controller/channel_upstream_update.go:180-239 | name by name: offered for adding exactly if upstream, not local, no redirect's target and hidden by no rule, a rule that starts with `regex:` hiding what its trimmed rest matches and any other its own name; offered for removal exactly if local, not upstream and not redirected |
| UpstreamModels.RegexRuleIgnores | controller/channel_upstream_update.go:214-228 | with one rule `regex:` and a body, one upstream name is ignored exactly when the trimmed body as the pattern matches the name |
| UpstreamModels.PlanUpdates | controller/channel_upstream_update.go:989-1012 | the intersections, merges and subtractions compute `Apply`: selected lists, next models, next ignore rules and what remains |
| UpstreamModels.ApplyTakes | controller/channel_upstream_update.go:989-1012 | name by name: what is added, removed, left pending and ignored, and what the next list holds, in terms of the inputs and the pending lists |
| UpstreamModels.Channel.ApplyUpdates | controller/channel_upstream_update.go:976-1024 | the new fields and every returned list after applying a selection |
| UpstreamModels.Channel.CheckUpdates | controller/channel_upstream_update.go:531-578 | nothing changes before the interval has passed, a failed fetch records only the time, otherwise the new fields; the number automatically added is the number of pending adds |
| UpstreamModels.TooSoonWrittenOut | controller/channel_upstream_update.go:537-543 | a check is skipped exactly if unforced, after an earlier one, and within the interval |
| UpstreamModels.NextModelsShape | controller/channel_upstream_update.go:146-151 | the next list is the old one without the removed names, followed by the added ones, which were not in it |
| UpstreamModels.RemovesCommute | controller/channel_upstream_update.go:976-1024 | detecting again after any application gives exactly the recorded remaining removals |
| UpstreamModels.DetectAfterApply | controller/channel_upstream_update.go:976-1024 | detecting again gives exactly the recorded remaining lists if and only if the selection is regex-safe |
| UpstreamModels.PlainNamesCommute | controller/channel_upstream_update.go:976-1024 | with no rule-shaped name selected, detecting again gives exactly the recorded remaining lists |
| UpstreamModels.ApplyAllSettles | controller/channel_upstream_update.go:976-1024 | applying everything pending makes the next detection return two empty lists |
| UpstreamModels.StoredNames | model/channel.go:444-449 | comma-free normal names are read back from the joined column |
| UpstreamModels.ReadBackShape | controller/channel_upstream_update.go:1000-1002 | read back from the column, the surviving names stand in front in order, every comma-free accepted name follows, and no name has a comma |
| UpstreamModels.RecordedAfterApply | controller/channel_upstream_update.go:976-1024 | through storage, the recorded lists stay what detection finds if and only if the selection is regex-safe beyond the fragments of split names, each accepted name with a comma is ignored afterwards, and each fragment is upstream or a redirect source and not pending |
| UpstreamModels.RecordedWhenCommaFree | controller/channel_upstream_update.go:976-1024 | with no comma among the accepted names, if and only if the selection is regex-safe |
| UpstreamModels.CommaNameReappears | controller/channel_upstream_update.go:1000-1002 | an accepted name with a comma is offered again by the next detection if and only if no rule then ignores it |
| UpstreamModels.AcceptingACommaName | controller/channel_upstream_update.go:1000-1002 | a channel whose only upstream name has a comma: accepted, nothing remains, yet it is pending again |
| UpstreamModels.ApplyRunStaysRecorded | controller/channel_upstream_update.go:976-1024 | over any sequence of applications against one upstream of plain names, recorded and detected lists stay equal |
| UpstreamModels.RecordedAfterCheck | controller/channel_upstream_update.go:531-578 | a check records what detection finds next, with automatic adding if and only if no added name has a comma |
| UpstreamModels.AutoAddSettles | controller/channel_upstream_update.go:555-567 | after automatic adding detection offers no adds and the same removals |
| UpstreamModels.RuleShapedNameHides | controller/channel_upstream_update.go:214-228 | ignoring a rule-shaped name that matches a pending name hides that name from detection while it stays recorded |
| UpstreamModels.IgnoringARuleShapedName | controller/channel_upstream_update.go:214-228 | upstream offers `regex:b` and `b`; ignoring the first hides the second while it stays recorded |
| TestSummaries.HealthCheck | controller/channel-test.go:1134-1178 | which counters one test increments: failure, disabling and re-enabling each if and only if its conditions hold |
| WorkerPool.NormalizeConcurrency | setting/operation_setting/monitor_setting.go:65-73 | the worker limit is between 1 and 32, and a setting in that range is kept |
| WorkerPool.BoundedConcurrency | controller/channel-test.go:1197-1225 | on every run there are as many workers as the setting allows or as there are channels, whichever is less, so at most that many channels are inside run at once |
| WorkerPool.InvStep | controller/channel-test.go:1183-1271 | every step keeps the invariant: each job in one place, results conserved, channels closed in order, reports in order |
| WorkerPool.InvRun | controller/channel-test.go:1183-1271 | the invariant holds in every reachable state |
| WorkerPool.MeasureStep | controller/channel-test.go:1183-1271 | every step lowers a measure |
| WorkerPool.RunsAreBounded | controller/channel-test.go:1183-1271 | no interleaving is longer than the measure of its first state |
| WorkerPool.NeverStuck | controller/channel-test.go:1207-1255 | until the caller has returned, both channels are closed and every worker is gone, some step other than a cancellation is enabled |
| WorkerPool.StopsAtRest | controller/channel-test.go:1183-1271 | a reachable state in which only a cancellation can happen is exactly one with no goroutine left behind |
| WorkerPool.AlwaysCanReturn | controller/channel-test.go:1207-1255 | from every reachable state some continuation returns to the caller and ends every goroutine |
| WorkerPool.NoChannelRunsTwice | controller/channel-test.go:1207-1255 | no channel is run twice, and only eligible channels are run, on every interleaving with cancellation anywhere |
| WorkerPool.CancellationStopsStarts | controller/channel-test.go:1218-1267 | after cancellation a job is acted on only by a worker already past its test of the context, so at most one per worker, and at most one report is made, by a collector past its test |
| WorkerPool.RunsAfterCancellation | controller/channel-test.go:1218-1225 | a run in which a channel is first run after the cancellation |
| WorkerPool.ReportsAfterCancellation | controller/channel-test.go:1218-1267 | a run from the start in which the first result is reported after the cancellation |
| WorkerPool.ReturnedSummary | controller/channel-test.go:1254-1270 | on return every result of a started run has been delivered and summed, cancelled or not |
| WorkerPool.UncancelledRun | controller/channel-test.go:1183-1271 | without cancellation each channel is consumed once, run once exactly if eligible, the summary is the sequential sum, and the reports are 0, 1, …, total |
| WorkerPool.CycleConsistent | controller/channel-test.go:1126-1132 | if each result is consistent so is the returned summary |
| RateLimiter.InMemoryRateLimiter.Request | common/rate-limit.go:45-70 | the decision and the new queues |
| RateLimiter.InMemoryRateLimiter.ClearExpired | common/rate-limit.go:28-43 | one sweep drops exactly the stale queues |
| RateLimiter.RefinesHistory | common/rate-limit.go:28-70 | under sound limits, over every interleaving of requests and sweeps, the decisions are those of a full history |
| RateLimiter.FaithfulExactly | common/rate-limit.go:28-70 | agreement with the full history on every run if and only if each limit is at least one and no window outlasts the expiry by more than one second where sweeps run |
| RateLimiter.ForgottenGrants | common/rate-limit.go:28-43 | for every configuration with a longer window, a run on which a sweep makes the limiter grant too much |
| RateLimiter.GrantsAreSpaced | common/rate-limit.go:45-70 | what the limiter itself grants to a key with sound limits stays spaced, from every state that tracks the earlier grants and through every sweep |
| RateLimiter.SpacedExactly | common/constants.go:218-248 | on every run any limit + 1 of the limiter's grants to a key span at least its window, if and only if the limits of that key are sound or its window is empty |
| RateLimiter.CrowdedRun | common/rate-limit.go:28-70 | for every key with unsound limits and a window, a run whose grants are too close |
| ObservationLimiter.Limiter.Acquire | controller/plugin_protocol_limiter.go:65-157 | the answer, the counters taken when admitted, and counters exactly restored when refused |
| ObservationLimiter.Lease.Release | controller/plugin_protocol_limiter.go:133-157 | the first release gives back one in every scope, later ones change nothing |
| ObservationLimiter.InvNext | controller/plugin_protocol_limiter.go:65-157 | every acquire and release keeps the counters exact, positive, within limits and with equal totals |
| ObservationLimiter.InvRun | controller/plugin_protocol_limiter.go:65-157 | so does every run from a state with exact counters |
| ObservationLimiter.CountersAreExact | controller/plugin_protocol_limiter.go:65-157 | from the empty limiter, every run of acquires and repeated releases ends with each count equal to the number of live leases in its scope |
| ObservationLimiter.RefusedIffFull | controller/plugin_protocol_limiter.go:65-131 | a valid acquire is refused as full if and only if some scope has as many live leases as its limit |
| ObservationLimiter.NamesFirstFull | controller/plugin_protocol_limiter.go:80-131 | a refusal names a scope and its limit if and only if that scope is full and no earlier one is |
| ObservationLimiter.RefusedWrittenOut | controller/plugin_protocol_limiter.go:80-131 | refused exactly when the number of open leases, of those of the plugin, of the user or of the token has reached the limit set for it |
| ObservationLimiter.InvalidWrittenOut | controller/plugin_protocol_limiter.go:70-78 | invalid exactly when the plugin is blank or an identifier is not positive |
| ObservationLimiter.AllReleased | controller/plugin_protocol_limiter.go:133-157 | once all leases are released the counters are those of a new limiter |
| BillingExpression.TierExpression | controller/ratio_sync.go:1227-1256 | the loop over price variables builds the linear tier term |
| BillingExpression.TermsWrittenOut | controller/ratio_sync.go:1234-1256 | the terms by name: p, c, cr, cc, ai, ao with the input, output, cache read, cache write, input audio and output audio price, those within a billionth of zero left out |
| BillingExpression.ContextTiers | controller/ratio_sync.go:1258-1278 | the usable context tiers, stably sorted by rounded size |
| BillingExpression.UsableMembers | controller/ratio_sync.go:1258-1273 | a tier is usable exactly if some entry is of kind context up to case and spaces, with a positive size and valid prices, and rounds to it |
| BillingExpression.ValidWrittenOut | controller/ratio_sync.go:1016-1026 | prices are valid exactly if the input price is known and none known is negative |
| BillingExpression.LowerLetters | controller/ratio_sync.go:1261-1261 | lower-casing changes the letters A to Z and nothing else |
| BillingExpression.SortContents | controller/ratio_sync.go:1274-1276 | sorting keeps exactly the same tiers |
| BillingExpression.SortSelects | controller/ratio_sync.go:1274-1276 | the sorted list ascends, and its last tier below a length is the applicable one among the unsorted tiers |
| BillingExpression.ApplicableIs | controller/ratio_sync.go:1258-1310 | the applicable tier is the latest of the largest below the length, and none applies exactly when all are at or above it |
| BillingExpression.BuildBillingExpression | controller/ratio_sync.go:1280-1310 | the folding loop builds the compiled expression |
| BillingExpression.CompiledWhen | controller/ratio_sync.go:1280-1310 | an expression is produced if and only if there is a valid over-200K price or a usable context tier |
| BillingExpression.CompiledSelects | controller/ratio_sync.go:1280-1310 | for every length the compiled expression evaluates as the one tier the price table prescribes |
| BillingExpression.CompiledMeaning | controller/ratio_sync.go:1227-1310 | its charge differs from the exact price sum by less than 1e-9 times the token total, and not at all when that is zero |
| BillingExpression.ChargeWrittenOut | controller/ratio_sync.go:1227-1310 | the same against the sum written out: each token count times its own price, absent prices zero, and the sum of all six token counts |
| BillingExpression.LongContextPrice | controller/ratio_sync.go:1282-1289 | a valid over-200K price applies beyond 200000 tokens, the base price up to there |
| BillingExpression.ContextPrice | controller/ratio_sync.go:1291-1309 | else the largest usable tier below the length applies, and the base price when there is none |
| RatioConversion.RoundRatioError | controller/ratio_sync.go:818-820 | rounding moves a ratio by at most 5e-7 |
| RatioConversion.RatioTables.AddTokenPricing | controller/ratio_sync.go:1321-1347 | which ratios are stored for a model, that nothing else changes, and refusal exactly of a zero input with another positive price |
| RatioConversion.FreeInput | controller/ratio_sync.go:1327-1336 | a zero input price is stored as ratio zero alone, and refused exactly when another price is positive |
| RatioConversion.ModelRatioBound | controller/ratio_sync.go:1327-1347 | twice the stored model ratio is within 1e-6 of the input price |
| RatioConversion.CompletionBound | controller/ratio_sync.go:1327-1347 | the recovered output price is within completion·1e-6 + input·5e-7 |
| RatioConversion.AudioCompletionBound | controller/ratio_sync.go:1327-1347 | the same for the audio output price through two stored ratios |
| RatioConversion.ConversionRecoversPrices | controller/ratio_sync.go:1327-1347 | every ratio is stored exactly when its price is known, output audio only with a positive input audio price, and each gives its price back within its bound |
| CandidateChoice.ChooseFromProvider | controller/ratio_sync.go:1181-1192 | the loop keeps the candidate that replaces by rank, then by price |
| CandidateChoice.ChooseCandidate | controller/ratio_sync.go:1194-1225 | the three-stage choice: official provider, prefixed identifier, any |
| CandidateChoice.ReplaceIsCheaper | controller/ratio_sync.go:1058-1076 | on orderly groups replacement is a strict total order: nonzero, cheapest, provider, key, id |
| CandidateChoice.CheaperTransitive | controller/ratio_sync.go:1058-1076 | that order is transitive |
| CandidateChoice.ChooseIsLeast | controller/ratio_sync.go:1194-1225 | the choice is the least candidate under stage, rank where it counts, then that order |
| CandidateChoice.PrefixedIsChosen | controller/ratio_sync.go:1161-1214 | without an official listing, one whose identifier or key is spelled provider/name up to case and spaces is chosen over all spelled otherwise |
| CandidateChoice.OfficialIsChosen | controller/ratio_sync.go:1161-1203 | with an official listing an official one is chosen, the prefixed spelling before the bare name and that before the rest |
| CandidateChoice.CheaperIsChosen | controller/ratio_sync.go:1058-1076 | of two listings in the last stage, in either order: priced before free, cheaper by a billionth, then provider, key and identifier |
| Text.LessIs | controller/ratio_sync.go:1069-1075 | strings are ordered by the first character that differs, a proper prefix first |
| CandidateChoice.ChoiceIgnoresOrder | controller/ratio_sync.go:1194-1225 | for a duplicate-free group of one name, every order gives the same choice if and only if one candidate of the deciding pool replaces each other one and is replaced by none |
| CandidateChoice.OrderlyIsOrderFree | controller/ratio_sync.go:1194-1225 | distinct identities and prices equal or at least the tolerance apart suffice |
| CandidateChoice.NearPricesDependOnOrder | controller/ratio_sync.go:1058-1076 | three prices, each within the tolerance of the next, chosen differently in two orders |
| CandidateChoice.RankIgnoredElsewhere | controller/ratio_sync.go:1194-1225 | without an official or prefixed listing a cheaper candidate wins over one of better rank |
| PricingData.CleanEntries | controller/ratio_sync.go:148-162 | one field keeps exactly its usable values, normalised |
| PricingData.SettleName | controller/ratio_sync.go:165-197 | the mode decision for one model rewrites that model's fields and no other's |
| PricingData.EffectivePricingSyncData | controller/ratio_sync.go:145-199 | the in-place loops compute the effective table |
| PricingData.EffectiveIsCanonical | controller/ratio_sync.go:145-199 | each surviving model is tiered with a trimmed nonempty expression and no number, or ratio with a price alone, or ratio with a model ratio and no price |
| PricingData.TieredModel | controller/ratio_sync.go:165-179 | from raw data: a model in tiered mode keeps its trimmed expression alone, and disappears when that is blank |
| PricingData.RatioModel | controller/ratio_sync.go:180-197 | from raw data: any other model keeps its price alone, else its numbers if it has a ratio, else nothing |
| PricingData.CleanWrittenOut | controller/ratio_sync.go:150-160 | integers count as numbers, and only finite numbers that are not negative are kept in numeric fields |
| PricingData.CanonicalIsFixed | controller/ratio_sync.go:145-199 | canonical entries are left as they are |
| PricingData.EffectiveTwice | controller/ratio_sync.go:145-199 | normalising twice is normalising once |
| PriceDifferences.NoteSource | controller/ratio_sync.go:722-749 | what one source adds to a row: its cell, its confidence and the two flags |
| PriceDifferences.DiffersWrittenOut | controller/ratio_sync.go:48-62 | two numbers differ when at least a billionth apart, other values when unequal, and a missing local value differs from any |
| PriceDifferences.CellWrittenOut | controller/ratio_sync.go:722-746 | the value where it differs, `same` where there is nothing to tell, nothing where the source lacks it |
| PriceDifferences.TrustedWrittenOut | controller/ratio_sync.go:666-699 | distrusted exactly when the model ratio is 37.5 and the completion ratio 1, each to a billionth |
| PriceDifferences.DraftRow | controller/ratio_sync.go:708-773 | a row is drafted exactly when included, with every eligible source |
| PriceDifferences.DraftReport | controller/ratio_sync.go:650-774 | the nested loops draft every row of every model |
| PriceDifferences.DifferingSources | controller/ratio_sync.go:776-785 | the sources with a real difference anywhere |
| PriceDifferences.Prune | controller/ratio_sync.go:787-813 | dropping the other sources and the rows left empty |
| PriceDifferences.BuildDifferences | controller/ratio_sync.go:634-816 | normalise both sides, draft, prune |
| PriceDifferences.DraftedExactly | controller/ratio_sync.go:701-774 | a row is drafted if and only if some eligible source has a value that local lacks or that differs |
| PriceDifferences.DifferingExactly | controller/ratio_sync.go:776-785 | a source survives pruning exactly when it has, somewhere, a difference not spelled like the marker |
| PriceDifferences.ReportedExactly | controller/ratio_sync.go:634-816 | on canonical tables a row is output if and only if some eligible source has a value that local lacks or that differs, except the expression of a model whose differing sources all spell theirs `same` |
| PriceDifferences.CompleteExactly | controller/ratio_sync.go:634-816 | the report lists exactly the differences if and only if no model has all its differing expressions spelled `same` |
| PriceDifferences.DifferencesAreExact | controller/ratio_sync.go:634-816 | the same for any input tables, with distinct source names |
| PriceDifferences.RatioRowReported | controller/ratio_sync.go:634-816 | from raw data: with one source and tokens priced on both sides, the ratio row is output exactly when the ratios are at least a billionth apart |
| PriceDifferences.ExpressionRowReported | controller/ratio_sync.go:634-816 | from raw data: with an expression on both sides, exactly when the trimmed texts differ and the source's is not `same` |
| PriceDifferences.ExpressionHidesNumbers | controller/ratio_sync.go:702-712 | once any side has an expression for a model, none of its numbers is output |
| PriceDifferences.ReportedContents | controller/ratio_sync.go:634-816 | an output row holds the local value and exactly the compared sources that survive pruning, each with its cell and confidence |
| PriceDifferences.PruningKeepsRows | controller/ratio_sync.go:776-813 | pruning deletes no row if and only if no model has all its differing expressions spelled `same` |
| PriceDifferences.SameExpressionVanishes | controller/ratio_sync.go:776-813 | one source with the expression `same` against another local expression: the row is drafted and pruned away |
| MultiKey.Channel.SetKey | controller/channel.go:2476-2559 | the stored columns after disabling or enabling one key, and refusal exactly of a missing or out-of-range index |
| MultiKey.Channel.EnableAllKeys | controller/channel.go:2561-2583 | the stored columns after enabling all keys, and the reported number of dropped status entries |
| MultiKey.Channel.DisableAllKeys | controller/channel.go:2585-2630 | the loop disables every enabled key and reports how many there were |
| MultiKey.Channel.RemoveKey | controller/channel.go:2632-2710 | the re-indexing loop with its running index, and refusal of the last key |
| MultiKey.Channel.RemoveDisabledKeys | controller/channel.go:2712-2777 | the re-indexing loop over automatically disabled keys, and the number deleted |
| MultiKey.ReindexedRecords | controller/channel.go:2650-2682 | re-indexing three sparse maps displays the old records with just the deleted ones left out |
| MultiKey.ReindexedValid | controller/channel.go:2650-2682 | re-indexing keeps indices in range and times and reasons on disabled keys only |
| MultiKey.ApplyRefines | controller/channel.go:2476-2779 | every operation keeps the store valid and acts on the displayed list as the plain-list operation |
| MultiKey.RunRefines | controller/channel.go:2476-2779 | so does every sequence of operations |
| MultiKey.OperationsWrittenOut | controller/channel.go:2476-2630 | the record of each key after enabling or disabling one or all, with the status numbers |
| MultiKey.DeletesAutoDisabled | controller/channel.go:2712-2777 | as long as a key of another status remains, exactly the records of status 3 go |
| MultiKey.DeleteDisabledFilters | model/channel.go:757-809 | deleting disabled keys leaves exactly the other records if and only if there is another one, or no key at all |
| MultiKey.AllDeletedKeysReturn | model/channel.go:757-809 | a single automatically disabled key comes back enabled when deleted |
| MultiKey.StatusView | controller/channel.go:2365-2474 | the rows of the page shown, each with position, status, time, reason and preview, its clamped number, the totals and the three counts |
| MultiKey.PreviewWrittenOut | controller/channel.go:2413-2417 | a key of up to ten characters is shown whole, a longer one by its first ten and three dots |
| MultiKey.RowWrittenOut | controller/channel.go:2380-2412 | the status of a line is 1 when none is stored, and time and reason show only when it is not 1 |
| MultiKey.ListedExactly | controller/channel.go:2428-2438 | the filtered list ascends and holds exactly the positions that pass the filter |
| MultiKey.PagesCover | controller/channel.go:2440-2458 | turning all pages shows the filtered list, nothing missing or repeated |
| MultiKey.CountsMatchFilter | controller/channel.go:2394-2402 | a status is counted as often as the list filtered by it is long |
| CacheStats.Counters.DecrementDiskFiles | common/disk_cache_config.go:115-122 | the disk counters after a release, clamped at zero |
| CacheStats.Counters.DecrementMemoryBuffers | common/disk_cache_config.go:131-134 | the memory counters after a release, not clamped |
| BodyStorage.MemoryStorage.Read | common/body_storage.go:62-69 | the answer and the moved cursor, or the closed error |
| BodyStorage.ReadsWrittenOut | common/body_storage.go:62-203 | a read of either storage delivers the bytes at the cursor, as many as asked or left, and moves the cursor by that many |
| BodyStorage.SeeksWrittenOut | common/body_storage.go:71-212 | a seek goes from the start, the cursor or the end, and fails in place before the start |
| BodyStorage.MemoryStorage.Close | common/body_storage.go:80-87 | only the first close releases the counters |
| BodyStorage.MemoryStorage.NewReader | common/body_storage.go:98-108 | a fresh reader at offset 0, or the closed error |
| BodyStorage.DiskStorage.Bytes | common/body_storage.go:225-257 | the save, rewind, read, restore sequence computes `DiskBytes`, error paths included |
| BodyStorage.DiskStorage.Close | common/body_storage.go:214-223 | only the first close closes and removes the file and releases the counters |
| BodyStorage.DiskStorage.NewReader | common/body_storage.go:259-275 | a fresh descriptor at offset 0, or the closed error |
| BodyStorage.CreateBodyStorage | common/body_storage.go:286-304 | which kind of storage is made, that it holds all of the data, and the counters |
| BodyStorage.DiskWhen | common/body_storage.go:291-293 | a body goes to disk exactly when caching is on, it reaches the threshold, it fits the maximum and the disk takes it |
| BodyStorage.CreateBodyStorageFromReader | common/body_storage.go:307-348 | the creation or refusal, the storage made, its hit counted once, and counters untouched on refusal |
| BodyStorage.SizeGate | common/body_storage.go:307-348 | the whole stream if it fits and the too-large error if not, if and only if the limit is not the largest 64-bit number or the stream is empty |
| StorageRuns.WholeBodyKeepsCursor | common/body_storage.go:225-257 | reading everything through the shared cursor returns every byte and leaves the storage as it was |
| StorageRuns.StepAgrees | common/body_storage.go:62-275 | memory and disk stay in agreement under every operation, and answer alike if and only if the operation is regular |
| StorageRuns.RunAgrees | common/body_storage.go:62-275 | over any run the answers are equal if and only if every operation was regular |
| StorageRuns.Interchangeable | common/body_storage.go:14-31 | nonempty reads and readers left alone once closed: no run tells the two apart |
| StorageRuns.DiskReplays | common/body_storage.go:259-275 | a file reader delivers the body in order whatever happens to the storage and to other readers, its closing included |
| StorageRuns.MemoryReplays | common/body_storage.go:98-108 | a memory reader does too |
| StorageRuns.ClosedForGood | common/body_storage.go:62-275 | after a close every request to either storage reports that it is closed |
| StorageRuns.EmptyReadDiffers | common/body_storage.go:62-69 | an empty read of an empty body is answered differently |
| StorageRuns.ClosedReaderDiffers | common/body_storage.go:98-108 | a replay reader read after its closing still delivers in memory and fails on disk |
| StorageAccounting.NextExact | common/disk_cache_config.go:109-134 | every creation and closing keeps the counters equal to the number and size of open storages, and no clamp fires |
| StorageAccounting.RunExact | common/disk_cache_config.go:109-134 | so does every run, storages closed any number of times |
| StorageAccounting.AllClosed | common/disk_cache_config.go:109-134 | with everything closed the usage counters are zero |
| StorageAccounting.HitsWrittenOut | common/body_storage.go:307-347 | only a creation from a reader counts a hit, one of the kind it made |
| StorageAccounting.FitsExactly | common/disk_cache_config.go:170-177 | one event keeps every process within the disk maximum if and only if it is not a stream that is admitted on its announced length and delivers more |
| StorageAccounting.HonestRunsFit | common/disk_cache_config.go:170-177 | creations one after the other, none of that kind, stay within the maximum over every run |
| StorageAccounting.ShortAnnouncementOverruns | common/body_storage.go:307-331 | a stream that announces one byte and delivers more than the maximum overruns it |
| StorageAccounting.CreationIsAdmitThenCommit | common/body_storage.go:286-348 | testing the usage and counting the body, as two steps with nothing between, is the creation in one piece |
| StorageAccounting.ServeExact | common/disk_cache_config.go:109-134 | the counters stay equal to the open storages however concurrent requests interleave |
| StorageAccounting.ConcurrentUsage | common/body_storage.go:286-348 | on every interleaving the disk usage is at most the maximum plus what creations admitted together have reserved and announced too short |
| StorageAccounting.HonestOverrun | common/body_storage.go:291-301 | two bodies of honest length, each within the maximum and admitted before either is counted, are both counted, above the maximum if they do not fit together |
| OggScan.ScanSamples | common/audio.go:196-254 | the seeking loop terminates on every byte string and returns the largest granule position over `Visited`, the headers it meets |
| OggScan.VisitedAreHeaders | common/audio.go:219-226 | every visited position is a capture pattern with a full header, and no two overlap |
| OggScan.HeaderWrittenOut | common/audio.go:219-220 | a header is 27 bytes beginning with the characters of OggS |
| OggScan.LittleEndian | common/audio.go:229-229 | later bytes of a number weigh 256 times the one before |
| OggScan.SumWrittenOut | common/audio.go:241-245 | the body length is the sum of the lacing values |
| OggScan.LargestIs | common/audio.go:228-232 | the result is zero or a visited granule position, and none is larger |
| OggScan.GranuleRoundTrip | common/audio.go:229-229 | the eight little-endian bytes of a signed granule position read back as that number |
| OggScan.PageAt | common/audio.go:219-249 | a well-formed page at a position is recognised, its granule read and its end found |
| OggScan.FileSamples | common/audio.go:196-254 | on well-formed pages back to back the scan visits exactly the page headers and returns the largest nonnegative granule position |
| OggScan.JunkThenPages | common/audio.go:219-226 | leading bytes without a capture pattern change nothing |
| OggScan.OpusDuration | common/audio.go:251-253 | the duration is that position over 48000 |
| QuotaMath.SaturateBounded | common/quota_math.go:86-100 | every conversion lies within its bounds |
| QuotaMath.ClampExactly | common/quota_math.go:86-100 | each kind of clamp is reported if and only if the value lies on that side of the range or is not a number |
| QuotaMath.SaturateMonotone | common/quota_math.go:86-100 | a larger value never converts to less |
| QuotaMath.RoundedIsNearest | common/quota_math.go:133-142 | the result is the number in range nearest to the rounded value, clamped if and only if that was out of range |
| QuotaMath.ConversionsMonotone | common/quota_math.go:112-175 | the float, rounded, decimal and wallet conversions are monotone |
| QuotaMath.SpecialsWrittenOut | common/quota_math.go:86-100 | what is no number converts to zero and the infinities to the bounds, each reported as its kind |
| QuotaMath.FloatStrictExact | common/quota_math.go:125-127 | accepted if and only if the untruncated value is in range, with the truncated result |
| QuotaMath.RoundStrictExact | common/quota_math.go:146-148 | accepted if and only if the value rounds into range, with that number |
| QuotaMath.DecimalStrictExact | common/quota_math.go:166-168 | the same for decimals, through any float conversion that is monotone and exact to 2^53 |
| QuotaMath.WalletStrictExact | common/quota_math.go:172-175 | accepted if and only if the decimal rounds into ±(2^53 − 1), with that number |
| QuotaMath.SettleTestQuota | controller/channel-test.go:681-692 | the reassignments compute the settled charge |
| QuotaMath.ChargeWithin | controller/channel-test.go:682-689 | a ratio charge in range is within half a unit and half the model ratio of modelRatio times prompt plus completionRatio times completion, or is the least charge of one |
| QuotaMath.ChargeExact | controller/channel-test.go:682-689 | where no step rounds it is exactly that |
| QuotaMath.PriceCharge | controller/channel-test.go:692-692 | a price charge is 500000 times the price without its fraction, up to the largest quota |
| Numbers.RoundHalves | common/quota_math.go:140-142 | halves round away from zero, and rounding and truncating are symmetric |
| QuotaMath.SettledNonnegative | controller/channel-test.go:681-692 | the charge is between zero and the maximum, and at least one at a nonzero ratio |
| QuotaMath.SettledMonotone | controller/channel-test.go:681-692 | at nonnegative ratios more tokens never cost less |
| VerificationCodes.Codes.Register | common/verification.go:35-45 | the code is stored under the joined key, and an oversized map is swept |
| VerificationCodes.Codes.Verify | common/verification.go:47-56 | accepts exactly a stored, unexpired, equal code |
| VerificationCodes.Codes.RemoveExpired | common/verification.go:65-72 | the loop removes exactly the expired entries |
| VerificationCodes.JoinsCollide | common/verification.go:36-38 | two purposes can be joined with keys to one identifier if and only if one is a prefix of the other |
| VerificationCodes.JoinInjective | common/verification.go:36-38 | joined keys of purposes of which none is a prefix of the other are equal only if both parts are |
| VerificationCodes.AcceptsLatest | common/verification.go:35-72 | after every run with sweeps over a prefix-free set of purposes, a code is accepted if and only if it is the latest undeleted one for its purpose and key and younger than ten minutes |
| VerificationCodes.AgreesExactly | common/verification.go:35-72 | this holds on every run over a set of purposes if and only if the set is prefix-free |
| VerificationCodes.PurposesInUseAgree | common/verification.go:16-19 | the two one-character purposes in use are such a set |
| VerificationCodes.RegisterBounds | common/verification.go:35-45 | after a registration the map has at most ten entries or none expired |
| VerificationCodes.LimitsWrittenOut | common/verification.go:23-24 | codes live ten minutes, and the map is swept when it has more than ten entries |
| VerificationCodes.PrefixTagsCollide | common/verification.go:36-38 | a code registered for a purpose is accepted for any longer purpose that starts with it |

## Left out

- `sortTagChannelsByModelRatio` and its paging: grouping and a library sort, easy next to the rest.
- Database, HTTP, Redis, plugin engine and JSON: writes are taken to succeed, fetched data is a parameter. `Channel.Update` is modelled by what it leaves in the key columns.
- The branch of key management that stores keys in their own table, and updating a single key's text.
- Keys are a sequence of strings; splitting and joining the key column, with its JSON form, is not modelled. Key previews count characters where the code counts bytes.
- Regular expressions: whether a rule matches a name is an arbitrary function of both. Lower-casing, the inference of a vendor from a model name and the identifier prefixes are likewise arbitrary functions where order and choice do not depend on them; in the kind of a tier lower-casing covers the letters A to Z.
- Prices, ratios and durations are real numbers. Floating-point rounding is outside the model except for NaN and infinities in quota conversion and the float step of decimal conversion.
- Billing expressions are syntax trees with an evaluator; their printed form and the full expression language are not modelled.
- Clocks are arguments. In the worker pool a call of `run` is taken to return, and goroutines interleave at channel operations, context tests and the actions that follow them.
- The two counters that one new or released body changes are changed in one step; between the two atomic additions of the code another request may see one without the other.
- Counters, sizes and positions do not overflow; the one place where 64-bit overflow changes the outcome, the size gate, models it.
- Body storage: failing reads, writes and seeks of an open file are not modelled, a failing creation is; cleanup of old cache files and resynchronising the counters with the directory are left out, as both act apart from open storages.
- OggScan.ScanSamples: the source is taken to deliver 27 bytes whenever that many are left; a reader that returns fewer in mid-file would end the scan of the code.
- RateLimiter.InMemoryRateLimiter.Request: a negative limit, with which the original panics when it makes a queue, is not modelled; limits are natural numbers.
- The other audio formats, and the checksum and sequence numbers of Ogg pages, which the scan ignores.
- The tiered settlement tried before the fallback of `settleTestQuota`.
