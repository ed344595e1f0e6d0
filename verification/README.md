# Verification of the routing, fallback and protocol cores

This project models the parts of the proxy whose correctness is hardest to see from one function, and proves what they promise for every input, every run and every interleaving. All paths are relative to the repository root.

**Routing and fallback.** `FallbackOrder` holds the two list operations that keep provider diversity; `RouteBudget` counts failures per provider; `Cooldowns` decides which routes a failure blocks and for how long; `CooldownStatuses` says so status by status; `FreePool`, `SelectionSafety` and `SelectionOrder` order the catalog into at most twelve slots; `LineFraming` and `FreeStream` decide from raw bytes when a stream has produced output, and `FreeStreamMeaning` says what those bytes mean; `Execution` and `ExecutionSafety` are the commit-point state machine that tries one candidate after another, `ExecutionFates` tells what becomes of each, and `RoutingSafety` puts it together with the cooldown table; `CapacityRecovery` and `RecoveryResponse` are the bounded retry rounds of one request and the waiting response around them.

**Other cores.** `RateLimit` is the strict sliding window; `SessionEvents` the bounded event fan-out; `ServerSupervisor` the restart protocol; `ToolNames`, `ToolAliases`, `ToolNameCodec` and `ChatToolNames` the reversible tool names; `CategorySpans`, `PatternScanner`, `PatternTranslation`, `PatternAcceptance`, `ClassMembers` and `ToolSchema` the translation of Unicode categories in tool schemas; `Base64Url`, `HistoryReplay`, `HistoryProjection` and `HistoryMeaning` the replay records and their projection; `AdminAccounts` and `AdminLogins` the Admin account. `Common`, `JsonPaths` and `Sorting` hold shared values, places in a document and Python's stable `sorted`.

**Two descriptions of what decides.** The functions that the methods are tied to follow the source branch by branch. What they decide is then described a second time without them, in other terms: by status and seconds, by position, by member of an event, by what stands at a place of a document; and a lemma shows, for all inputs, that the two descriptions agree.

**How it is modelled.** Objects whose methods update fields are classes with the same fields; every method is tied to a function of the old state, and the theorems are lemmas about those functions. A method body is one atomic step: asyncio code between two awaits, threaded code under its lock. Other tasks, processes and threads act between steps, so an invariant that every method keeps holds in every interleaving; where a statement is about whole runs, the steps are a sequence and the lemma is about all sequences. Time is a parameter that does not go back. Upstream streams are arbitrary finite lists of events. Hashes, key derivation, JSON text, the Unicode database, error classification and the regular-expression compiler are function parameters; what is assumed about them is written in the contracts (`Inverse`, `IsDigest`, `Roomy`, `Inhabited`, `Injective`, `ReadsBack`).

## Properties that do not hold as documented

Each of these has its exact condition proved.

- Cutting a stream into chunks differently changes the outcome of the stream check exactly when some line read before the first failure is longer than 2 MiB: the limit is checked on what is left after a chunk, not on lines (`FreeStream.VerdictIndependentOfChunks`).
- The rate limiter's text promises its bound for any interval of the window's length. It holds for half-open intervals. For intervals with both their ends it holds exactly when no grant comes exactly one window after the one `limit` places before it; at worst such an interval holds twice the limit, which a run of the limiter attains (`RateLimit.WindowBound`, `RateLimit.ClosedWindowExactly`, `RateLimit.ClosedWindowBound`, `RateLimit.TwoBursts`, `RateLimit.FillTwice`).
- A model-scoped or paid failure can cool a sibling or a free route when a model id spells a billing label, or starts with one and a colon, and only then; the lemmas name the exact ids (`Cooldowns.ModelScopedFailure`, `Cooldowns.PaidFailureAndFreeRoute`, and one such failure of either kind in `Cooldowns.SiblingCooled` and `Cooldowns.FreeRouteCooled`).
- A restart that the supervisor reports as accepted is not always carried out. It is, in the run that was active, exactly when at that moment the run thread has neither passed its exit check nor lost its server to an exception, no operation on the way to the next load of the settings raises, the runtime is closed if the thread has an exit check to pass, and no stop comes before the thread last passes the head of its loop. One accepted after the exit check is lost, and so is one followed by a stop; both are reached by a first run (`ServerSupervisor.RestartTakesEffect`, `ServerSupervisor.LostAfterExitCheck`, `ServerSupervisor.LostToStop`). A restart accepted before a scheduled run begins has the same condition from the head of that run's loop on (`ServerSupervisor.RestartBeforeRun`).
- Text that is not a tool name of the request survives the tool-name codec exactly when it is not one of the request's aliases (`ToolNameCodec.ComesBackExactly`; `ToolNameCodec.AliasDoesNotComeBack` has a request whose alias does not survive).

## Model

| member | source | states |
|---|---|---|
| `FallbackOrder.PreferNextProvider` | src/free_claude_code/core/fallback_order.py:4-20 | the list is rearranged in place exactly as the reference function says: the first other provider in the next category's run moves right behind the failed candidate |
| `FallbackOrder.NextProviderDiffers` | src/free_claude_code/core/fallback_order.py:11-20 | the candidate after a failure has a different provider if and only if the next category's run contains one; otherwise nothing moves |
| `FallbackOrder.NextOtherMoves` | src/free_claude_code/core/fallback_order.py:11-20 | the first candidate of another provider in the next run comes right behind the failed one, those it passes move up by one, and every other one stays where it is |
| `FallbackOrder.PreferenceKeepsCategories` | src/free_claude_code/core/fallback_order.py:4-20 | the move is a permutation that leaves everything up to the failed position and the billing category of every position as they were |
| `FallbackOrder.PreferredIsDiverse` | src/free_claude_code/core/fallback_order.py:11-20 | after a failure the list is diverse at that position |
| `FallbackOrder.DiversityStays` | src/free_claude_code/core/fallback_order.py:11-20 | a failure further on does not undo the diversity at an earlier position |
| `FallbackOrder.ReserveProviderCandidates` | src/free_claude_code/core/fallback_order.py:23-36 | the loop returns the candidates at the greedy positions |
| `FallbackOrder.ReservationCovers` | src/free_claude_code/core/fallback_order.py:23-36 | for every list and budget the reservation is a subsequence of length min(budget, n) that covers exactly min(budget, number of providers) providers |
| `FallbackOrder.ReservationIsEarliest` | src/free_claude_code/core/fallback_order.py:23-36 | among all selections of that size and coverage it is the lexicographically earliest, and the only one that is |
| `RouteBudget.RouteAttemptBudget.RecordFailure` | src/free_claude_code/application/route_budget.py:17-18 | one more failure for that provider, nothing else changed |
| `RouteBudget.RecordedCounts` | src/free_claude_code/application/route_budget.py:14-18 | a failure recorded while allowed keeps every provider within three failures and counts for one provider only |
| `RouteBudget.TotalAfterFailure` | src/free_claude_code/application/route_budget.py:17-18 | recording a failure adds exactly one to the total over any set of providers with that provider |
| `RouteBudget.TotalBound` | src/free_claude_code/application/route_budget.py:10-15 | within the limit, P providers have at most 3 P failures together |
| `RouteBudget.Sum` | src/free_claude_code/api/capacity_recovery.py:83-95 | summing the dictionary's values gives the total over its providers, whatever the iteration order |
| `LineFraming.DrainThenMore` | src/free_claude_code/core/free_stream.py:39-49 | consuming the complete lines first and the rest later gives the same state, buffer and error as consuming all at once, for any line handler |
| `LineFraming.CutIndependence` | src/free_claude_code/core/free_stream.py:39-88 | all ways of cutting the bytes into chunks agree if and only if no line read before the first failing one is longer than the limit |
| `FreeStream.FreeStreamCheck.FeedChunk` | src/free_claude_code/core/free_stream.py:39-88 | one call observes the complete lines as the fold over lines does, keeps the rest, and raises the same failure at the same line; what that means for the bytes is `FreeStreamMeaning.CallMeans` |
| `FreeStream.VerdictIndependentOfChunks` | src/free_claude_code/core/free_stream.py:39-88 | the check's verdict is independent of the chunking exactly when the lines are short |
| `FreeStream.FlagsAreMonotone` | src/free_claude_code/core/free_stream.py:39-82 | completion and output are only ever switched on |
| `FreeStream.DrainUnflagged` | src/free_claude_code/core/free_stream.py:61-88 | the check raises no failure marked safe for recovery unless the classifier marks it |
| `FreeStreamMeaning.CallMeans` | src/free_claude_code/core/free_stream.py:39-88 | for any lines and unfinished rest of the bytes of one call: an error event raises exactly its classified failure, a type that cannot be looked up or a misshapen event before any output a TypeError, and nothing behind is looked at; `complete` is set exactly by `[DONE]` or one of the three closing types, and `hasOutput` exactly by an event with a truthy delivered member; a rest is kept, and refused exactly above 2 MiB |
| `FreeStreamMeaning.StreamMeans` | src/free_claude_code/core/free_stream.py:39-88 | the same for a whole stream in any chunks, whenever the size failure is not raised or no line is longer than 2 MiB |
| `FreeStreamMeaning.LineMeans` | src/free_claude_code/core/free_stream.py:44-82 | what one line says, read from its bytes and the members of its event listed as data, is what it does to the check |
| `FreeStreamMeaning.StripTrims` | src/free_claude_code/core/free_stream.py:46 | the value of a line is its text without the white space at either end, which is unique |
| `FreeStreamMeaning.EveryBytesAreLines` | src/free_claude_code/core/free_stream.py:41-45 | all bytes are complete lines and an unfinished rest, so the statements about lines are about all bytes |
| `FreeStreamMeaning.OtherMembersIgnored` | src/free_claude_code/core/free_stream.py:54-130 | members of an event outside the listed six change nothing |
| `FreeStreamMeaning.OtherPartsIgnored` | src/free_claude_code/core/free_stream.py:96-115 | nor do parts of a content block, a delta or an item outside those listed for it |
| `FreeStreamMeaning.OtherChoicePartsIgnored` | src/free_claude_code/core/free_stream.py:116-130 | nor do members of a choice or of its delta outside those listed |
| `Execution.ProviderExecutor.HandleChunk` | src/free_claude_code/application/execution.py:446-497 | a free route's chunk is checked and held back until output or completion was seen; everything else is yielded at once, in order and once |
| `Execution.ProviderExecutor.ReadStream` | src/free_claude_code/application/execution.py:424-508 | consuming one stream yields exactly what the reading function says and ends as it says |
| `Execution.ProviderExecutor.Attempt` | src/free_claude_code/application/execution.py:373-558 | one candidate is skipped, opened, read, closed and accounted for as the turn function says |
| `Execution.ProviderExecutor.Conclude` | src/free_claude_code/application/execution.py:538-560 | success and failure are recorded for free routes only, and output decides whether the next candidate follows; which outcome is recorded as what is `ExecutionFates.EveryCandidateTold` |
| `Execution.ProviderExecutor.StreamCandidates` | src/free_claude_code/application/execution.py:369-596 | a whole execution, with the list rearranged while it is walked, is the run function's run; what it raises when all candidates are used up is `ExecutionFates.ExhaustedByLast` |
| `Execution.LoopRearranges` | src/free_claude_code/application/execution.py:559-569 | what a failure does to the list touches only later positions, permutes them and keeps every position's category |
| `ExecutionSafety.ReadInvariant` | src/free_claude_code/application/execution.py:424-497 | an inductive invariant of single events holds at the end of every stream, and what a stopping event leaves holds at exactly the event where the loop stops |
| `ExecutionSafety.OneSource` | src/free_claude_code/application/execution.py:373-558 | everything an execution yields comes from the one candidate where it ended and is exactly the text of the events that candidate had sent when its turn stopped reading, none lost and none repeated, or nothing when that text is withheld; a free route's text is passed on exactly when the check has seen output or completion in it; the consumer closes only after receiving one chunk more than it asks for; earlier candidates contribute nothing; a normal end delivers the whole stream |
| `ExecutionSafety.StopIsEarliest` | src/free_claude_code/application/execution.py:424-508 | a turn stops reading at its first failure event, or at the first chunk that the check of a free route refuses, that takes withheld text over the limit, or after which the consumer closes; otherwise at the end of the stream |
| `ExecutionSafety.OnlyUnseenIsDropped` | src/free_claude_code/application/execution.py:446-508 | the next candidate is tried only while all that the failed one has sent is withheld |
| `ExecutionSafety.EachCandidateOnce` | src/free_claude_code/application/execution.py:373-569 | the final list is a permutation with the same category at every position; each candidate is opened at most once and in order; every recorded failure or success directly follows the opening of its own candidate; at most one success is recorded, last and about the candidate where the run ended, exactly when a free route's stream ended normally |
| `ExecutionSafety.SuccessMeansComplete` | src/free_claude_code/application/execution.py:493-545 | a recorded success means the stream was read to its end, accepted by the check and complete |
| `ExecutionSafety.NothingForgotten` | src/free_claude_code/application/execution.py:373-382 | every position up to the end was opened when its turn came, except exactly those whose provider had by then reached the limit, counting the failures before the run and those charged to it in the calls made so far, or whose free route was cooling down; exhaustion covers all positions |
| `ExecutionSafety.AnotherProviderNext` | src/free_claude_code/application/execution.py:559-569 | after an attempt that failed before output the next position has another provider whenever its category's run still has one |
| `ExecutionSafety.FailuresBounded` | src/free_claude_code/application/execution.py:547-558 | no execution takes a provider above its limit, and the failure total of the candidates' providers grows by exactly the failures charged to them |
| `ExecutionSafety.SafeFailureMeansSilence` | src/free_claude_code/application/execution.py:580-596 | a failure marked safe for recovery is raised only when all candidates were used up and nothing was delivered, and then exactly when no output was started and the status is 402, 429, 502, 503, 504 or 529 |
| `ExecutionFates.EveryCandidateTold` | src/free_claude_code/application/execution.py:373-560 | behind every opening of a run stands exactly what became of that candidate, read from what its upstream did: for a free route that failed, its failure, with the provider affected unless the request itself was invalid; for one that completed, its success; nothing in all other cases; and the run goes on to the next candidate or ends there as that fate says |
| `ExecutionFates.ExhaustedByLast` | src/free_claude_code/application/execution.py:578-597 | an automatic run that used up its candidates raises the failure of the last one it opened, apart from the mark, and the 503 exactly if it opened none |
| `ExecutionFates.CountsAreRecords` | src/free_claude_code/application/execution.py:547-556 | in a budgeted run the count of every provider grows by exactly the recorded failures of its free routes that affect it; without a budget no count changes |
| `RoutingSafety.OpenedIsNotCooling` | src/free_claude_code/application/execution.py:373-382 | a free route that an execution opened was not cooling down when its turn came |
| `RoutingSafety.NoOpeningDuringCooldown` | src/free_claude_code/application/execution.py:373-560 | after an execution has recorded a failure, whatever else happens to the table, it opens no later candidate that looks up the failure's key before the failure's deadline, unless that entry was cleared or overwritten |
| `RoutingSafety.ProviderWideKey` | src/free_claude_code/application/free_pool.py:780-797 | a free route's failure that is not about its model alone is looked up by every route of its provider |
| `CapacityRecovery.CreateKeeps` | src/free_claude_code/api/capacity_recovery.py:18-26 | a creation marked for a retry produced nothing, and no creation exceeds the failure limits |
| `CapacityRecovery.CreateMeans` | src/free_claude_code/api/capacity_recovery.py:18-26 | a creation carries the mark and the status of the failure that refused its selection or that its execution raised, and no mark otherwise |
| `CapacityRecovery.RecoverableRequest.CreateOnce` | src/free_claude_code/api/capacity_recovery.py:80-90 | one creation, together with the streaming of its response, runs the executor on the shared budget; what it produces is added to what the client receives, and nothing is produced under a retry mark |
| `CapacityRecovery.RecoverableRequest.Attempt` | src/free_claude_code/api/capacity_recovery.py:80-97 | every creation of an attempt but its last was marked, recoverable by its status, made while routing was automatic and a route selectable, and used up some of the failure budget, and its last was not all of these; one retry for each creation after the first, paid for by failures, at most three per provider in all; what it produces is the output of its last creation only |
| `CapacityRecovery.RecoverableRequest.Serve` | src/free_claude_code/api/capacity_recovery.py:99-160 | over a whole request there is one attempt at first and one at every wake that makes one, every answer but the last is safe, and a creation ends an attempt exactly if it is not tried again at once; the waiting goes on from a wake exactly if routing is on, the deadline has not passed and an attempt there ends in time; a safe response is handed out only at a wake with automatic routing off, and the timeout given only for a safe response at a wake that does not lead on, or after the last; everything produced comes from the last creation, which gave the response, and a timeout follows on no output at all |
| `RecoveryResponse.CapacityRecovery.Enter` | src/free_claude_code/api/capacity_recovery.py:111-123 | a connection waits only while fewer than the maximum wait; otherwise it starts forwarding the first response without taking a place |
| `RecoveryResponse.CapacityRecovery.Leave` | src/free_claude_code/api/capacity_recovery.py:187-198 | the counter is decremented exactly once when a connection stops waiting |
| `RecoveryResponse.CapacityRecovery.SendStart` | src/free_claude_code/api/capacity_recovery.py:121-133 | in stream mode the one response start is sent first |
| `RecoveryResponse.CapacityRecovery.SendHeartbeat` | src/free_claude_code/api/capacity_recovery.py:200-208 | one heartbeat is added, in stream mode, before the final response |
| `RecoveryResponse.CapacityRecovery.Decide` | src/free_claude_code/api/capacity_recovery.py:135-138 | the head of the waiting loop: forward, time out or attempt again |
| `RecoveryResponse.CapacityRecovery.EndAttempt` | src/free_claude_code/api/capacity_recovery.py:140-160 | an attempt replaces the response, or the deadline replaces it by the timeout reply |
| `RecoveryResponse.CapacityRecovery.Forward` | src/free_claude_code/api/capacity_recovery.py:113-198 | the final response, or the first one of a connection without a place, is forwarded message by message, without its start in stream mode; the last message ends the wait |
| `RecoveryResponse.CapacityRecovery.Cancel` | src/free_claude_code/api/capacity_recovery.py:113-198 | cancellation at any await gives a waiter's place back, and only a waiter's |
| `RecoveryResponse.ResponseShape` | src/free_claude_code/api/capacity_recovery.py:111-208 | in every phase at most one response start and nothing before it, heartbeats only on waiting streams and before any body of the final response; a connection that ended normally sent one start and closed the body exactly once, at the end; one without a place has at any moment sent the beginning of the first response |
| `RecoveryResponse.WholeResponse` | src/free_claude_code/api/capacity_recovery.py:162-208 | a connection that ended normally has sent the final reply message for message, or in stream mode a start of its own, its heartbeats and the bodies of the reply, or one frame for an error |
| `Cooldowns.CooldownTable.Find` | src/free_claude_code/application/free_pool.py:780-797 | the first of the four keys with an entry in force that applies to the route |
| `Cooldowns.CooldownTable.RecordFailure` | src/free_claude_code/application/free_pool.py:1066-1144 | the failure's key gets its penalty, and expired entries are dropped; what that does to each route, by status, is `CooldownStatuses.FailureBlocks` and `CooldownStatuses.OthersAsBefore` |
| `Cooldowns.CooldownTable.NoteBalance` | src/free_claude_code/application/free_pool.py:443-458 | a balance check that finds no credit blocks the paid routes for 300 seconds |
| `Cooldowns.CooldownTable.NoteQuota` | src/free_claude_code/application/free_pool.py:485-503 | a quota check that finds no free request left blocks the provider's free routes for 300 seconds, or until a later daily-quota deadline that is already stored |
| `Cooldowns.CooldownTable.Clear` | src/free_claude_code/application/free_pool.py:453-533 | clearing a key removes that entry and the expired ones |
| `Cooldowns.DailyQuotaNeverBlocksPaid` | src/free_claude_code/application/free_pool.py:780-797 | a daily free-quota entry never blocks a route that is not free, and no expired entry blocks anything |
| `Cooldowns.DeadlineBound` | src/free_claude_code/application/free_pool.py:1082-1144 | the deadline of a failure whose hint was read from a Retry-After header lies ahead of its recording and within 172800 seconds of it |
| `Cooldowns.RetrySeconds` | src/free_claude_code/core/free_stream.py:14-27 | a header gives a hint exactly if it states seconds: these, or 0 if negative and 172800 if more |
| `Cooldowns.DeadlineExactly` | src/free_claude_code/application/free_pool.py:1082-1144 | for failures with any hint, including those no header gives, the bound fails exactly for the one hint that the table stores as it is |
| `Cooldowns.DeadlinesBounded` | src/free_claude_code/application/free_pool.py:140-162 | in every history of a loaded table, with failures, refreshes and clearings, no entry ever lies more than 172800 seconds ahead |
| `Cooldowns.ModelScopedFailure` | src/free_claude_code/application/free_pool.py:780-797 | exactly which other routes of a provider a model-scoped failure cools; none for ids that are not billing labels |
| `Cooldowns.SiblingCooled` | src/free_claude_code/application/free_pool.py:1066-1144 | a failing route with model id `free` cools a sibling with another id |
| `Cooldowns.PaidFailureAndFreeRoute` | src/free_claude_code/application/free_pool.py:780-797 | exactly when a paid or subscription failure cools a free route: when the free model id spells the stored key's label |
| `Cooldowns.FreeRouteCooled` | src/free_claude_code/application/free_pool.py:1066-1144 | a paid route without balance cools a free route with model id `paid_api` |
| `Cooldowns.ProvidersAreSeparate` | src/free_claude_code/application/free_pool.py:165-174 | no failure is stored under a key that a route of another provider looks up |
| `Cooldowns.TableIsHistory` | src/free_claude_code/application/free_pool.py:1066-1144 | although the table forgets expired entries at every save, at any later moment every key reads as the last failure, refresh or clearing that touched it says, or as it was loaded |
| `Cooldowns.BlockedExactly` | src/free_claude_code/application/free_pool.py:780-797 | over any history a route is blocked exactly when one of its four keys was last touched by the storing of an entry that is in force and applies to it |
| `Cooldowns.FailedRouteStaysBlocked` | src/free_claude_code/application/free_pool.py:1066-1144 | over any history, including what refreshes store, a failed route is blocked until its stored deadline unless the entry is cleared or overwritten |
| `Cooldowns.BlockedOnlyByAnEntry` | src/free_claude_code/application/free_pool.py:780-797 | over any history what blocks a route is an entry in force under one of its own keys, stored by a failure or a refresh and not touched since, or loaded and never touched |
| `CooldownStatuses.PenaltySeconds` | src/free_claude_code/application/free_pool.py:1086-1142 | by status: 400, 404, 413, an unblocked 403 and 5xx are about the one model, as is the request budget of a paid route; 3600 seconds for 401, 402 and a blocked 403, 300 for 400, 403, 404 and 413, 60 for 429 and that budget, 45 or its own hint for an in-flight limit, 45 otherwise; a spent daily quota and a longer hint count instead |
| `CooldownStatuses.FailureBlocks` | src/free_claude_code/application/free_pool.py:1086-1144 | a recorded failure blocks every route that it concerns until that time has passed, and where nothing else blocks the route exactly until then; it concerns the failed model, or all models of the failed billing category, which for a free route are all of its provider; a spent daily quota does not block routes that are not free |
| `CooldownStatuses.OthersAsBefore` | src/free_claude_code/application/free_pool.py:1086-1144 | every other route of the provider whose id spells no billing label is blocked or not exactly as before |
| `CooldownStatuses.OtherProvidersAsBefore` | src/free_claude_code/application/free_pool.py:165-174 | and so is every route of another provider |
| `CooldownStatuses.WidestEntryReported` | src/free_claude_code/application/free_pool.py:780-797 | the entry for all routes of the provider is reported before that for the model, and that for the billing category before that for the model in it |
| `Sorting.SortSorts` | src/free_claude_code/application/free_pool.py:888-915 | sorting by a tuple key orders and permutes |
| `Sorting.SortIsStable` | src/free_claude_code/application/free_pool.py:888-915 | elements with equal keys keep their order |
| `Sorting.InterleaveCounts` | src/free_claude_code/application/free_pool.py:905-915 | taking turns among the providers' lists loses and duplicates nothing; the positions are `SelectionOrder.TurnsBefore` |
| `FreePool.Select` | src/free_claude_code/application/free_pool.py:829-981 | the loops build the ordered selection, or refuse because of context size or because nothing is eligible; the final cut to twelve removes nothing; which models and in which order is said in `SelectionOrder` |
| `FreePool.SlotsFit` | src/free_claude_code/application/free_pool.py:930-975 | keeping one slot for every later category never gives out more than twelve |
| `SelectionSafety.SelectionIsEligible` | src/free_claude_code/application/free_pool.py:829-981 | a selection holds at most twelve models, all eligible and from the catalog, none twice |
| `SelectionSafety.NoCategoryStarves` | src/free_claude_code/application/free_pool.py:916-975 | every billing category with an eligible model keeps a slot, and the selection is empty exactly when nothing is eligible |
| `SelectionSafety.EveryListContributes` | src/free_claude_code/application/free_pool.py:930-975 | the manual choice and every category contribute as many candidates as the slots left after keeping one for each later list, from as many different providers as that number of candidates can come from |
| `SelectionSafety.SucceedsExactly` | src/free_claude_code/application/free_pool.py:829-981 | a selection succeeds exactly when some model is eligible: the context-size refusal never hides one |
| `SelectionSafety.ManualChoiceFirst` | src/free_claude_code/application/free_pool.py:799-808 | an eligible manual choice comes first |
| `SelectionSafety.SelectionIsOrdered` | src/free_claude_code/application/free_pool.py:888-975 | apart from the manual choice, the order is by category, then health, context tier and family preference |
| `SelectionSafety.TurnsKeptWithinTier` | src/free_claude_code/application/free_pool.py:888-915 | among models of equal rank sorting keeps the order of the list that is sorted; that this is the order of turns is `SelectionOrder.CategoryMeans` |
| `SelectionOrder.ProviderListMeans` | src/free_claude_code/application/free_pool.py:873-902 | a provider's list of a category holds exactly its eligible models of it, each once, ordered by tier and within a tier by last success, coding models, larger context and id |
| `SelectionOrder.TurnsBefore` | src/free_claude_code/application/free_pool.py:907 | when lists take turns, the first ones of all come in the order of the lists, then the second ones, and so on |
| `SelectionOrder.CategoryMeans` | src/free_claude_code/application/free_pool.py:868-917 | in a category the a-th model of the i-th provider comes before the b-th of the j-th exactly if it has the better health, context tier or family, or equal ones and (a, i) is lexicographically smaller than (b, j) |
| `SelectionOrder.ProviderOrderMeans` | src/free_claude_code/application/free_pool.py:862-867 | providers come in the order the user has put them in, all others after them in the order in which they are known |
| `SelectionOrder.SelectionKeepsTurns` | src/free_claude_code/application/free_pool.py:905-934 | apart from the manual choice, of two selected models the earlier one is of an earlier category in the user's order or comes before the other one in the list of their category |
| `SelectionOrder.SelectedMeans` | src/free_claude_code/application/free_pool.py:833-859 | every selected model is enabled, allowed, suitable for the request, large enough, not cooling down and of a provider with fewer than three failures; every category with such a model is among the selected ones |
| `SelectionOrder.TooLargeMeans` | src/free_claude_code/application/free_pool.py:833-852 | a request is refused as too large exactly if some models suit it otherwise and none of them is large enough |
| `SelectionOrder.RateLimitMeans` | src/free_claude_code/application/free_pool.py:937-958 | an empty selection is a rate limit exactly if some enabled model is cooling down and all that are do so for a rate limit or a spent daily quota |
| `SelectionOrder.ManualChoiceMeans` | src/free_claude_code/application/free_pool.py:919-930 | when a model that the settings name is usable, the first selected one is named by the settings and comes before all other usable ones in the list of its category |
| `RateLimit.StrictSlidingWindowLimiter.Expire` | src/free_claude_code/core/rate_limit.py:47-51 | the deque is exactly the grants after the cutoff |
| `RateLimit.StrictSlidingWindowLimiter.TryAcquire` | src/free_claude_code/core/rate_limit.py:43-60 | a pass grants and appends the stamp, refuses without a grant, or computes a positive wait until its oldest stamp leaves the window, and keeps the spacing of all grants ever given |
| `RateLimit.GrantKeepsSpacing` | src/free_claude_code/core/rate_limit.py:53-57 | a grant given below the limit keeps any grant and the one `limit` places later a window apart |
| `RateLimit.WindowBound` | src/free_claude_code/core/rate_limit.py:9-13 | any half-open window holds at most the limit of grants, for the whole history |
| `RateLimit.ClosedWindowBound` | src/free_claude_code/core/rate_limit.py:9-13 | an interval with both its ends holds at most twice the limit |
| `RateLimit.ClosedWindowExactly` | src/free_claude_code/core/rate_limit.py:9-13 | every interval with both its ends keeps the documented bound if and only if no two grants `limit` places apart are exactly one window apart |
| `RateLimit.TwoBursts` | src/free_claude_code/core/rate_limit.py:9-13 | granting the limit at once and again one window later puts twice the limit into one such interval |
| `RateLimit.FillTwice` | src/free_claude_code/core/rate_limit.py:43-57 | a run of the limiter, started empty, gives exactly those grants |
| `RateLimit.SleeperFindsExpired` | src/free_claude_code/core/rate_limit.py:59-65 | whatever other acquirers did meanwhile, once the stamps are pruned after the computed wait the awaited stamp no longer counts, and there is room if nobody else was granted anything |
| `SessionEvents.EventPublisher.Subscribe` | src/free_claude_code/application/session_events.py:102-111 | a new observer starts at the current cursor with an empty queue, or the publisher is closed |
| `SessionEvents.EventPublisher.Publish` | src/free_claude_code/application/session_events.py:113-124 | one event is numbered and logged, and every observer is offered it: appended, or cut off with a marker |
| `SessionEvents.EventPublisher.DisconnectSubscribers` | src/free_claude_code/application/session_events.py:135-140 | every fed observer is left one closed marker |
| `SessionEvents.EventPublisher.Close` | src/free_claude_code/application/session_events.py:129-133 | closing ends every feed and nothing else |
| `SessionEvents.EventSubscription.Next` | src/free_claude_code/application/session_events.py:61-69 | the reader gets the front of its queue; no other observer is touched |
| `SessionEvents.EventSubscription.Aclose` | src/free_claude_code/application/session_events.py:71-84 | the observer is removed and its queue replaced by the closed marker, once |
| `SessionEvents.LifeIsFaithful` | src/free_claude_code/application/session_events.py:61-140 | for every interleaving an observer is given exactly the events cursor+1 to cursor+k; while fed its queue is the rest of the log within its size; afterwards only a marker is left |
| `SessionEvents.CutOffExactly` | src/free_claude_code/application/session_events.py:118-123 | a publication cuts an observer off exactly when it is a whole queue behind the log, and leaves it the overflow marker alone; otherwise the event is queued last |
| `SessionEvents.ReadingGivesNext` | src/free_claude_code/application/session_events.py:61-69 | an observer that is fed and behind gets the next event of the log by its next reading |
| `SessionEvents.ReadingCatchesUp` | src/free_claude_code/application/session_events.py:61-69 | after as many readings as it is behind it has been given everything |
| `SessionEvents.WaitingMeansCurrent` | src/free_claude_code/application/session_events.py:61-69 | a reader with an empty queue has been given everything or has read an end marker: a gap is never silent |
| `SessionEvents.RemovedForGood` | src/free_claude_code/application/session_events.py:113-140 | once removed, an observer is never given another event |
| `ServerSupervisor.AlwaysGood` | src/free_claude_code/cli/commands.py:116-320 | in every interleaving a published server has been told to exit exactly if it is stale or a stop was requested, and the settings are loaded at most once for every run and every accepted restart |
| `ServerSupervisor.StatusMeans` | src/free_claude_code/cli/commands.py:101-114 | in every reachable state: STOPPED exactly with no run scheduled or active, STOPPING exactly for a published server that is stale or stopped, RUNNING exactly for a published and started one of the current generation that is not stopped, and STARTING otherwise |
| `ServerSupervisor.StopIsFinal` | src/free_claude_code/cli/commands.py:195-206 | after a stop no run begins, and the run thread is idle within eight of its own operations |
| `ServerSupervisor.NoServerAfterStop` | src/free_claude_code/cli/commands.py:232-248 | a stop requested before the server is built keeps it from ever being published |
| `ServerSupervisor.RestartTakesEffect` | src/free_claude_code/cli/commands.py:143-193 | after a restart accepted by an active run, for any further steps of callers and run thread, failing ones included: the settings are loaded for its generation, at most nine operations later, if the thread gets through to that load, and only then unless another run begins |
| `ServerSupervisor.RestartOrStop` | src/free_claude_code/cli/commands.py:143-206 | in every interleaving in which no operation raises and the runtime closes, a restart accepted before the exit check ends in a stop or in a load of the settings for it within nine operations |
| `ServerSupervisor.LostAfterExitCheck` | src/free_claude_code/cli/commands.py:179-193 | the first run of a supervisor reaches a state that accepts a restart which no operation of that run carries out |
| `ServerSupervisor.LostToStop` | src/free_claude_code/cli/commands.py:317-320 | and one in which a stop after the accepted restart keeps it from being carried out although nothing fails |
| `ServerSupervisor.RestartBeforeRun` | src/free_claude_code/cli/commands.py:116-193 | the same for a restart accepted while a run is scheduled, with any steps before that run begins and any after |
| `ServerSupervisor.Supervisor.ScheduleRun` | src/free_claude_code/cli/commands.py:116-123 | a run is reserved exactly if none is scheduled or running and no stop was requested |
| `ServerSupervisor.Supervisor.BeginRun` | src/free_claude_code/cli/commands.py:125-141 | a run begins, or is refused while another is active, or ends at once when stopped |
| `ServerSupervisor.Supervisor.RequestRestart` | src/free_claude_code/cli/commands.py:179-193 | a restart is accepted exactly if a run is scheduled or active and no stop was requested; then the generation rises by one and a published server is told to exit |
| `ServerSupervisor.Supervisor.RequestStop` | src/free_claude_code/cli/commands.py:195-202 | a stop is recorded and a published server told to exit |
| `ServerSupervisor.Supervisor.LoopStep` | src/free_claude_code/cli/commands.py:144-146 | the loop guard reads the stop flag, and a later use of the lock captures the generation |
| `ServerSupervisor.Supervisor.LoadSettings` | src/free_claude_code/cli/commands.py:147 | the settings are loaded after the capture, or the run ends |
| `ServerSupervisor.Supervisor.ReserveSockets` | src/free_claude_code/cli/commands.py:232-248 | a stop seen after the sockets were reserved ends the run before a server is built |
| `ServerSupervisor.Supervisor.PublishServer` | src/free_claude_code/cli/commands.py:294-307 | a server that is stale when published is told to exit in the same step |
| `ServerSupervisor.Supervisor.ServerReturned` | src/free_claude_code/cli/commands.py:309-311 | the server returns or raises; it stays published until the lock is taken again |
| `ServerSupervisor.Supervisor.Unpublish` | src/free_claude_code/cli/commands.py:311-315 | the server is taken back; only a clean return goes on to the exit check |
| `ServerSupervisor.Supervisor.ExitCheck` | src/free_claude_code/cli/commands.py:317-320 | the run goes on exactly for a new generation, no stop and a closed runtime |
| `ServerSupervisor.Supervisor.EndRun` | src/free_claude_code/cli/commands.py:170-177 | the run ends with no server published |
| `ToolNames.AliasIsPortable` | src/free_claude_code/core/openai_tool_names.py:165-178 | every alias is 1 to 64 portable characters: at most 47 readable ones, an underscore and the digest |
| `ToolAliases.AliasIsAccepted` | src/free_claude_code/core/openai_tool_names.py:11-14 | every alias has 1 to 64 characters, all of them ASCII letters, digits, underscores or dashes |
| `ToolAliases.ReadableMeans` | src/free_claude_code/core/openai_tool_names.py:165-169 | the readable part of an alias is the name with every stretch of other characters replaced by one underscore, cleaned of underscores and dashes at both ends, cut to 47 characters and cleaned again, or `tool` |
| `ToolAliases.AliasMeans` | src/free_claude_code/core/openai_tool_names.py:170-179 | an alias is that part, an underscore and the digest of the name, or from the second attempt on of the name, a zero character and the attempt's decimal number |
| `ToolAliases.AttemptsDiffer` | src/free_claude_code/core/openai_tool_names.py:172 | no two attempts hash the same text |
| `ToolNames.UniqueAlias` | src/free_claude_code/core/openai_tool_names.py:169-178 | the search loop ends and returns the alias of the first attempt that is not taken |
| `ToolNames.ListUnique` | src/free_claude_code/core/openai_tool_names.py:42 | a set of names has exactly one sorted list |
| `ToolNameCodec.FromNames` | src/free_claude_code/core/openai_tool_names.py:31-51 | the codec is a function of the set of non-empty names alone, whatever their order, and is sound |
| `ToolNameCodec.CodecIsSound` | src/free_claude_code/core/openai_tool_names.py:31-51 | aliases and names match one to one, aliases are portable, and no alias is a name of the request |
| `ToolNameCodec.NamesSurvive` | src/free_claude_code/core/openai_tool_names.py:58-64 | every name of the request comes back, goes out portable, and is not changed by encoding twice |
| `ToolNameCodec.EncodeInjective` | src/free_claude_code/core/openai_tool_names.py:58-60 | different names stay different on the wire |
| `ToolNameCodec.ComesBackExactly` | src/free_claude_code/core/openai_tool_names.py:58-64 | any text comes back exactly if it is a name of the request or no alias of it |
| `ToolNameCodec.AliasDoesNotComeBack` | src/free_claude_code/core/openai_tool_names.py:58-64 | in a request with the one name `a b`, text that spells its alias comes back as that name |
| `ChatToolNames.ShortcutIsExact` | src/free_claude_code/core/openai_tool_names.py:86-87 | returning at once when there are no aliases changes no body |
| `ChatToolNames.BodyComposes` | src/free_claude_code/core/openai_tool_names.py:82-133 | two rewritings of the tool-name locations in a row are one rewriting by the composed function, and nothing else changes |
| `ChatToolNames.BodyComesBack` | src/free_claude_code/core/openai_tool_names.py:82-133 | encoding a body whose tool names belong to the request can be undone, and encoding it again changes nothing |
| `ChatToolNames.EveryPlace` | src/free_claude_code/core/openai_tool_names.py:82-133 | place by place: the names of declared tools, earlier tool calls and the tool choice are encoded, and everything else of the body stays as it is |
| `CategorySpans.CategoryRanges` | src/free_claude_code/core/tool_schema_patterns.py:141-153 | the one pass over all code points builds each category's run-length spans |
| `CategorySpans.SpansAreMaximal` | src/free_claude_code/core/tool_schema_patterns.py:145-153 | for any category function the spans are sorted, disjoint and cannot be extended |
| `CategorySpans.SpansContain` | src/free_claude_code/core/tool_schema_patterns.py:145-153 | a code point is in the spans exactly when its category matches |
| `CategorySpans.MaximalUnique` | src/free_claude_code/core/tool_schema_patterns.py:145-153 | maximal spans are determined by the points they contain |
| `PatternScanner.ScanKeepsText` | src/free_claude_code/core/tool_schema_patterns.py:72-120 | the tokens of an accepted pattern are the pattern, cut into pieces |
| `PatternScanner.ScanExpanded` | src/free_claude_code/core/tool_schema_patterns.py:72-138 | a translated pattern is accepted again, with the tables' tokens in the atoms' places and everything else as before |
| `PatternAcceptance.ScansExactly` | src/free_claude_code/core/tool_schema_patterns.py:77-122 | the scanner accepts a pattern exactly if it is the text of tokens that are all allowed where they stand, by what is before and behind them, and closes every class; and it finds these tokens |
| `PatternTranslation.ScanPattern` | src/free_claude_code/core/tool_schema_patterns.py:77-122 | the index loop finds the replacements of exactly the accepted atoms, or refuses |
| `PatternTranslation.TranslatePattern` | src/free_claude_code/core/tool_schema_patterns.py:72-138 | scanning, splicing and the compile test together return the translation function's result |
| `PatternTranslation.OnlyAtomsChange` | src/free_claude_code/core/tool_schema_patterns.py:72-138 | the result is the pattern, or the pattern with every atom and only the atoms replaced; no replaced atom stands next to a dash |
| `PatternAcceptance.TranslatesExactly` | src/free_claude_code/core/tool_schema_patterns.py:72-138 | a pattern with acceptable tokens, an atom among them and a translation that compiles is translated, and no other one is |
| `PatternTranslation.TranslateIdempotent` | src/free_claude_code/core/tool_schema_patterns.py:72-138 | a translated pattern is left as it is |
| `PatternTranslation.ShortcutIsExact` | src/free_claude_code/core/tool_schema_patterns.py:75-76 | looking for the text of an atom first changes no result |
| `PatternTranslation.SpansTextOfTokens` | src/free_claude_code/core/tool_schema_patterns.py:154-168 | the joined table text is the text of the table's tokens |
| `PatternTranslation.TablesAreInert` | src/free_claude_code/core/tool_schema_patterns.py:154-168 | a table's text means nothing special to the scanner |
| `ClassMembers.HexReadsBack` | src/free_claude_code/core/tool_schema_patterns.py:165-168 | the four digits of a code point read back as that code point |
| `ClassMembers.ClassUnchanged` | src/free_claude_code/core/tool_schema_patterns.py:72-168 | in every dialect that reads four-digit codes, whether it joins surrogate pairs or not, whatever its other escapes mean and however many of the characters behind them they take, replacing the atoms leaves the set of code points of every class body unchanged |
| `ClassMembers.TranslationInPieces` | src/free_claude_code/core/tool_schema_patterns.py:123-138 | a class body of the pattern is, translated, a class body of the translated pattern |
| `ToolSchema.SchemaSettled` | src/free_claude_code/core/tool_schema_patterns.py:41-69 | translating a schema twice changes nothing more |
| `ToolSchema.TranslationSettles` | src/free_claude_code/core/tool_schema_patterns.py:41-168 | so it is with the translation of patterns by the tables of any category function and any compile test |
| `ToolSchema.OnlyPatternsChange` | src/free_claude_code/core/tool_schema_patterns.py:41-69 | a schema whose patterns do not change comes back as it was: instance data, names and keywords are never touched |
| `ToolSchema.EveryPlace` | src/free_claude_code/core/tool_schema_patterns.py:41-69 | place by place: every pattern of a schema, wherever schemas are nested, becomes its translation, and everything else stays as it is |
| `Base64Url.RoundTrip` | src/free_claude_code/core/history_replay.py:91 | base64url text, stripped of its padding and padded again from its length (section 5 of RFC 4648), decodes to the bytes that were encoded |
| `Base64Url.PaddingComesBack` | src/free_claude_code/core/history_replay.py:151-156 | stripping the padding loses nothing |
| `Base64Url.CanonicalComesBack` | src/free_claude_code/core/history_replay.py:151-156 | a text decodes and encodes to itself again exactly if it has only characters of the URL-safe alphabet, a possible length, and zeros in the bits its last group does not use |
| `Base64Url.UnusedBitsIgnored` | src/free_claude_code/core/history_replay.py:151-156 | for every byte and every setting of the four bits that a last group of two characters does not use, the text decodes to that byte, and is its encoding exactly if they are zero |
| `Base64Url.UnusedPairIgnored` | src/free_claude_code/core/history_replay.py:151-156 | the same for every two bytes and the two unused bits of a last group of three characters |
| `Base64Url.EncodedGroup` | src/free_claude_code/core/history_replay.py:91 | every four characters of an encoding say the 24 bits of three bytes in the alphabet A to Z, a to z, 0 to 9, minus and underscore, with padding where no byte reaches |
| `Base64Url.DecodesExactly` | src/free_claude_code/core/history_replay.py:151-156 | exactly the texts decode that consist of whole groups of four characters of either alphabet, but for one or two padding characters at the end |
| `HistoryReplay.EncodesExactly` | src/free_claude_code/core/history_replay.py:86-141 | encoding succeeds exactly for valid, representable records of limited depth |
| `HistoryReplay.RoundTrip` | src/free_claude_code/core/history_replay.py:86-178 | every record that can be encoded is decoded again, and its text is recognised as replay |
| `HistoryReplay.DecodedCanBeEncoded` | src/free_claude_code/core/history_replay.py:144-178 | whatever is decoded from the current form can be encoded again and decodes to the same record |
| `HistoryReplay.DecodesOnlyValid` | src/free_claude_code/core/history_replay.py:94-178 | only texts marked as replay are decoded, and only into valid records |
| `HistoryReplay.LegacyIsMessages` | src/free_claude_code/core/history_replay.py:161-178 | a record in the old form becomes a Messages record that every destination of the same provider and protocol accepts |
| `HistoryMeaning.EncodingMeans` | src/free_claude_code/core/history_replay.py:55-141 | encoding gives the prefix and the base64 text of the record's document, exactly if provider and model are named, the protocol is one of three, the native state has what it requires, and the document is at most 128 deep and representable |
| `HistoryMeaning.DecodingMeans` | src/free_claude_code/core/history_replay.py:144-178 | a text decodes to a record exactly if the record is valid and the text holds its document in the current form, or in the old form for a Messages record without endpoint and connection |
| `HistoryMeaning.WithinMeans` | src/free_claude_code/core/history_replay.py:58-66 | the depth limit refuses exactly documents with a value 129 steps deep |
| `HistoryProjection.PrepareResponses` | src/free_claude_code/core/history_replay.py:360-390 | a Responses request keeps all its members but its input, which is projected item by item; one malformed record refuses the whole history |
| `HistoryProjection.OthersUntouched` | src/free_claude_code/core/history_replay.py:367-370 | every item that is not reasoning arrives unchanged, and such items keep their order |
| `HistoryProjection.NativeOnlyWhenAccepted` | src/free_claude_code/core/history_replay.py:371-384 | all reasoning in a projected history comes from one of its items: as native state whose origin the destination accepts, or as opaque input without replay text |
| `HistoryProjection.ReadableTextKept` | src/free_claude_code/core/history_replay.py:235-239 | every part a reader would get of any reasoning item of a history is told by the projected history, in the place of that item |
| `HistoryProjection.WrappedItemComesBack` | src/free_claude_code/core/history_replay.py:270-273 | an item wrapped for the client comes back exactly to an accepting destination, and any other gets exactly its readable text |
| `HistoryProjection.HistoryComesBack` | src/free_claude_code/core/history_replay.py:276-294 | a whole output comes back item for item |
| `HistoryMeaning.ReadableIsSpoken` | src/free_claude_code/core/history_replay.py:181-224 | what a reader gets of an item: its thinking; or its content, or else its summary, joined by blank lines; or else its plain strings that do not repeat the typed details, and then these |
| `HistoryMeaning.ItemMeans` | src/free_claude_code/core/history_replay.py:360-390 | what one item becomes: without a replay text it stays if it holds older state and is told otherwise; with one it becomes its native state for a destination of the same provider and protocol and of the endpoint and connection its source names, and for any other the text of that state, or else its own |
| `HistoryMeaning.HistoryMeans` | src/free_claude_code/core/history_replay.py:360-390 | a history is refused exactly if one of its items is, and otherwise becomes what its items become, in order |
| `AdminAccounts.Accounts.LogIn` | src/free_claude_code/core/admin_accounts.py:136-157 | a login ends as the login function says and keeps the invariants |
| `AdminAccounts.Accounts.Lookup` | src/free_claude_code/core/admin_accounts.py:159-169 | an out-of-date session is forgotten, any other lookup changes nothing |
| `AdminAccounts.Accounts.LogOut` | src/free_claude_code/core/admin_accounts.py:171-173 | the token's session is removed, others stay |
| `AdminAccounts.Accounts.ResetPassword` | src/free_claude_code/core/admin_accounts.py:115-125 | an acceptable password replaces record, sessions and failures; any other changes nothing |
| `AdminAccounts.Accounts.ChangePassword` | src/free_claude_code/core/admin_accounts.py:175-188 | a change goes through the session lookup and the current password |
| `AdminAccounts.RunIsGood` | src/free_claude_code/core/admin_accounts.py:85-188 | in every run, with other processes rewriting the record, at most 128 sessions exist, each opened by a login that still counts, and any six consecutive recorded failures span more than 60 seconds |
| `AdminAccounts.ThrottledExactly` | src/free_claude_code/core/admin_accounts.py:138-142 | a login is throttled exactly when the fifth-last failure since the last clear is at most a minute old |
| `AdminAccounts.AcceptsOnlyIssued` | src/free_claude_code/core/admin_accounts.py:159-169 | a token is accepted only if it was handed out under the revision now stored, less than eight hours ago, since the last password written here, and not logged out |
| `AdminAccounts.LoginIsAccepted` | src/free_claude_code/core/admin_accounts.py:148-169 | at the next lookup a login is accepted exactly until it is eight hours old, if the record kept its revision |
| `AdminAccounts.LoginLasts` | src/free_claude_code/core/admin_accounts.py:136-188 | the same after any run that opens at most 127 other sessions and neither logs the token out, issues it again, writes a password nor finds the token out of date |
| `AdminAccounts.LogoutEnds` | src/free_claude_code/core/admin_accounts.py:171-173 | after a logout the token is refused |
| `AdminAccounts.ResetTakesOver` | src/free_claude_code/core/admin_accounts.py:115-125 | after a reset no earlier session is accepted, nothing is throttled, and exactly the passwords deriving the new digest log in |
| `AdminAccounts.ChangeNeedsLogin` | src/free_claude_code/core/admin_accounts.py:175-188 | a password changes only with a standing session, the current password and an acceptable new one; otherwise record and throttle stay |
| `AdminLogins.LoginMeans` | src/free_claude_code/core/admin_accounts.py:137-158 | exactly which logins succeed: not throttled, the record usable, the name `admin` and the password of the record; and how every other one fails |
| `AdminLogins.LoginLeaves` | src/free_claude_code/core/admin_accounts.py:137-158 | a failure is recorded exactly if a login is rejected, a success forgets all failures, and nothing else changes them or the record |
| `AdminLogins.ResetMeans` | src/free_claude_code/core/admin_accounts.py:39-41 | a reset replaces record, sessions and failures exactly for passwords of 14 to 1024 characters, at least eight of them different |
| `AdminLogins.CheckMeans` | src/free_claude_code/core/admin_accounts.py:160-170 | a token is accepted exactly if a session was opened with it under the stored revision and has not expired; a lookup drops exactly a session that is out of date |
| `AdminLogins.ChangeMeans` | src/free_claude_code/core/admin_accounts.py:176-188 | a password changes exactly with an accepted token, the current password and an acceptable new one; and how every other change fails |

## Left out

- Catalog discovery and refresh, the free Chat route, upstream transports and settings storage: network and file access; the catalog, the settings and what upstream streams do are inputs.
- Health records and their expiry, request token estimation, and the model-family ranking: `Snapshot` takes the health rank, the family rank and the request's needs as inputs, read once per selection.
- What a catalog refresh asks the providers before it stores or clears a cooldown: its answers are inputs.
- The form of the saved cooldown file, and the texts of failure messages apart from the daily-quota phrase.
- CapacityRecovery.RecoverableRequest.CreateOnce: takes the creation and the streaming of its response as one step; the source returns a streamed response at its first output, so what other requests do to the pool in the meantime shows only in the inputs of the turns.
- Exceptions while a stream or a replaced response is closed, apart from the closing deadline: the source suppresses them.
- Non-finite JSON numbers, lone surrogates, and the order of a decoded object's keys.
- The recovery endpoint's throttled catalog refresh and its status report.
- `status`, opening the Admin page and the listening sockets of the supervisor beyond what decides restarts and stops; whether a server told to exit does exit, and interrupts that arrive while the run thread is not loading, reserving, building or serving.
- Chat history projection, which edits one message's text in several places, and the loop over Messages messages that drops emptied ones; content blocks of a Messages message are projected as `HistoryProjection` says.
- HistoryReplay.EncodesExactly: the depth limit is a recursive predicate, not the source's explicit stack.
- ChatToolNames.EncodeChatToolNames: a body is a value here, so rewriting one nested object twice through two references to it is not captured; the same holds for sharing inside schemas and histories.
- ClassMembers.ClassUnchanged: an escape is read from its character and the run of ASCII characters behind it; nested classes and set operations, which the scanner refuses, are not read.
- Initial passwords, their file and the file locks of the Admin account: a lock that cannot be had is an error before anything changes.
