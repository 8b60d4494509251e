# A verified model of ixr's stateful core

ixr is a proxy between applications and language-model providers. This project models the parts of it
whose correctness is not visible from any one function: the fallback executor, the gatekeepers (budget,
circuit breaker, rate limiter, bandit cooldown), the journaled stores, the codecs and message
transformations, and the indexes that must agree with a simple definition.

Each module models one source file or a part of one. Code that updates state is a class, a method over an array or a loop,
proved against a specification function; what the system promises is then proved about that function, over
every input and over whole runs. A run is a sequence of actions, one per critical section, so results about
runs cover every interleaving of the modelled sections; looking up a breaker and first reading its state count
as one section.

| module | models |
|---|---|
| `Seqs` | sequence vocabulary: filters, suffixes |
| `Executor`, `ExecutorReports` | retry with backoff inside a candidate loop that rebuilds its own list |
| `Budget`, `BudgetScopes`, `BudgetRuns`, `BudgetCeiling`, `BudgetWarnings` | spend ceilings with reservations, events in separately locked sections, warnings that come back as events |
| `MemoryStore`, `MemorySaves`, `MemoryRaces`, `RecentFacts` | per-user facts pruned in memory, an append-only journal, compaction |
| `EventStream`, `BedrockStream` | the AWS event stream encoding (application/vnd.amazon.eventstream) and the frame loop over it |
| `Session`, `SessionMemory` | conversation histories and their journal |
| `Breaker`, `Registry`, `RegistryRuns` | circuit breakers, one per model, with a store shared by replicas |
| `Lines`, `RunLength`, `Collapse`, `Compressor`, `CompressorLaws` | text collapsing, truncation and the request rewrite |
| `Retrieval` | the bounded store behind reversible truncation |
| `RateLimit` | the sliding window |
| `Bandit`, `BanditLaws` | arm statistics, cooldown and selection |
| `Semantic`, `SemanticLaws` | cosine lookup and the bounded cache |
| `Anthropic`, `AnthropicMarks` | translation to and from the Messages API |
| `ModelPerf` | moving averages and the success ring |

`dafny verify dfyconfig.toml` checks everything.

Where the code does not keep what its documentation says, the model follows the code:

- A run reports a provider unless every lookup failed (`Executor.NoProviderIff`).
- A streaming run can mix chunks of two providers (`Executor.ChunksFromOneProviderIff`, `Executor.ChunksMixed`).
- The budget ceiling can be overshot by one call per dispatcher, and by one more for every warning, which the
  plugin publishes on the bus it listens to (`BudgetCeiling.OvershootPerDispatcher`, `BudgetWarnings.OvershootHappens`, `BudgetWarnings.WarningOvershoots`).
- Compaction or Delete between the two steps of a Save duplicates the entry or brings it back, and two
  appends may be written in the wrong order (`MemoryRaces.LateAppend`, `MemoryRaces.ReversedAppends`).
- Asked for no facts, `Recent` returns one (`RecentFacts.AtMostAskedIff`).
- A stream cut right after a prelude looks like a clean end (`EventStream.CutStream`).
- Deleting a session does not survive a restart, and turns of concurrent Appends may be journaled out of order
  (`Session.DeleteUndoneIff`, `Session.OvertakingMatters`).
- A half-open breaker whose probes never report refuses for ever (`Breaker.SilentProbesBlock`).
- Calls that interleave inside RecordOutcome can save the half-open state, or leave the shared store saying Open
  for a closed breaker (`RegistryRuns.HalfOpenSavedIff`, `RegistryRuns.SerialMirrorsIff`, `RegistryRuns.StoreStaysOpen`).
- The rate limiter indexes an empty window for an oversized request, and the moment RetryAfter names is still denied
  (`RateLimit.PanicsIff`, `RateLimit.DeniedAgain`).
- Cosine similarity is not confined to [0, 1], and a threshold of zero or less is not honoured
  (`Semantic.SimilarityRange`, `Semantic.PositiveThresholdExact`).
- Translation drops fields and parts that the target cannot carry (`Anthropic.KeptIff`), and an index opened twice in a
  stream loses a tool call (`Anthropic.CallsReassembledIff`).

Time is a nondecreasing integer, money and rates are real numbers. Providers, lookups, clocks, random draws,
IDs, checksums, JSON values, sorting and square roots are parameters, so results hold for all of them.

## Model

| member | source | states |
|---|---|---|
| `Executor.WithRetry` | internal/domain/routing/executor.go:161-218 | The retry loop, for chat and for streams, ends as the retry specification says: which attempt is the last, what it returns, what was delivered and how long it waited |
| `Executor.RetryUnique` | internal/domain/routing/executor.go:161-218 | That specification admits exactly one outcome for every provider behaviour |
| `Executor.StreamDeliversOneAttempt` | internal/domain/routing/executor.go:185-218 | No chunk is replayed: what the callback got, and everything emitted over all attempts, is what the last attempt emitted |
| `Executor.BackoffClosedForm` | internal/domain/routing/executor.go:173-180 | With an integral factor the k-th wait is min(initial * factor^k, max) |
| `Executor.WaitingBounded` | internal/domain/routing/executor.go:161-218 | For every growth function, at most MaxAttempts-1 waits, each at most the larger of initial and maximal backoff |
| `Executor.InsertInPlace` | internal/domain/routing/executor.go:261-265 | One round of adjacent swaps inserts the element behind those of no larger window and leaves the rest of the array alone |
| `Executor.SortInPlace` | internal/domain/routing/executor.go:259-265 | The in-place insertion sort computes the stable sort by window |
| `Executor.EscalateCandidates` | internal/domain/routing/executor.go:252-267 | After an overflow the list is the remaining larger-window candidates, sorted |
| `Executor.SortSorts` | internal/domain/routing/executor.go:259-266 | The sort is ascending and a permutation |
| `Executor.SortStable` | internal/domain/routing/executor.go:259-266 | Candidates of equal window keep their order |
| `Executor.VisitCandidate` | internal/domain/routing/executor.go:55-68 | One turn: lookup, then the retry loop, for arbitrary provider answers |
| `Executor.Advance` | internal/domain/routing/executor.go:86-98 | Stepping on, or rebuilding the list and resetting the index, shrinks what is left, so the loop ends |
| `Executor.Execute` | internal/domain/routing/executor.go:46-159 | Its result and error are those of a complete run of visits as specified, with reset, latching and early return; by RunUnique there is only one |
| `Executor.RunUnique` | internal/domain/routing/executor.go:46-106 | One provider behaviour admits one run |
| `Executor.VisitsAtMostOnce` | internal/domain/routing/executor.go:54-99 | Through all rebuilds, no candidate is visited more often than it is listed; occurrences are lost only to an overflow of a model at least as large |
| `Executor.ExhaustionIsJustified` | internal/domain/routing/executor.go:86-105 | When the run is exhausted every unvisited candidate has a window no larger than an overflowed one |
| `Executor.TotalAttempts` | internal/domain/routing/executor.go:46-106 | The reported attempts are the provider calls made, at most MaxAttempts * (1 + chain length) |
| `Executor.VisitOrder` | internal/domain/routing/executor.go:86-98 | Up to the first overflow visits follow the list; then windows never decrease and exceed every window that overflowed |
| `Executor.FallbackReported` | internal/domain/routing/executor.go:56-79 | A success reports a fallback iff the first candidate did not win; without one the chosen model answered, and with one another did, unless the chain repeats it |
| `Executor.NoProviderIff` | internal/domain/routing/executor.go:101-105 | A run reports no provider iff the lookup of every listed candidate fails; the comment in the code says: iff the last one does |
| `Executor.ProviderDespiteFailedLookup` | internal/domain/routing/executor.go:101-105 | A run whose last lookup fails and which reports a provider |
| `Executor.ChunksFromOneProviderIff` | internal/domain/routing/executor.go:108-159 | The client of a streaming run gets the output of the last provider called, and no other, iff none before it failed, other than by cancellation, after emitting output |
| `Executor.ChunksMixed` | internal/domain/routing/executor.go:145-156 | A run that hands the client chunks of two providers |
| `ExecutorReports.AttemptsIff` | internal/domain/routing/executor.go:161-218 | From the replies alone: the retry loop makes n attempts iff every reply before the n-th failed, uncancelled, not as a client error, with nothing emitted when streaming and the context still running, and the n-th did not or is the last allowed |
| `ExecutorReports.RetryReturns` | internal/domain/routing/executor.go:161-218 | It returns the last reply: response, error and chunks, or the context error if the context ended during the wait |
| `ExecutorReports.NoAttempts` | internal/domain/routing/executor.go:161-183 | With no attempt allowed there is no call, no response and no error |
| `ExecutorReports.WaitsAre` | internal/domain/routing/executor.go:173-180 | The wait after attempt k is the k-th backoff |
| `ExecutorReports.RunEndsAt` | internal/domain/routing/executor.go:54-99 | The candidate loop ends at the first success or cancelled call, and otherwise only with nothing left |
| `ExecutorReports.OverflowEscalates` | internal/domain/routing/executor.go:86-98 | Overflow errors and nothing else reorder the visits: every later one has a larger window, in ascending order |
| `ExecutorReports.GivesUpLate` | internal/domain/routing/executor.go:86-105 | A candidate that is passed over is no larger than a model whose call overflowed |
| `ExecutorReports.SuccessReports` | internal/domain/routing/executor.go:66-79 | A success carries the response of the very last call made, its model, and all attempts |
| `ExecutorReports.FailureReports` | internal/domain/routing/executor.go:80-105 | A failure carries the error of the last visit, no response, and what it says about fallback |
| `ExecutorReports.ProviderReported` | internal/domain/routing/executor.go:101-105 | The provider reported is the last one found |
| `Budget.ScopeKeysDistinct` | plugins/budget/plugin.go:240-259 | No identity charges a scope twice |
| `Budget.SubScopeChargesTenant` | plugins/budget/plugin.go:236-259 | With colon-free IDs whoever charges a scope below a tenant charges the tenant |
| `Budget.Plugin.FirstExceeded` | plugins/budget/plugin.go:113-128 | The first exceeded scope, or none exactly when all admit |
| `Budget.Plugin.Intercept` | plugins/budget/plugin.go:106-136 | Blocks on the first exceeded scope and changes nothing, otherwise reserves the average on every limited scope |
| `Budget.Plugin.ReconcileSection` | plugins/budget/plugin.go:158-174 | The first locked section releases and averages scope by scope |
| `Budget.Plugin.SpendLocked` | plugins/budget/plugin.go:183-187 | One locked section: the cost on one scope, and what it read there |
| `Budget.Plugin.MarkLocked` | plugins/budget/plugin.go:199-201 | Another: the scope is marked as warned |
| `Budget.Plugin.SpendSection` | plugins/budget/plugin.go:180-213 | Both with nothing in between: marks the scope and warns exactly when its threshold is reached for the first time |
| `Budget.Plugin.OnEvent` | plugins/budget/plugin.go:149-216 | Without interference an event is its sections in order, and publishes one warning event for every scope newly over its threshold; shadow events do nothing |
| `Budget.Plugin.Reset` | plugins/budget/plugin.go:226-234 | Forgets everything about one key and nothing else |
| `BudgetScopes.ScopesAre` | plugins/budget/plugin.go:240-259 | An identity charges its user, team and tenant key, written out, as far as it has them, and no other |
| `BudgetScopes.ScopesOrdered` | plugins/budget/plugin.go:236-259 | From most to least specific |
| `BudgetScopes.AdmittedIff` | plugins/budget/plugin.go:106-136 | A request is admitted iff none of these keys has used up its limit, or would with one more average call |
| `BudgetScopes.ExhaustedBlocks` | plugins/budget/plugin.go:113-128 | An exhausted user, team or tenant blocks |
| `BudgetScopes.ReservesOn` | plugins/budget/plugin.go:129-135 | An admitted request reserves the average on the limited ones among its keys, and nothing else |
| `BudgetScopes.EventSpends` | plugins/budget/plugin.go:149-213 | A successful, priced event of (tenant, team, user) raises what is spent on these keys by its cost and nowhere else, and marks those that reach their threshold, by default four fifths of the limit |
| `BudgetScopes.EventReconciles` | plugins/budget/plugin.go:158-174 | On the limited ones it gives back one average and counts in the running mean; other books stay |
| `BudgetScopes.OneWarningPerMark` | plugins/budget/plugin.go:198-208 | One warning in the name of the tenant for every scope newly marked |
| `BudgetScopes.SpentIsBilled` | plugins/budget/plugin.go:138-234 | In every interleaving, with resets: spent plus what is on its way is what the events naming the key, written out, have to pay |
| `BudgetScopes.ResetForgets` | plugins/budget/plugin.go:226-234 | A reset makes a key as new and touches no other |
| `BudgetRuns.SpendConserved` | plugins/budget/plugin.go:149-216 | Under every interleaving of sections and warnings, spent plus what is on its way is exactly the priced non-shadow events naming the scope |
| `BudgetRuns.SpentAtQuiescence` | plugins/budget/plugin.go:138-216 | Once all events have finished, spent is exact |
| `BudgetRuns.AverageBalanced` | plugins/budget/plugin.go:158-187 | On a limited scope average times calls is spent plus the cost between the averaging and the spend section |
| `BudgetRuns.SubScopeBelowTenant` | plugins/budget/plugin.go:138-216 | At quiescence no sub-scope has been spent more than its tenant, for colon-free IDs and a tenant |
| `BudgetRuns.ColonBreaksHierarchy` | plugins/budget/plugin.go:240-259 | With a colon in a tenant ID that fails |
| `BudgetCeiling.SurplusCauses` | plugins/budget/plugin.go:149-174 | Every priced event that finds no reservation, and every admission that lost its own, was caused by an event that answered no admission |
| `BudgetCeiling.ReservationsMatch` | plugins/budget/plugin.go:106-174 | Reservations are the average times the calls in flight, less at most one for every such event |
| `BudgetCeiling.CeilingHolds` | plugins/budget/plugin.go:89-187 | Spent, reserved and unspent cost exceed the limit by no more than the unspent cost an admission can overlook and one call for every event that answered no admission, the plugin's own warnings among them |
| `BudgetCeiling.SpentBelowCeiling` | plugins/budget/plugin.go:89-187 | Nor does spent alone |
| `BudgetCeiling.OvershootPerDispatcher` | plugins/budget/plugin.go:149-187 | With m dispatchers the overshoot is at most m calls and one for every such event |
| `BudgetCeiling.OneDispatcher` | plugins/budget/plugin.go:149-187 | With the one dispatcher of the in-process bus: one call, and one for every such event |
| `BudgetCeiling.AtomicCeiling` | plugins/budget/plugin.go:89-187 | With atomic events spent plus reserved exceeds the limit by no more than one call for every such event |
| `BudgetWarnings.WarnsOncePerScope` | plugins/budget/plugin.go:180-213 | With one dispatcher a tenant is warned at most once for every limited scope of its own |
| `BudgetWarnings.OnlyWarningsAreSurplus` | plugins/budget/plugin.go:149-208 | With one event per admitted call, what answers no admission are warnings: on every scope at most as many as were published under its name |
| `BudgetWarnings.TotalOvershoot` | plugins/budget/plugin.go:89-213 | So the overshoot of a tenant is at most one call, and one more for every limited scope of that tenant |
| `BudgetWarnings.SubScopeOvershoot` | plugins/budget/plugin.go:89-213 | And that of a team or a user at most one call, when tenant IDs have no colon: warnings name the tenant only |
| `BudgetWarnings.OvershootHappens` | plugins/budget/plugin.go:158-187 | From an empty ledger: a run that attains the one-dispatcher bound without any such event; the separate sections do cost one call |
| `BudgetWarnings.WarningOvershoots` | plugins/budget/plugin.go:198-208 | From an empty ledger: a run that attains the atomic bound; a tenant's own warning releases a reservation and one call too many is paid |
| `MemoryStore.PruneLocked` | internal/domain/memory/store.go:170-185 | The loop keeps the unexpired entries and of those the last maxPerUser |
| `MemoryStore.ExpiryCommutesWithCap` | internal/domain/memory/store.go:170-185 | In order of creation, expiry and the cap commute |
| `MemoryStore.PruneAbsorbs` | internal/domain/memory/store.go:170-185 | Pruning early and often keeps what pruning once at the end keeps |
| `MemoryStore.UnsortedPruningDiffers` | internal/domain/memory/store.go:170-185 | Without order of creation it does not |
| `MemoryStore.Store.constructor` | internal/domain/memory/store.go:302-351 | Replay loads the pruned lines of every user; afterwards the journal holds exactly the entries in memory |
| `MemoryStore.Store.LoadLines` | internal/domain/memory/store.go:313-327 | The replay loop groups the unexpired lines by user, in journal order |
| `MemoryStore.Store.Remember` | internal/domain/memory/store.go:123-125 | The memory step of a Save: extends and prunes one user |
| `MemoryStore.Store.AppendJournal` | internal/domain/memory/store.go:383-397 | Its journal step: one line |
| `MemoryStore.Store.Save` | internal/domain/memory/store.go:115-129 | Both, with nothing in between, after filling in a missing creation time and a missing ID |
| `MemoryStore.Store.All` | internal/domain/memory/store.go:160-166 | Returns the pruned list and keeps it |
| `MemoryStore.Store.CompactNow` | internal/domain/memory/store.go:217-256 | Prunes every user, and leaves a journal of exactly the in-memory entries |
| `MemoryStore.Store.Delete` | internal/domain/memory/store.go:262-285 | Removes the first entry of the user with that ID and rewrites the journal, or reports that there is none and changes nothing |
| `MemoryStore.PruneUsers` | internal/domain/memory/store.go:217-228 | Every user is pruned, in any order of the map |
| `MemoryStore.Collect` | internal/domain/memory/store.go:217-256 | Every entry is collected once, grouped by user, in any order of the map |
| `MemoryStore.KeptWhole` | internal/domain/memory/store.go:330-343 | Replay that drops no line by count dropped none, so skipping the rewrite is right |
| `MemoryStore.NothingLost` | internal/domain/memory/store.go:115-129 | Under every interleaving of saves, appends, compactions, deletes and restarts each entry in memory has a journal line or an append on its way, as often as it is in memory |
| `MemoryRaces.LateAppend` | internal/domain/memory/store.go:123-128 | In any run, after an append that was outstanding during a compaction or Delete, whatever other users did in between, and until the next rewrite: a restart at T returns the entry again, and something else than All, iff the entry is live at T and the list is not already full of its copies |
| `MemoryRaces.ReversedAppends` | internal/domain/memory/store.go:123-128 | After any undisturbed run, two appends of a user written in the opposite order of their saves: a restart at T returns something else than All iff the earlier entry is live at T and the two differ |
| `MemoryRaces.CompactionDuplicates` | internal/domain/memory/store.go:217-256 | A run in which a compaction between the steps of a Save makes a restart return a fact twice |
| `MemoryRaces.DeleteUndone` | internal/domain/memory/store.go:262-285 | A run in which a Delete between them is undone by a restart |
| `MemoryStore.StepLocal` | internal/domain/memory/store.go:115-285 | Users are independent: each sees its own small machine |
| `MemoryStore.ReplayAgrees` | internal/domain/memory/store.go:302-351 | At every moment of an undisturbed run a process restarted on the journal returns what All returns, now and at every later time |
| `MemoryStore.RefinesFullLog` | internal/domain/memory/store.go:115-185 | Without deletions All is what pruning everything ever saved gives, through any evictions, compactions and restarts |
| `RecentFacts.Recent` | internal/domain/memory/store.go:131-158 | Prunes and keeps the list, then picks from it sorted newest first |
| `RecentFacts.RecentSpec` | internal/domain/memory/store.go:131-158 | For every sort: each result is a newest live entry of a category not returned before, until the quota or the categories are used up |
| `RecentFacts.AtMostAskedIff` | internal/domain/memory/store.go:143-157 | "Up to n" holds iff n >= 1 or there is nothing to return: asked for none, the loop returns one |
| `MemorySaves.SavedIsReturned` | internal/domain/memory/store.go:115-185 | In any run: a saved fact, with a missing creation time and ID filled in, is returned by All at T iff it is not older than the ttl then, while it is not deleted and fewer than maxPerUser facts of the user follow |
| `MemorySaves.PruneMeans` | internal/domain/memory/store.go:170-185 | Pruning keeps the last maxPerUser of the entries that have no ttl or are not past it |
| `EventStream.FromBEOfBE` | internal/adapters/providers/bedrock/eventstream.go:38-79 | Big-endian numbers read back |
| `EventStream.BEOfFromBE` | internal/adapters/providers/bedrock/eventstream.go:38-79 | And only from their own bytes |
| `EventStream.ReadValueEncoded` | internal/adapters/providers/bedrock/eventstream.go:116-170 | Every header value of every type reads back, whatever follows |
| `EventStream.ReadValueSound` | internal/adapters/providers/bedrock/eventstream.go:116-170 | What reads as a value is the encoding of that value |
| `EventStream.ReadHeaderEncoded` | internal/adapters/providers/bedrock/eventstream.go:88-110 | One header entry reads back |
| `EventStream.ReadHeaderSound` | internal/adapters/providers/bedrock/eventstream.go:88-110 | What reads as a header is its encoding |
| `EventStream.ParseHeadersEncoded` | internal/adapters/providers/bedrock/eventstream.go:88-110 | Header parsing inverts header encoding |
| `EventStream.ParseHeadersSound` | internal/adapters/providers/bedrock/eventstream.go:88-110 | A header section that parses is the encoding of the result, so parsing is injective and total otherwise an error |
| `EventStream.ReadMessageEncoded` | internal/adapters/providers/bedrock/eventstream.go:38-79 | Reading a frame inverts encoding it, whatever follows |
| `EventStream.ReadMessageSound` | internal/adapters/providers/bedrock/eventstream.go:38-79 | On arbitrary bytes a frame is accepted only if it is the encoding of what is returned |
| `EventStream.CutFrame` | internal/adapters/providers/bedrock/eventstream.go:38-79 | A frame cut short is an error, and which one depends only on the place of the cut |
| `EventStream.StreamRoundTrip` | internal/adapters/providers/bedrock/stream.go:50-62 | Every sequence of frames is read back exactly, then a clean end |
| `EventStream.CutStream` | internal/adapters/providers/bedrock/stream.go:55-62 | A cut stream loses no earlier message and looks like a clean end iff cut between frames or right after a 12-byte prelude |
| `EventStream.Reader.ReadFull` | internal/adapters/providers/bedrock/eventstream.go:38-68 | All requested bytes, or an error that tells whether there were any |
| `EventStream.ParseEventStreamHeaders` | internal/adapters/providers/bedrock/eventstream.go:88-110 | The loop that reassigns its input and fills a map computes the parse; later duplicates win |
| `EventStream.ReadEventStreamMessage` | internal/adapters/providers/bedrock/eventstream.go:38-79 | Consumes exactly one frame from the reader |
| `EventStream.StreamBedrockEvents` | internal/adapters/providers/bedrock/stream.go:50-124 | The frame loop dispatches every message that can be read, in order, and ends as the reader ends |
| `EventStream.DispatchPrefix` | internal/adapters/providers/bedrock/stream.go:64-124 | Chunks of a shorter stream are a prefix of those of a longer one, whatever the callback does |
| `EventStream.CutDeliversPrefix` | internal/adapters/providers/bedrock/stream.go:50-124 | A stream cut anywhere delivers a prefix of the chunks of the whole stream |
| `BedrockStream.StreamDelivers` | internal/adapters/providers/bedrock/stream.go:50-124 | From the messages alone: one chunk for every text delta and every finish before the end of the stream, with the ID, model and prompt tokens of the last start, up to the first chunk the callback refuses; and the error that the end deserves |
| `BedrockStream.TextsAreDeltas` | internal/adapters/providers/bedrock/stream.go:92-102 | The texts of the chunks are the texts of the deltas, in order |
| `BedrockStream.FramesDelivered` | internal/adapters/providers/bedrock/stream.go:50-124 | So on the bytes of any sequence of frames |
| `BedrockStream.WidthsAre` | internal/adapters/providers/bedrock/eventstream.go:121-140 | Numeric headers are 1, 2, 4 or 8 bytes wide, by type |
| `BedrockStream.HeaderMapIs` | internal/adapters/providers/bedrock/eventstream.go:88-110 | A header is present iff some entry has its name, and has the value of the last such entry |
| `BedrockStream.HeaderIs` | internal/adapters/providers/bedrock/eventstream.go:116-170 | As text a header is its string, the word for a truth value, the decimal form of a number or the hexadecimal form of a UUID |
| `Session.TrimAbsorbs` | internal/domain/session/session.go:86-91 | Trimming after every turn keeps what trimming once keeps |
| `Session.LapsedIsCompacted` | internal/domain/session/session.go:206-234 | Compaction is skipped only if no key has lapsed |
| `Session.CompactedKey` | internal/domain/session/session.go:237-263 | Compaction keeps the trimmed history and expiry of a live key and nothing of a lapsed one |
| `Session.CompactionPreserves` | internal/domain/session/session.go:237-263 | Whatever is appended later, a live key replays to the same history and expiry as without compaction |
| `Session.CrossKeyOrderIrrelevant` | internal/domain/session/session.go:178-235 | The order of lines of different keys is irrelevant to replay |
| `Session.Store.constructor` | internal/domain/session/session.go:160-235 | Opens on a journal: the live trimmed sessions, and a compacted journal |
| `Session.Store.Get` | internal/domain/session/session.go:61-75 | Returns a live session and drops a lapsed one |
| `Session.Store.Remember` | internal/domain/session/session.go:77-95 | The memory step of an Append: extends, trims and renews the session |
| `Session.Store.WriteLine` | internal/domain/session/session.go:271-285 | Its journal step: one line, with its own reading of the clock |
| `Session.Store.Append` | internal/domain/session/session.go:266-286 | Both, with nothing in between |
| `Session.Store.Delete` | internal/domain/session/session.go:97-101 | Forgets the session in memory only |
| `Session.Store.Sweep` | internal/domain/session/session.go:108-130 | One tick of the collector drops exactly the lapsed sessions |
| `Session.Accumulate` | internal/domain/session/session.go:178-204 | The replay loop concatenates the deltas of every key, the last line setting the expiry |
| `Session.Load` | internal/domain/session/session.go:206-226 | Lapsed keys are dropped and live ones trimmed |
| `Session.WriteSessions` | internal/domain/session/session.go:237-263 | One line per live session, in any order of the map |
| `Session.JournalFaithful` | internal/domain/session/session.go:178-286 | Through every interleaving, restart and compaction, whatever memory deletes or expires, the journal replays each key to everything written for it, trimmed once, with the expiry of the last write |
| `Session.ReplayAgrees` | internal/domain/session/session.go:77-95 | While a session is neither deleted nor lapsed and its turns are written in order, its incrementally trimmed history is what replay and the turns still to be written give |
| `Session.OvertakingMatters` | internal/domain/session/session.go:266-286 | Two turns of a key written the other way round: replay disagrees with memory iff the turns differ |
| `Session.RestartRestores` | internal/domain/session/session.go:160-235 | After any run a restart finds exactly the sessions whose last write has not expired, with everything written, trimmed |
| `Session.DeleteUndoneIff` | internal/domain/session/session.go:97-101 | In any run, whatever happens after a Delete, the next restart brings the session back iff something was ever written for it and its last write has not expired, and then with everything written, trimmed, which starts with what was written before the Delete |
| `SessionMemory.GetReturns` | internal/domain/session/session.go:61-95 | After every run a lookup at t finds a session iff it was used, not deleted or dropped since, and its ttl, counted from the last use, is not over; it returns the last 2 * maxTurns messages said in it |
| `SessionMemory.FoundIff` | internal/domain/session/session.go:61-95 | Without deletes and restarts: iff it was appended, and t is at most the ttl after the last append |
| `Breaker.Breaker.constructor` | internal/domain/circuitbreaker/breaker.go:33-39 | A new breaker is closed with empty counters |
| `Breaker.Breaker.TryAllow` | internal/domain/circuitbreaker/breaker.go:42-68 | Asking moves the state and answers as specified |
| `Breaker.Breaker.RecordSuccess` | internal/domain/circuitbreaker/breaker.go:71-85 | A success moves the state as specified |
| `Breaker.Breaker.RecordFailure` | internal/domain/circuitbreaker/breaker.go:88-106 | A failure moves the state as specified |
| `Breaker.Breaker.SetState` | internal/domain/circuitbreaker/breaker.go:129-136 | Seeding moves the state as specified |
| `Breaker.OpenUntilCooledDown` | internal/domain/circuitbreaker/breaker.go:42-106 | After a trip the breaker stays open until an action comes HalfOpenAfter later |
| `Breaker.NoPassAfterTrip` | internal/domain/circuitbreaker/breaker.go:42-68 | No request passes within HalfOpenAfter of a trip, over whole runs |
| `Breaker.EpisodeCounts` | internal/domain/circuitbreaker/breaker.go:42-106 | From any seed: a half-open episode passes at most ProbeCount requests and its counters are its own |
| `Breaker.EpisodeEnds` | internal/domain/circuitbreaker/breaker.go:71-106 | It closes exactly on the success completing ProbeCount, reopens exactly on a failure, and ends on nothing else |
| `Breaker.SilentProbesBlock` | internal/domain/circuitbreaker/breaker.go:42-68 | Probes that report nothing block the breaker for ever, however long it is asked |
| `Breaker.CountersExact` | internal/domain/circuitbreaker/breaker.go:71-106 | From any seed, total and failures are the outcomes since the last reset |
| `Breaker.OpensIff` | internal/domain/circuitbreaker/breaker.go:88-106 | From any seed, a closed breaker opens exactly on a failure that brings enough outcomes since the last reset, of which fewer than the threshold share succeeded |
| `Breaker.PassesIff` | internal/domain/circuitbreaker/breaker.go:42-68 | Exactly which requests pass: all while closed, while open those HalfOpenAfter or more after the trip if there are probes, and the first ProbeCount of a half-open episode, counted from the run |
| `Breaker.HalfOpensIff` | internal/domain/circuitbreaker/breaker.go:53-58 | An open breaker turns half-open exactly on such a request |
| `Breaker.BeganExact` | internal/domain/circuitbreaker/breaker.go:47-52 | The window began at the last request that found the one before over, or when the breaker closed |
| `Registry.CreatedUnused` | internal/domain/circuitbreaker/registry.go:66-79 | A new breaker has counted nothing, whatever mode the store seeds it with, so the breaker results hold for it |
| `Registry.Registry.Create` | internal/domain/circuitbreaker/registry.go:66-79 | A new breaker object, seeded from the store; every other breaker as it was |
| `Registry.Registry.Get` | internal/domain/circuitbreaker/registry.go:54-81 | Creates a breaker on first use and otherwise returns it |
| `Registry.Registry.AskOne` | internal/domain/circuitbreaker/breaker.go:42-68 | A request to one breaker object leaves the state of every other model unchanged |
| `Registry.Registry.RecordOne` | internal/domain/circuitbreaker/breaker.go:71-106 | And so does an outcome |
| `Registry.Registry.IsAllowed` | internal/domain/circuitbreaker/registry.go:84-86 | Asks the breaker of that model, created if need be, and no other |
| `Registry.Registry.RecordOutcome` | internal/domain/circuitbreaker/registry.go:96-118 | Records on that model only, and queues a save exactly when the state changed |
| `RegistryRuns.HalfOpenSavedIff` | internal/domain/circuitbreaker/registry.go:96-118 | In every interleaving of the three sections of RecordOutcome: the half-open state is saved iff some call finds the breaker half-open at its end and not at its beginning |
| `RegistryRuns.HalfOpenNeverSaved` | internal/domain/circuitbreaker/registry.go:96-118 | So it is not if no request turns the breaker half-open during a call on the same model |
| `RegistryRuns.HalfOpenSavedHappens` | internal/domain/circuitbreaker/registry.go:96-118 | After any run that leaves a breaker open, such a request makes a call save it |
| `RegistryRuns.MirrorsIff` | internal/domain/circuitbreaker/registry.go:54-118 | In every run, at every moment, however calls overlap: the settled store mirrors the breaker iff it has tripped and closed an even number of times since a call last saved it, or an odd number if the half-open state was saved |
| `RegistryRuns.SerialMirrorsIff` | internal/domain/circuitbreaker/registry.go:54-118 | When calls on a model do not overlap, the store mirrors its breaker between them, exactly unless the half-open state was saved last |
| `RegistryRuns.StoreMirrorsBreakers` | internal/domain/circuitbreaker/registry.go:54-118 | So it does when, besides, no request turns the breaker half-open during a call |
| `RegistryRuns.StoreStaysOpen` | internal/domain/circuitbreaker/registry.go:96-118 | After any run that leaves a breaker one failure from tripping, for every ProbeCount, overlapping calls leave the store saying Open while the breaker is closed |
| `RegistryRuns.ModelsIndependent` | internal/domain/circuitbreaker/registry.go:54-118 | A breaker changes only by requests and outcomes of its own model |
| `RegistryRuns.RegistryRunsBreakers` | internal/domain/circuitbreaker/registry.go:54-118 | Each model's breaker is its own run of the breaker machine, however calls interleave, so all breaker results hold per model |
| `RegistryRuns.SeededOpenRefuses` | internal/domain/circuitbreaker/breaker.go:129-136 | A replica meeting a model stored as Open refuses it for a full HalfOpenAfter |
| `Lines.JoinSplit` | plugins/compressor/plugin.go:184-226 | Joining the lines of a text gives the text |
| `Lines.SplitJoin` | plugins/compressor/plugin.go:184-226 | Newline-free lines survive joining and splitting |
| `RunLength.CodeRuns` | plugins/compressor/plugin.go:207-226 | The two-index loop writes the maximal runs of equal lines, each once |
| `Collapse.CollapseRepeatedLines` | plugins/compressor/plugin.go:207-226 | The text with its runs of lines written as line and marker |
| `RunLength.ExpandRecoversIff` | plugins/compressor/plugin.go:207-226 | For any items: exactly which runs the expander recovers from their coded form |
| `Collapse.CollapseReversibleIff` | plugins/compressor/plugin.go:207-226 | The expander recovers a text iff each line reading as a marker of three or more starts the text or follows a blank line, and does not come exactly twice in a row |
| `Collapse.CollapseReversible` | plugins/compressor/plugin.go:207-226 | So it recovers every text that has no line of marker form |
| `Collapse.MarkerLineCollides` | plugins/compressor/plugin.go:207-226 | No expander recovers all texts: every collapsed run shares its form with the two lines of that form |
| `Collapse.CollapseBlankLines` | plugins/compressor/plugin.go:184-201 | The loop trims lines and drops repeated blank ones |
| `Collapse.BlankCollapseSpec` | plugins/compressor/plugin.go:184-201 | No two adjacent blank lines, the right-trimmed non-blank lines kept in order, and idempotent |
| `Compressor.Compress` | plugins/compressor/plugin.go:165-179 | Collapsing and cutting: the shortened text and how much was cut |
| `Compressor.LastUserMessageIndex` | plugins/compressor/plugin.go:138-145 | The last user message, or -1 |
| `Compressor.ShortenMessage` | plugins/compressor/plugin.go:104-114 | One message: the original is stored first iff text is lost |
| `Compressor.RewriteMessages` | plugins/compressor/plugin.go:95-114 | The loop shortens exactly the eligible messages and makes one Put per truncated one, in order |
| `Compressor.Intercept` | plugins/compressor/plugin.go:90-116 | Rewrites the request in place; one retrieval tool is added iff something was truncated |
| `Compressor.Untouched` | plugins/compressor/plugin.go:90-132 | System, multimodal and live-turn messages are unchanged, and no message changes its role |
| `Compressor.TruncationReversible` | plugins/compressor/plugin.go:90-116 | If the truncated messages fit the store, Get returns the exact original of each under the ID its text names, exactly until it expires |
| `Collapse.BlankCollapseExact` | plugins/compressor/plugin.go:184-201 | Every line remains, trimmed, but of neighbouring blank ones only the first |
| `CompressorLaws.CutExactly` | plugins/compressor/plugin.go:165-179 | What is kept and what is reported as omitted add up to the collapsed text; a note that names the number is added iff some is |
| `CompressorLaws.JsonCompacted` | plugins/compressor/plugin.go:165-171 | JSON is replaced by its compact form |
| `CompressorLaws.CollapsingKeeps` | plugins/compressor/plugin.go:165-226 | Of other text, without marker lines, the expander gives every line back, trimmed, but of neighbouring blank ones only the first |
| `CompressorLaws.RewrittenIs` | plugins/compressor/plugin.go:90-132 | Exactly the non-empty text messages that are neither system messages nor the live turn get the shortened text, and a retrieval note iff text was cut and the store is used |
| `CompressorLaws.StoredIff` | plugins/compressor/plugin.go:104-114 | There are Puts, and so a retrieval tool, iff some message is cut |
| `Retrieval.MemoryBackend.EvictOldest` | internal/domain/retrieval/store.go:162-174 | The minimum-finding loop over the map removes an oldest entry and nothing else |
| `Retrieval.MemoryBackend.Put` | internal/domain/retrieval/store.go:125-138 | Evicts one oldest entry iff full, then stores |
| `Retrieval.MemoryBackend.Get` | internal/domain/retrieval/store.go:140-152 | Returns the content unless missing or expired, and drops an expired entry |
| `Retrieval.LookedIs` | internal/domain/retrieval/store.go:140-152 | A Get drops the entry asked for iff it is past its expiry, and leaves all others |
| `Retrieval.SizeBounded` | internal/domain/retrieval/store.go:125-138 | The store never exceeds maxSize |
| `Retrieval.Retained` | internal/domain/retrieval/store.go:125-174 | An entry stays until asked for after expiry or until maxSize later Puts |
| `Retrieval.Retrievable` | internal/domain/retrieval/store.go:125-174 | So its content is retrievable until then |
| `Retrieval.FittingPutsKept` | internal/domain/retrieval/store.go:125-138 | Puts that fit are all kept |
| `Retrieval.KeepsTheNewest` | internal/domain/retrieval/store.go:125-174 | After only Puts the store holds exactly the last maxSize of them |
| `RateLimit.Limiter.Check` | internal/domain/policy/ratelimit.go:79-113 | Purges the window of that key and decides on it; unlimited limits change nothing |
| `RateLimit.Limiter.Record` | internal/domain/policy/ratelimit.go:116-126 | Purges and appends one entry to the window of that key |
| `RateLimit.PurgeWindow` | internal/domain/policy/ratelimit.go:141-147 | The index loop drops the old entries from the front |
| `RateLimit.Tokens` | internal/domain/policy/ratelimit.go:149-155 | The token sum of a window |
| `RateLimit.PurgeIsFilter` | internal/domain/policy/ratelimit.go:141-147 | On an ordered window dropping from the front is filtering by time |
| `RateLimit.WindowExact` | internal/domain/policy/ratelimit.go:79-126 | In every run the purged window is everything ever recorded in the closed last window |
| `RateLimit.AllowedIff` | internal/domain/policy/ratelimit.go:79-113 | In every run a request is allowed iff fewer than maxReq records and few enough tokens for its cost were recorded in the last window, and is told how many may follow |
| `RateLimit.KeysIndependent` | internal/domain/policy/ratelimit.go:79-126 | The window of each key is that of its own calls, so all results on runs hold for every key |
| `RateLimit.LimitsHold` | internal/domain/policy/ratelimit.go:79-126 | No closed interval of the window's length holds more than maxReq records or maxTok tokens |
| `RateLimit.RetryAfterInRange` | internal/domain/policy/ratelimit.go:97-106 | A denial waits between zero and the whole window |
| `RateLimit.PanicsIff` | internal/domain/policy/ratelimit.go:102-106 | The token branch indexes an empty window iff the request alone is over the limit and nothing was recorded within the last window, in every run |
| `RateLimit.OverlapBounded` | internal/domain/policy/ratelimit.go:79-126 | With at most m requests overlapping, no such interval holds more than maxReq + m - 1 records |
| `RateLimit.RetryAfterIsShort` | internal/domain/policy/ratelimit.go:94-101 | A request denied by a full request window stays so exactly until the entry maxReq from the end leaves the window |
| `RateLimit.DenialEnds` | internal/domain/policy/ratelimit.go:79-113 | With nothing recorded since, a request is denied exactly until both the entry maxReq from the end and the last entry whose tokens it cannot fit beside have left the window |
| `RateLimit.OverlapTokensBounded` | internal/domain/policy/ratelimit.go:79-126 | With requests overlapping and recorded in any order, no such interval holds more than maxTok tokens and what the others outstanding at an admission asked for |
| `RateLimit.DeniedAgain` | internal/domain/policy/ratelimit.go:97-106 | A request denied by either limit is denied again up to and including the moment RetryAfter names |
| `Bandit.BackoffExact` | internal/domain/scoring/bandit.go:52-71 | The cooldown is exactly min(5s * 2^(k-3), 300s): the exponent clamp never changes it |
| `Bandit.StreakExact` | internal/domain/scoring/bandit.go:52-71 | consecutiveFail is the trailing failure run, and the cooldown follows from it |
| `Bandit.CooldownIff` | internal/domain/scoring/bandit.go:52-75 | An arm cools down iff its last k >= 3 outcomes failed and less than the cooldown has passed |
| `Bandit.CooldownEnds` | internal/domain/scoring/bandit.go:52-75 | No cooldown outlasts five minutes |
| `Bandit.MeanExact` | internal/domain/scoring/bandit.go:136-154 | The mean is that of every reward ever recorded |
| `Bandit.Eligible` | internal/domain/scoring/bandit.go:81-93 | The candidates not cooling down, or all when every one is |
| `Bandit.EligibleSound` | internal/domain/scoring/bandit.go:81-93 | An eligible candidate was given, and is cooling only if all are |
| `Bandit.ArgMax` | internal/domain/scoring/bandit.go:126-133 | The loop finds the first candidate of highest score, or nothing when all scores are minus infinity |
| `Bandit.SelectEpsilonGreedy` | internal/domain/scoring/bandit.go:116-134 | For every draw: a given candidate, never a cooling one while another is not, and the best mean when exploiting |
| `Bandit.SelectUCB` | internal/domain/scoring/bandit.go:189-212 | For every bonus: the same, of highest upper confidence bound |
| `Bandit.Arena.Update` | internal/domain/scoring/bandit.go:136-154 | Updates one arm, created on first use |
| `BanditLaws.ArmsIndependent` | internal/domain/scoring/bandit.go:136-165 | Each arm is the result of its own outcomes |
| `BanditLaws.EligibleIff` | internal/domain/scoring/bandit.go:73-93 | From the outcomes alone: a candidate is eligible iff its last k >= 3 outcomes did not all fail within its cooldown, or all candidates are so |
| `BanditLaws.ExploitsBestMean` | internal/domain/scoring/bandit.go:116-134 | Exploiting, the choice has the highest mean reward among the eligible candidates ever tried |
| `BanditLaws.UntriedFirst` | internal/domain/scoring/bandit.go:189-212 | UCB takes an untried eligible candidate while there is one, then one of the highest mean and bonus |
| `BanditLaws.FirstBestUnique` | internal/domain/scoring/bandit.go:126-133 | Of equally good candidates the first |
| `Semantic.CosineSimilarity` | internal/domain/cache/semantic.go:120-134 | The accumulating loop computes the similarity, zero for mismatched or zero vectors |
| `Semantic.CauchySchwarz` | internal/domain/cache/semantic.go:120-134 | Dot squared is at most the product of the squared norms, in every dimension |
| `Semantic.SimilarityRange` | internal/domain/cache/semantic.go:118-134 | Similarity lies in [-1, 1]; the documented [0, 1] holds iff the dot product is not negative |
| `Semantic.WordVectorsNeverApart` | internal/domain/cache/semantic.go:118-134 | Which it never is for word vectors |
| `Semantic.PositiveThresholdExact` | internal/domain/cache/semantic.go:57-79 | What Find accepts is "unexpired and at or above the threshold" for all entries iff the threshold is positive |
| `Semantic.Backend.Find` | internal/domain/cache/semantic.go:57-79 | The first unexpired entry of maximal similarity at or above the threshold, and a miss exactly when none qualifies |
| `Semantic.Backend.Evict` | internal/domain/cache/semantic.go:104-116 | Removes the first expired entry, else the oldest |
| `Semantic.Backend.Store` | internal/domain/cache/semantic.go:82-95 | Evicts iff full, then appends |
| `Semantic.SizeBounded` | internal/domain/cache/semantic.go:82-116 | The cache never holds more than maxSize entries |
| `Semantic.KeepsTheNewest` | internal/domain/cache/semantic.go:82-116 | Without expiry it holds exactly the last maxSize, in order |
| `SemanticLaws.Symmetric` | internal/domain/cache/semantic.go:118-134 | Similarity is symmetric |
| `SemanticLaws.SelfSimilar` | internal/domain/cache/semantic.go:118-134 | Every vector but zero has similarity 1 with itself |
| `SemanticLaws.ScaleFree` | internal/domain/cache/semantic.go:118-134 | Only the direction of a vector counts |
| `SemanticLaws.QualifiesIff` | internal/domain/cache/semantic.go:57-79 | What a lookup considers: entries not past their expiry, of positive similarity at or above the threshold |
| `SemanticLaws.BestIs` | internal/domain/cache/semantic.go:57-79 | The one it returns is not exceeded by any of them, and first among equals |
| `SemanticLaws.StoredIsFound` | internal/domain/cache/semantic.go:57-116 | A stored response is found again by its own vector, after any run, until its ttl is over or maxSize others are stored |
| `Anthropic.AssistantBlocks` | internal/adapters/providers/anthropic/translate.go:207-223 | Text, if any, then one tool_use block per call |
| `Anthropic.ToWireContentBlocks` | internal/adapters/providers/anthropic/translate.go:330-346 | One text block, or one block per supported part |
| `Anthropic.TranslateMessages` | internal/adapters/providers/anthropic/translate.go:171-231 | The loop with its pending results computes the translation |
| `Anthropic.ToWireRequest` | internal/adapters/providers/anthropic/translate.go:170-248 | Messages with the history marked, and the system prompt as one block |
| `Anthropic.ConversationKept` | internal/adapters/providers/anthropic/translate.go:170-248 | Expanding result messages into tool messages and reading the other blocks back into role, content, calls and parts gives what is kept of every non-system message, in order, whatever is marked |
| `Anthropic.KeptIff` | internal/adapters/providers/anthropic/translate.go:170-248 | A message is kept whole iff it has no name and no field its role and shape do not use, its calls are calls of functions, and its parts, if any, are supported, without image detail, and not a single text |
| `Anthropic.ConversationPreservedIff` | internal/adapters/providers/anthropic/translate.go:170-248 | So the original conversation without system messages is read back iff all its messages are such |
| `Anthropic.OneMessagePerRun` | internal/adapters/providers/anthropic/translate.go:175-231 | Each maximal run of tool messages becomes exactly one message: the k-th message of results holds the k-th run, whole and in order |
| `Anthropic.WireRoles` | internal/adapters/providers/anthropic/translate.go:182-231 | No wire message has role tool or system, and a result message is a user message of results only |
| `Anthropic.SystemKeepsAll` | internal/adapters/providers/anthropic/translate.go:193-205 | The system prompt is every system message from the first non-empty one on, set apart by blank lines |
| `Anthropic.HistoryAlignedIff` | internal/adapters/providers/anthropic/translate.go:282-304 | The history prefix is where the breakpoint expects it iff it holds no tool and no system message |
| `Anthropic.MarkHistoryCacheBreakpoint` | internal/adapters/providers/anthropic/translate.go:305-325 | Marks the last block of the history prefix in place, under the length conditions |
| `Anthropic.MarkingIsHarmless` | internal/adapters/providers/anthropic/translate.go:305-325 | Marking changes no content and adds at most one mark |
| `Anthropic.SplitContent` | internal/adapters/providers/anthropic/translate.go:461-481 | Text and tool calls of a response |
| `Anthropic.SplitUndoesAssistant` | internal/adapters/providers/anthropic/translate.go:461-481 | Splitting what an assistant turn translates to gives its text and calls back, as calls of functions |
| `Anthropic.StreamToolCallAccumulator.Start` | internal/adapters/providers/anthropic/translate.go:497-501 | Opens a call at an index |
| `Anthropic.StreamToolCallAccumulator.AppendArgs` | internal/adapters/providers/anthropic/translate.go:503-507 | Extends the call at an index, if there is one |
| `Anthropic.StreamToolCallAccumulator.Finalize` | internal/adapters/providers/anthropic/translate.go:511-517 | One call per opened index, in order of opening |
| `Anthropic.CallsReassembledIff` | internal/adapters/providers/anthropic/translate.go:483-517 | For calls with different IDs: every streamed call comes out in order with its own fragments iff no index was opened twice |
| `AnthropicMarks.MarkedIff` | internal/adapters/providers/anthropic/translate.go:305-325 | A block is marked iff it is the last one of the history prefix and the text of the prefix has 4096 characters, or 8192 for Haiku |
| `AnthropicMarks.SystemMarkedIff` | internal/adapters/providers/anthropic/translate.go:248-281 | There is a system block iff there is a prompt, marked iff it is as long |
| `AnthropicMarks.NothingElseMarked` | internal/adapters/providers/anthropic/translate.go:171-231 | No other block is |
| `AnthropicMarks.AssistantShape` | internal/adapters/providers/anthropic/translate.go:207-223 | An assistant turn with calls becomes its text, if it has any, and one use block per call, in order |
| `ModelPerf.EmaBetween` | internal/adapters/store/modelperf/memory.go:62-71 | An average stays between its smallest and largest observation |
| `ModelPerf.EmaConverges` | internal/adapters/store/modelperf/memory.go:62-71 | Under constant load it closes a tenth of the gap at every sample |
| `ModelPerf.RingKept` | internal/adapters/store/modelperf/memory.go:73-81 | Writing at head modulo 100 keeps the ring the last 100 outcomes, rotated |
| `ModelPerf.RingRate` | internal/adapters/store/modelperf/memory.go:82-88 | Counting the ring counts the last min(n, 100) outcomes |
| `ModelPerf.Entry.Upsert` | internal/adapters/store/modelperf/memory.go:59-88 | After every sample the statistics are those of the whole history, its success rate that of the last 100 |
| `ModelPerf.StatsOfNothing` | internal/adapters/store/modelperf/memory.go:36-44 | Without samples everything is zero |
| `ModelPerf.StatsBetween` | internal/adapters/store/modelperf/memory.go:59-71 | Each average stays in the range of its own measure |
| `ModelPerf.RateIsShare` | internal/adapters/store/modelperf/memory.go:73-88 | The success rate is the share of good samples among the last hundred |
| `ModelPerf.RateForgets` | internal/adapters/store/modelperf/memory.go:73-88 | Outcomes older than 100 samples leave no trace |
| `ModelPerf.RateMeansSuccess` | internal/adapters/store/modelperf/memory.go:82-88 | The rate lies in [0, 1] and is 1 iff all outcomes in the window succeeded |
| `ModelPerf.KeyUnambiguousIff` | internal/adapters/store/modelperf/memory.go:34-34 | A model and an intent share their entry with no other pair iff neither holds a colon |
| `ModelPerf.Memory.Get` | internal/adapters/store/modelperf/memory.go:36-44 | The statistics of all samples recorded under a key, zero if none |
| `ModelPerf.GetStats` | internal/adapters/store/modelperf/memory.go:36-44 | Under the key of a model and an intent |
| `ModelPerf.Memory.Upsert` | internal/adapters/store/modelperf/memory.go:46-91 | Extends the history of one key and leaves all others |
| `ModelPerf.UpsertStats` | internal/adapters/store/modelperf/memory.go:46-91 | That of a model and an intent |
| `ModelPerf.HistoryIsReports` | internal/adapters/store/modelperf/memory.go:34-91 | After any run, with no colon in model names, the history of a model and an intent is every sample reported for them, and no other |

## Left out

- HTTP, SSE, authentication, request signing, Redis and Postgres adapters, metrics and configuration: input and output only.
- JSON text, FNV and SHA hashes, CRC-32 and random IDs: parameters; a JSON argument is the value it decodes to.
- Floating-point rounding, `float32` in similarity, and the length of text in bytes rather than characters.
- Disk errors, crashes in mid-write and malformed journal lines, for all journals; the spend journal and the persistent semantic cache as a whole.
- Model catalog, prices, context-window tables and intent taxonomy: the executor takes the window as a function of the model.
- Gemini translation, JSON and comment compression: the latter are arbitrary partial functions here.
- Executor.BackoffClosedForm: only for integral factors, because a fractional one truncates to whole nanoseconds; `Executor.WaitingBounded` covers every factor.
- BudgetCeiling.CeilingHolds: assumes a scope whose average has settled on the common cost; before that the estimate protects nothing, as the code says. Events that answer no admission are counted, whoever publishes them.
- BudgetWarnings.TotalOvershoot: assumes one event per admitted call, which the code around the plugin does not ensure: cache hits publish none and chains publish several. `BudgetCeiling.OneDispatcher` does not need it.
- MemoryStore.ReplayAgrees: for runs in which a user's appends are written in the order of the saves and no rewrite falls between the two steps of a Save; `MemoryRaces.ReversedAppends` and `MemoryRaces.LateAppend` show what happens otherwise.
- MemoryRaces.LateAppend: one late append, with no action of the same user between the rewrite and it.
- MemoryStore.Store.constructor: replay reads the clock once, where the code reads it for every line and every user.
- RecentFacts.Recent: sorting is any function that sorts, because the library sort does not keep the order of equal times.
- Session.ReplayAgrees: for sessions neither deleted nor lapsed, because neither is journaled, whose turns are written in order and not lost in a restart; `Session.OvertakingMatters` and `Session.DeleteUndoneIff` show what happens otherwise.
- RegistryRuns.StoreMirrorsBreakers: one replica whose saves arrive in order. Store errors and timeouts are a missing value; lost or reordered saves and store expiry are not modelled.
- EventStream.ParseEventStreamHeaders: header values keep their type, where the code renders them as strings.
- Collapse.MarkerLineCollides: one family of texts that share a collapsed form, not all of them; which texts the expander recovers is exact in `Collapse.CollapseReversibleIff`.
- Compressor.TruncationReversible: for fresh IDs and a strictly increasing clock, and before later Puts; those are `Retrieval.Retrievable`.
- RateLimit.LimitsHold: for runs in which each Record directly follows its allowed Check and spends no more than was asked for; overlapping requests are `RateLimit.OverlapBounded` and `RateLimit.OverlapTokensBounded`.
- Bandit.SelectUCB: the confidence bonus is an arbitrary function of the arm; the total number of pulls and regret are not modelled.
- Anthropic.ToWireRequest: tools, tool choice, token limits and the decoding of data URIs.
- Anthropic.CallsReassembledIff: for calls with different IDs, because equal calls at one index cannot be told apart.
- ModelPerf.UpsertStats: that different pairs may share a key is `ModelPerf.KeyUnambiguousIff`. Timestamps and listing.
