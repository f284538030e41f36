# Bot detector: verified model

A Dafny model of the logic of a bot detector that reads web server logs, follows
every client through behavioural chains, blocks it through HAProxy, keeps state
in a database and merges that state across a cluster. The model is stated on
values and, where the program updates shared state, also as classes and loops
that are proved to do what the value functions say.

`dafny verify dfyconfig.toml` checks the whole project.

## Components

**Chain engine.** `Chains` is one chain and the effect of one entry on its
progress; `GreedyMatching`, `Detection` and `Tracking` say what that matcher achieves,
`Applicability` which chains see an entry.
`Activities` is the store of activities and everything one entry does to it,
`EntryEffects` and `StoreInvariants` its properties, `ReorderBuffer` the
out-of-order buffer, `SystemRuns` the whole system as a state machine whose steps
interleave freely. `RunHistory`, `BlockCauses`, `RequestTimes` and `Arrivals` tie
the record of a run to the entries that were processed and that arrived, `Standings`
and `StandingRuns` derive marks and blocks from it. `Checker`
is the same as it runs, with activity objects shared through a map; each of its
methods is held to the functions above.

**Configuration.** `IncludeGraph` scans include directives and searches cycles;
`MatcherSpec` is what a field matcher means; `MatcherCompiler` compiles it;
`MatcherReadings` reads values as statements about an entry's parts;
`MatcherRuntime` runs compiled matchers over the two caches of a log entry;
`ConfigCompiler` is the compiler with its loops and its record of watched files.

**Cluster.** `Reasons` merges block reasons as strings, `ClusterMerge` folds the
states of all nodes in both variants the program has, `FollowerSync` applies a
leader's response in batches.

**Database.** `Persistence` is the tables and the statements on them, `Database`
the operations in place, `Cleanup`, `Scores` and `TableRuns` what holds after clean-ups
and over runs, `BadActorGate` what it means for the checker, `JointRuns` checker and
tables in one run.

**Smaller algorithms.** `BackendComparison` compares the stick tables of HAProxy
backends, `Durations` and `DurationRoundTrip` print and parse durations,
`WebsiteTailers` manages one log tailer per website. `GoStrings`, `StringOrder`,
`LogEntries` and `Arithmetic` are shared ground.

## Conventions

Times and durations are integers in nanoseconds with 0 as Go's zero time;
`time.Sub` saturates as in Go, and int64 wrap-around is written out where
expiries are compared. The wall clock is an argument that is fixed while one
entry is processed. Matchers are total predicates on entries. A map iteration
order is a free choice. Mutexes make the steps of `SystemRuns`: what runs under
one lock is one step, and the worker's two locks are two steps with the taken
entries held in between. Scores are real numbers and the hash of a reason is a
function; where it must be, it is injective.

Chain names stay different when each ` | ` in them is replaced by `_`, and none then
continues another past an opening bracket: `KeysMeet` shows that chains share their
progress exactly where this fails, as `A | B` and `A_B` do. Configuration does not
change during a run. Includes of the main file that only the compiler sees, because
the scan trims their path, do not include one another in a circle:
`MainValueIsRanked` shows that this is what the compiler's recursion needs, and
`HiddenLoop` what happens otherwise.

## Where the program and its documentation part

- `docs/BAD_ACTORS.md:77` calls bad actors permanent. `ActorsAfterCleanup` shows
  that each clean-up removes them with their block.
- The comment on `ParseDuration` (`internal/utils/duration.go:52-54`) demands
  descending units. `DaysMayComeLast` shows that this holds between weeks and days
  only.
- The out-of-order buffer never takes an entry of an address that only shows up with
  a vhost (`VhostAddressIsNeverReordered`); it takes one with a vhost only after
  an entry of the same address without (`BufferingNeedsBareTraffic`,
  `MixedTrafficIsBuffered`).
- The search for include cycles does not see every cycle the compiler can enter:
  an include path with a leading blank can hide one (`HiddenLoop`).
- The time of the first block is lost for addresses that two nodes share
  (`RequestForgetsFirstBlock`, `SharedBlockLosesItsStart`).

## Model

| member | source | states |
|---|---|---|
| `Chains.ProgressInRange` | internal/checker/checker.go:734-743 | Over every history of one chain key, stored progress is absent or strictly between 0 and the chain's length. |
| `Chains.OneResetSuffices` | internal/checker/checker.go:649-690 | After a time-rule reset the same entry is tried once more as a first step: it starts the chain over or leaves nothing, and never completes it. |
| `GreedyMatching.GreedyIsOptimal` | internal/checker/checker.go:624-745 | Without time rules, the step list repeated n times embeds in order in the processed entries if and only if n is at most the number of completions: the greedy matcher completes as often as any choice of entries could. |
| `GreedyMatching.NothingBeatsGreedy` | internal/checker/checker.go:624-745 | No choice of entries, in order, matches more steps of the endlessly repeated chain than the matcher did. |
| `Detection.ProgressIsSound` | internal/checker/checker.go:567-619 | Stored progress k rests on k processed entries that match steps 1..k in order, keep the first-step rule and every delay, and were all seen since the last drop or completion. |
| `Detection.CompletionIsSound` | internal/checker/checker.go:624-745 | In every history of one chain key, every completion rests on one processed entry per step, the last being the completing one, under all time rules. |
| `Tracking.MismatchWaits` | internal/checker/checker.go:692-743 | An entry inside the delays that does not match the due step leaves the stored progress as it was, whatever the rules of the step. |
| `Tracking.TrackedAdvances` | internal/checker/checker.go:624-745 | For every chain with its time rules: entries that start it anew and match its steps in time and in order, with nothing between them that matches or is late, take it as far as they go, and complete it if they are all its steps. |
| `Tracking.ProgressExactly` | internal/checker/checker.go:567-745 | Stored progress is k if and only if the history ends within such a pass of k entries. |
| `Tracking.CompletesExactly` | internal/checker/checker.go:624-745 | The chain completes at an entry if and only if that entry finishes such a pass. |
| `Tracking.DelayBounds` | internal/checker/checker.go:567-619 | A step is in time up to and including its greatest delay and from its least one on; a first step only beyond its least silence, or for an actor not seen before. |
| `ChainKeys.KeyHasNoSeparator` | internal/checker/checker.go:18-37 | A chain key never contains the separator that joined reasons are split at. |
| `ChainKeys.KeyDeterminesName` | internal/checker/checker.go:20-37 | Within one activity, a chain key determines the chain's name up to the replacement of separators: always where the vhost is known, otherwise unless one replaced name continues the other past an opening bracket. |
| `ChainKeys.KeysMeet` | internal/checker/checker.go:20-37 | For all names: two chains share a key for some pair of websites if and only if their names are the same after the replacement of separators or, without a vhost, one then continues the other past an opening bracket. |
| `Activities.FirstRule` | internal/checker/checker.go:128-153 | The first good actor rule that applies, and no earlier one applies. |
| `Applicability.ChargedExactly` | internal/checker/checker.go:42-76 | A chain charges an entry if and only if the entry has an address of the family the chain asks for. |
| `Applicability.SameActorExactly` | internal/checker/checker.go:42-76 | Two entries are charged to one actor if and only if they share address and vhost and, for chains keyed by user agent, the user agent. |
| `Applicability.ListedExactly` | internal/checker/checker.go:765-800 | The chains listed for an entry are the global ones and those of the website of its vhost, or of the catch-all for a vhost nobody claims; without websites all of them. |
| `Applicability.EntryCovers` | internal/checker/checker.go:806-840 | An entry is run against exactly the listed chains that the filter admits, that charge it, and whose actor is neither a good one nor blocked, in their order, up to a completion that stops the loop or an unknown chain. |
| `Applicability.GateLooksAtActor` | internal/checker/checker.go:861-874 | The activity the checks before the chains look at is the one a chain charges, unless the chain counts a user agent. |
| `EntryEffects.EntryEffect` | internal/checker/checker.go:748-848 | One entry against all chains: all runs of an activity see its request time from before the entry, at most one run blocks and it is the last, every activity that ran ends with the entry's timestamp, and a skipped activity runs nothing and keeps its progress. |
| `EntryEffects.RunChainsEffect` | internal/checker/checker.go:806-840 | The loop over applicable chains keeps skipped actors skipped, hands every run the request time from before the entry and lets no chain run on an actor after its block. |
| `EntryEffects.GateIsQuiet` | internal/checker/checker.go:861-1045 | The good actor, bad actor and block checks before the chains change no progress and no other address. |
| `EntryEffects.EntriesAreIsolated` | internal/checker/checker.go:748-1045 | An entry changes no activity of another address. |
| `Standings.CompletedBlocksHold` | internal/checker/checker.go:255-376 | After an entry, the actor of every completed block chain and the bare address are blocked, each with the reason of the last completion on it and until a block duration after the clock. |
| `StandingRuns.VerdictExactly` | internal/checker/checker.go:861-1045 | For every store and every answer of the database: an entry is turned away as a good actor's if a rule covers it or, unless its address is listed, its activity is marked; as a known bad actor's if its address is listed and no rule covers it; and otherwise if and only if its activity has a block that has not run out. |
| `StandingRuns.ExpiredBlockPasses` | internal/checker/checker.go:83-122 | An entry whose block has run out passes, and its activity is free again. |
| `StandingRuns.GoodActorsAreTurnedAway` | internal/checker/checker.go:128-153 | In every state of the system an entry that a rule covers is neither handed over nor buffered nor processed; its activity is then marked by the first such rule and not blocked. |
| `StandingRuns.UnblocksAreSpaced` | internal/checker/checker.go:901-975 | Without a database, a good actor's address is noted as unblocked, and not again until the cooldown is over. |
| `StoreInvariants.CheckEntryKeepsGoodStore` | internal/checker/checker.go:748-848 | Checking an entry keeps: blocked exactly when the skip type says so, no expiry unless blocked, and all progress strictly inside its chain. |
| `StoreInvariants.CheckGateKeepsGoodStore` | internal/checker/checker.go:83-122 | The checks before the chains, including block expiry, keep the same invariant. |
| `StoreInvariants.SweepIsSafe` | internal/store/store.go:155-198 | The idle sweep keeps the invariant, changes nothing it keeps, and never drops a blocked actor or one with a step inside the idle timeout. |
| `StandingRuns.SweepIsExact` | internal/store/store.go:155-198 | The sweep drops an activity if and only if it is not blocked, matched no step within the idle timeout, and was silent for longer than that or than any first-step rule looks back. |
| `StandingRuns.ClearedAddressStartsAfresh` | internal/server/handlers_ip.go:1561-1571 | In every run, the activities of a cleared address are as if never seen: no block, no mark, no progress, no request time. |
| `StoreInvariants.CheckEntryReplays` | internal/checker/checker.go:748-848 | After an entry, each key's stored progress and completion count, and every single recorded run with its chain, actor, key and completion, are still the replay of what ran under that key before. |
| `StoreInvariants.DropReplays` | internal/store/store.go:155-198 | Dropping activities resets exactly their replay. |
| `ReorderBuffer.InsertKeepsOrder` | internal/checker/checker.go:158-172 | Insertion keeps the buffer sorted, keeps every entry, and goes behind entries of the same time. |
| `ReorderBuffer.DrainTakesTheReady` | internal/checker/checker.go:177-190 | A drain splits a sorted buffer into exactly the entries before the horizon and the others. |
| `SystemRuns.EveryRunKeepsTheInvariant` | internal/checker/checker.go:155-250 | In every state reachable by arrivals, ticks, worker processing, flushes, sweeps and API clears: handed-over entries are, as a multiset, those processed, buffered or held; the buffer is sorted; the store invariant holds; all progress is the replay of what was processed; the record lists exactly the processed entries; and every block has its cause in the record. |
| `SystemRuns.ProgressInRunIsSound` | internal/checker/checker.go:567-745 | In every reachable state, stored progress has its witness entries under that very actor and key, all of them processed. |
| `SystemRuns.CompletionInRunIsSound` | internal/checker/checker.go:567-745 | In every run, every recorded completion rests on one processed entry per step of its chain, for the actor and key the chain charges them to, under all time rules, the last being the completing entry, none shared with an earlier completion. |
| `SystemRuns.ProgressInRunExactly` | internal/checker/checker.go:567-745 | In every reachable state, the progress stored for a chain key is k if and only if a pass of k entries is under way in what was processed for that actor and key. |
| `SystemRuns.CompletionInRunExactly` | internal/checker/checker.go:567-745 | In every run, a recorded run completed its chain if and only if its entry finishes such a pass: no completion is missed and none is invented. |
| `SystemRuns.BlockInRunIsEarned` | internal/checker/checker.go:255-376 | In every reachable state, a blocked activity is the actor or the bare address of a recorded completion of a block chain that rests on matching entries, or met the gate as a known bad actor; that event gives the reason of the block and the time it ends, a block duration after its clock. |
| `StandingRuns.EveryRunStands` | internal/checker/checker.go:83-376 | In every run, the flags of every activity follow from the record: open, marked by a rule, or blocked with the reason and end of the last block on it, which only a clock past that end lifts. |
| `StandingRuns.GoodActorsRunNothing` | internal/checker/checker.go:83-376 | In every run, between a mark as good actor and a run of a chain on the marked activity something dropped it or blocked it. |
| `StandingRuns.BlockedActorsRunNothing` | internal/checker/checker.go:83-376 | In every run, no chain runs on an actor or a bare address that a completion blocked, before a clock passes the end of that block, unless it was dropped, marked or blocked again. |
| `StandingRuns.BlockedAddressIsTurnedAway` | internal/checker/checker.go:255-376 | Until then every entry of that actor, and every entry of the address without a vhost, is turned away. |
| `RunHistory.RunIsProcessed` | internal/checker/checker.go:748-848 | Every recorded run belongs to an entry that was processed. |
| `BlockCauses.GateIsCaused` | internal/checker/checker.go:861-1045 | The checks before the chains block known bad actors only, for the configured time, and leave or lift every other block. |
| `BadActorGate.BadActorsAreTurnedAway` | internal/checker/checker.go:861-1045 | A bad actor of the tables that no good actor rule covers gets no entry past the gate, whatever the state of the checker. |
| `BadActorGate.ThresholdTurnsAway` | internal/checker/checker.go:379-435 | Over any run of the database without stale-actor clean-ups, an address whose score reached the threshold is turned away. |
| `JointRuns.CheckerRuns` | internal/checker/checker.go:861-1045 | The checker of a run together with the tables makes a run of its own, so every statement about those covers it. |
| `JointRuns.TablesFollowChecker` | internal/checker/checker.go:379-435 | In every joint run the tables are those after a run of database steps whose blocks are, in order and with address, reason, clock, duration and weight, the completed block chains of the checker's record; the other steps are unblocks of good actors and what other writers did. |
| `JointRuns.ScoresAreCompletions` | internal/checker/checker.go:379-435 | In every joint run, the score and count of an address whose row no step deleted are the sum and number of the positive weights of its recorded completions. |
| `JointRuns.CompletionBlocksAddress` | internal/checker/checker.go:379-435 | In every joint run, a recorded completion is a block of the tables with its address, reason, clock and duration, and the address stays blocked there until a step lifts it: an unblock, a clear, or a clean-up after the expiry. |
| `JointRuns.CompletionsStayBlocked` | internal/checker/checker.go:379-435 | Where no such write comes and no good actor shows up, every address with a recorded completion has a blocked row. |
| `JointRuns.UnblocksExactly` | internal/checker/checker.go:901-960 | A good actor's entry unblocks its address in the tables if and only if that is configured and the address is blocked, has no row, or was last unblocked longer ago than the cooldown. |
| `JointRuns.GoodActorIsUnblocked` | internal/checker/checker.go:901-960 | So after its arrival the address is not blocked in the tables. |
| `JointRuns.CompletionsTurnAway` | internal/checker/checker.go:379-1045 | So, without clean-ups of scores, an address whose recorded completions weigh as much as the threshold is turned away at its next entry that no good actor rule covers. |
| `JointRuns.ThresholdInJointRun` | internal/checker/checker.go:861-1045 | In every joint run without stale-actor clean-ups, an address whose score row is at the threshold is turned away. |
| `JointRuns.BlockInJointRunIsEarned` | internal/checker/checker.go:255-1045 | In every joint run, a blocked activity has a completion that rests on matching entries behind it, or met the gate after the tables listed its address, by a peer's report or by a score that reached the threshold. |
| `RequestTimes.CheckEntryTimes` | internal/checker/checker.go:83-848 | After an entry, the request time of every activity it ran on is the entry's; any other one stays, or is raised to the entry's from an earlier one, which happens only to activities of its address and vhost under a running block. |
| `Arrivals.RequestTimesAreExact` | internal/checker/checker.go:806-848 | In every run, the request time a chain is given is exactly that of the last entry its actor ran on since it was last dropped, or of a later one that met its running block, or none; that entry came before in the record, and arrived with the actor's address and vhost. |
| `SystemRuns.CompletionsInRunAreOptimal` | internal/checker/checker.go:624-745 | In every run that never dropped the actor, the completions recorded for a chain without time rules are the greatest number its processed entries allow. |
| `SystemRuns.TickTakesExactlyTheReady` | internal/checker/checker.go:1088-1115 | A worker tick takes exactly the buffered entries before the horizon and changes nothing else. |
| `SystemRuns.HeldAreProcessedInOrder` | internal/checker/checker.go:475-488 | What the worker took is processed completely and in time order. |
| `SystemRuns.FlushLeavesNothingBehind` | internal/checker/checker.go:194-207 | Flushing with nothing held leaves every entry ever handed over processed exactly once. |
| `Arrivals.BufferingNeedsBareTraffic` | internal/checker/checker.go:218-250 | In every run, whatever is buffered or held comes after a newer entry of its own address without a vhost, within the tolerance, that was already processed or met a running block: the buffer delays late entries and puts none in front of that newer one. |
| `Arrivals.BufferedExactly` | internal/checker/checker.go:211-250 | In every run, an entry that passes the gate is buffered if and only if a tolerance is set and the bare address was last seen later, by no more than it; otherwise it is processed at once. |
| `Arrivals.VhostAddressIsNeverReordered` | internal/checker/checker.go:218-250 | An address all of whose entries carry a vhost has nothing buffered, and its entries are processed in the order they were handed over, whatever other addresses do. |
| `Arrivals.VhostTrafficIsNeverReordered` | internal/checker/checker.go:218-250 | If that holds of every address, the buffer is never used and all entries are processed in arrival order. |
| `Arrivals.MixedTrafficIsBuffered` | internal/checker/checker.go:218-250 | An address seen without a vhost does have a late entry with a vhost buffered: a run for every such pair of entries and every tolerance. |
| `Checker.ActorActivity.CheckSkip` | internal/checker/checker.go:83-122 | In place: exactly the specified change of the activity, and the same answer. |
| `Checker.Processor.GetOrCreate` | internal/store/store.go:134-144 | Returns the shared activity of the actor, new exactly when there was none. |
| `Checker.Processor.HandleChainCompletion` | internal/checker/checker.go:255-376 | A completed block marks the bare address and the completing activity, and answers whether later chains are skipped. |
| `Checker.Processor.MatchStepFields` | internal/checker/checker.go:521-555 | True exactly when every matcher of the step accepts the entry. |
| `Checker.Processor.ProcessChainForEntry` | internal/checker/checker.go:624-745 | The retry loop with its early exits leaves the store that the step function describes, reports completion and stop accordingly, and runs its body at most twice. |
| `Checker.Processor.RunApplicableChains` | internal/checker/checker.go:806-840 | The loop with its breaks and skips gives the specified store and runs, and collects exactly the activities that ran. |
| `Checker.Processor.CheckChainsInternal` | internal/checker/checker.go:748-848 | One entry takes the system to the specified next state. |
| `Checker.Processor.SearchLater` | internal/checker/checker.go:158-172 | The binary search finds the first later entry of a sorted buffer. |
| `Checker.Processor.AddToOooBuffer` | internal/checker/checker.go:158-172 | The slice insertion is the specified insertion. |
| `Checker.Processor.NextOooCandidate` | internal/checker/checker.go:177-190 | Takes the head if and only if it is before the horizon. |
| `Checker.Processor.HandleOutOfOrder` | internal/checker/checker.go:218-250 | Buffers or processes the entry exactly as the system step says. |
| `Checker.Processor.CheckChains` | internal/checker/checker.go:861-1045 | The whole entry point is the arrival step of the system. |
| `Checker.Processor.FlushEntryBuffer` | internal/checker/checker.go:194-207 | Draining the buffer at shutdown is the flush step. |
| `Checker.Processor.TakeReady` | internal/checker/checker.go:1088-1115 | The worker's first lock: takes the ready entries of a freshly sorted buffer, as the tick step says. |
| `Checker.Processor.FlushGivenEntries` | internal/checker/checker.go:477-488 | The worker's second lock: processes the taken entries in some time order, as the processing step says. |
| `Checker.Processor.CleanUpIdleActors` | internal/store/store.go:155-198 | The sweep over the map is the sweep step. |
| `Checker.Processor.ClearIP` | internal/server/handlers_ip.go:1561-1571 | Clearing an address is the API step: exactly its activities go. |
| `IncludeGraph.DepGraph.Build` | internal/config/config.go:692-727 | The scan ends, and the graph is exactly the directives of the files reached from the main file, every node being reached; a missing main file is reported. |
| `IncludeGraph.DepGraph.Dfs` | internal/config/config.go:218-239 | Either the branch that closed a cycle, or all flags consistent and the explored files in an order in which includes lead backwards. |
| `IncludeGraph.DepGraph.DetectCycle` | internal/config/config.go:204-215 | Nothing is reported if and only if no path from the root returns to itself; a report is a real edge path from the root whose last file already occurs on it. |
| `IncludeGraph.OrderedGraphHasNoCycle` | internal/config/config.go:204-239 | An order in which includes lead backwards excludes every cycle from the root. |
| `MatcherSpec.CanonicalIsFixed` | internal/config/config.go:289-322 | Canonical field names are their own canonical names, so normalising twice is harmless. |
| `MatcherCompiler.AcceptedIncludesAreRanked` | internal/config/config.go:106-201 | If no cycle was found, every file an included file opens was recorded by the scan and ranks below it: the compiler's recursion through text files ends. |
| `MatcherCompiler.MainValueIsRanked` | internal/config/config.go:106-157 | After a scan of the main file without cycle, some order of the files ranks everything the compiler opens for a value of it, so that its recursion ends, if and only if the includes the scan did not read can be ranked by themselves. |
| `MatcherCompiler.PlainPathsAreCovered` | internal/config/config.go:143-342 | Where trimming leaves the file every include names, there are no such includes. |
| `MatcherCompiler.BlanksPartScanAndCompiler` | internal/config/config.go:143-342 | For every list of scalars of the main file, the scan records the file the compiler opens for an include if and only if some scalar, with its path trimmed, names that file. |
| `MatcherCompiler.HiddenLoop` | internal/config/config.go:106-397 | Where none does, the scan can find no cycle although compilation never ends: a family of configurations in which no order ranks the includes. |
| `MatcherCompiler.CompileIsFaithful` | internal/config/config.go:289-658 | A value compiles if and only if it is well formed, and then the compiled matcher means what the value says: any of a list, all of an object, the complement of `not`, any line of a file. |
| `MatcherCompiler.ListIsFaithful` | internal/config/config.go:505-531 | The batched prefix form and the item-by-item form of a list both mean any of its items. |
| `MatcherCompiler.BatchIsAnyPrefix` | internal/config/config.go:535-559 | The batch holds exactly the prefix of every item, in order. |
| `MatcherRuntime.RegexKeysApart` | internal/config/config.go:405-422 | For field names without a colon, the cache key of a regular expression determines field and pattern. |
| `MatcherRuntime.ConfiguredKeysApart` | internal/config/config.go:405-422 | For field names as they come out of the configuration, with or without a colon, keys meet only for the same field and pattern or for two unknown fields, which never match. |
| `MatcherRuntime.EveryFieldIsConfigured` | internal/config/config.go:662-684 | Every key of the configuration, lower-cased and made canonical, is such a name. |
| `MatcherRuntime.KindsApart` | internal/config/config.go:405-442 | A regular expression and a prefix never share a cache key. |
| `MatcherRuntime.KnownFieldsArePlain` | internal/types/logentry.go:62-90 | Every field the entry knows has such a name. |
| `MatcherRuntime.RegexKeysCollide` | internal/config/config.go:405-422 | Two field names can share a key if and only if one continues the other past the key's infix, which takes a colon in the name. |
| `MatcherRuntime.CachedEntry.GetMatchValueIfType` | internal/types/logentry.go:94-123 | With a truthful cache the answer is the uncached one, and the cache stays truthful. |
| `MatcherRuntime.CachedEntry.Run` | internal/config/config.go:258-658 | Whatever ran on the entry before, a compiled matcher answers its uncached denotation and keeps both caches truthful. |
| `ConfigCompiler.Compiler.CompileSingle` | internal/config/config.go:289-397 | The compiler as it loops, recurses and records files gives the specified result, and on success every file included directly or indirectly is watched with its lines. |
| `ConfigCompiler.Compiler.TryCompileBatchedCIDR` | internal/config/config.go:535-559 | The loop answers a batch exactly when every item is a valid prefix. |
| `ConfigCompiler.Compiler.CompileObject` | internal/config/config.go:562-596 | The loop over operators gives the conjunction, or an error for an empty object or a bad operator. |
| `ConfigCompiler.Answer` | internal/config/config.go:258-658 | Running the compiled matcher on an entry, whatever ran on it before, answers what the configured value means. |
| `ConfigCompiler.LoadMatcher` | internal/config/config.go:1493-1684 | From scan to matcher: a cycle is reported with its path, or there is none and each value whose recursion can be ranked compiles exactly if it is well formed, to the specified matcher, with all its includes watched, also those the scan missed. |
| `ConfigCompiler.LoadAndAnswer` | internal/config/config.go:258-658 | End to end: loading such a value under a key of the configuration and asking it about an entry answers what the value means, for every key and cached entry. |
| `MatcherReadings.PlainTextMeans` | internal/types/logentry.go:62-90 | A plain text under each text field asks whether that very part of the entry equals it, up to blanks around the text. |
| `MatcherReadings.AlmostDirectiveMeans` | internal/config/config.go:337-491 | A text that is a directive only without its blanks, or a directive with nothing behind it, is compared as it stands. |
| `MatcherReadings.NumberMeans` | internal/config/config.go:494-502 | A number under status code or size asks for that number. |
| `MatcherReadings.RangeMeans` | internal/config/config.go:599-633 | Two range operators describe the interval they name, each end included or not. |
| `MatcherReadings.DirectiveMeans` | internal/config/config.go:325-491 | An exact text is compared without trimming, a regular expression is asked about the part, a prefix must contain the address. |
| `MatcherReadings.NotAndAnyMean` | internal/config/config.go:505-658 | `not` is the complement and a list is any of its items. |
| `MatcherReadings.StatusClassMeans` | internal/config/config.go:444-470 | A pattern like 4XX is the class of the codes from 400 to 499, for every class. |
| `MatcherReadings.SignificantExactly` | internal/utils/fileutils.go:9-33 | A line of a file counts if and only if it has a first character that is no blank and is not a hash. |
| `MatcherReadings.TextIncludesExactly` | internal/config/config.go:159-201 | A text file includes exactly the files that its significant lines name behind `file:`. |
| `Reasons.SplitOfJoin` | internal/cluster/statesync.go:70-95 | Splitting undoes joining for attributed reasons. |
| `Reasons.MergeRefinesOrderedSet` | internal/cluster/statesync.go:70-95 | Folding attributed reasons gives a string that splits back into one reason per base. |
| `Reasons.FirstSeenBases` | internal/cluster/statesync.go:99-104 | Those reasons have pairwise distinct bases, and exactly the bases supplied. |
| `Reasons.FirstSeenOrder` | internal/cluster/statesync.go:70-95 | They stand in the order of their first appearance. |
| `Reasons.AttributionIsIdempotent` | internal/cluster/statesync.go:48-65 | A reason that has a source keeps it, whoever attributes it next. |
| `Reasons.AttributedExactly` | internal/cluster/statesync.go:48-65 | Attributing a bare reason gives one that cannot be split if and only if neither reason nor source brings a separator along. |
| `Reasons.BaseExactly` | internal/cluster/statesync.go:99-104 | The base of a reason is what stands in front of its first source, and all of it if there is none. |
| `Reasons.MergeWithItself` | internal/cluster/statesync.go:70-104 | Merging a reason with itself changes nothing if and only if it does not begin with white space. |
| `ClusterMerge.Collect` | internal/cluster/syncloop.go:223-349 | The loops over nodes and their states give, for every address, the fold of exactly the states that count, in merge order, and the list of failed nodes. |
| `ClusterMerge.MergedExactly` | internal/cluster/syncloop.go:223-349 | The merge holds an address if and only if the own state takes part, which for the cache means unblocked or not expired, or another node that answered has a state for it, for the cache one that has not expired. |
| `ClusterMerge.CacheHasNotExpired` | internal/cluster/syncloop.go:223-349 | What the cache hands out has not expired, except for addresses this very node has unblocked. |
| `ClusterMerge.FailedExactly` | internal/cluster/syncloop.go:262-284 | A name is reported as failed if and only if another node of that name could not be queried. |
| `ClusterMerge.FoldTakesLatest` | internal/server/handlers_statesync.go:494-508 | Expiry and modification time are the greatest among the contributions. |
| `ClusterMerge.FoldTakesStateOfLongest` | internal/server/handlers_statesync.go:500-507 | State is that of the first contribution with the longest expiry. |
| `ClusterMerge.FoldTakesFirstBlock` | internal/cluster/syncloop.go:599-610 | In the cached merge the first block is the least time that is not zero. |
| `ClusterMerge.RequestForgetsFirstBlock` | internal/server/handlers_statesync.go:494-508 | The merge on request gives the first block of the cached merge if and only if there is one contribution or none knows a first block. |
| `ClusterMerge.MergedReasonsOfCluster` | internal/server/handlers_statesync.go:408-515 | From the nodes' reasons to the response: the merged reason splits back into one attributed reason per base, in merge order. |
| `ClusterMerge.TimesIgnoreOrder` | internal/cluster/syncloop.go:286-314 | Both times, and the cached first block, do not depend on the order of the contributions. |
| `ClusterMerge.StateIgnoresOrderExactly` | internal/cluster/syncloop.go:301-307 | The state does not depend on that order if and only if all contributions with the longest expiry agree on it. |
| `ClusterMerge.ContributionsIgnoreOrder` | internal/cluster/syncloop.go:262-314 | Permuted nodes give permuted contributions. |
| `ClusterMerge.MergeIgnoresNodeOrder` | internal/cluster/syncloop.go:262-314 | Two merges that differ in the order of the nodes hold the same addresses with the same times, and the same state unless a tie decides it. |
| `FollowerSync.FollowerTables.ApplyStates` | internal/cluster/syncloop.go:394-461 | The batched loop leaves the specified rows for every batch size and every order of visits, and adds exactly the reasons of the applied states. |
| `FollowerSync.AppliedFields` | internal/cluster/syncloop.go:409-461 | For every row, field by field: a live state of the leader replaces state and reason, each time becomes the later of stored and received, and all other rows stay as they were. |
| `FollowerSync.AppliedAllFields` | internal/cluster/syncloop.go:409-461 | Over any sequence of responses, state and reason of a row are those of the last response that had the address live, and each time is the greatest of the stored one and all those received. |
| `FollowerSync.ApplyingTwiceIsOnce` | internal/cluster/syncloop.go:409-443 | Applying a response twice leaves the rows of applying it once. |
| `FollowerSync.TimesNeverGoBackInRun` | internal/cluster/syncloop.go:409-443 | Over any sequence of responses no row disappears and neither time of a row decreases. |
| `FollowerSync.FirstBlockKept` | internal/cluster/syncloop.go:415-420 | The upsert keeps the earliest first block if and only if the leader does not report none for a row that has one. |
| `FollowerSync.SharedBlockLosesItsStart` | internal/cluster/syncloop.go:394-461 | Hence every shared address served by the merge on request loses its first block on the follower. |
| `Database.CleanupBatch` | internal/persistence/sqlite.go:1090-1105 | The repeated bounded deletion ends and has removed exactly the matching rows, counting them. |
| `Database.StateDB.BlockIPBatch` | internal/persistence/sqlite.go:1029-1087 | One block writes event, state and score as specified and answers the new score. |
| `Database.StateDB.UpsertIPState` | internal/persistence/sqlite.go:860-883 | Insert or update of the row, keeping the earlier first block. |
| `Database.StateDB.Execute` | internal/checker/checker.go:379-435 | A completed block chain in the database, with the promotion at the threshold. |
| `Database.StateDB.ApplyBadActorFromPeer` | internal/app/providers.go:586-619 | A peer's bad actor is recorded and blocked unless it is known. |
| `Database.StateDB.RemoveBadActorsByReason` | internal/persistence/sqlite.go:751-792 | Exactly the bad actors whose history matches lose their record and score. |
| `Database.StateDB.RemoveAllBadActors` | internal/persistence/sqlite.go:799-826 | Both tables are emptied and the removed addresses listed. |
| `Database.StateDB.RemoveFromPersistence` | internal/app/providers.go:387-417 | Clearing an address removes its record, score and row and logs an event only if there was a row. |
| `Database.StateDB.RunCleanup` | cmd/bot-detector/main.go:894-940 | The stages in their order leave the specified tables. |
| `Cleanup.RowsAfterCleanup` | cmd/bot-detector/main.go:894-940 | Exactly the unexpired blocks and young unblocked rows survive, each row and event keeps its reason text, and the reasons are exactly the referenced ones. |
| `Cleanup.ActorsAfterCleanup` | cmd/bot-detector/main.go:918-940 | A bad actor survives exactly while its block is unexpired, every bad actor has a blocked row, and scores exist only for known addresses that are not bad actors. |
| `Cleanup.ReasonsBeforeEventsLeaveOrphans` | cmd/bot-detector/main.go:908-917 | With reasons cleaned before events, a reason remains unreferenced if and only if only events that are deleted next refer to it: when the order matters, for every database. |
| `Cleanup.EventsBeforeReasonsLeaveNone` | cmd/bot-detector/main.go:908-917 | In the order of the program none remains. |
| `Cleanup.ReasonIsKept` | internal/persistence/sqlite.go:840-883 | With an injective hash, a written row's reason reads as the text it was written with. |
| `Cleanup.BlockKeepsSound` | internal/checker/checker.go:379-435 | A block with or without promotion keeps every reference to a reason stored. |
| `Cleanup.ForgetKeepsSound` | internal/app/providers.go:387-417 | So does clearing an address. |
| `Cleanup.PeerKeepsSound` | internal/app/providers.go:586-619 | So does a peer's bad actor. |
| `Scores.RunsAreSound` | internal/persistence/sqlite.go:850-883 | Over any run of blocks, peers, removals, unblocks and every single stage of the clean-up, in any interleaving, every reference to a reason stays stored. |
| `Scores.LocalPromotionsAreEarned` | internal/checker/checker.go:379-435 | Over any run, every bad actor whose current row no peer wrote records a score that reached the threshold. |
| `Scores.ScoresAreTallies` | internal/persistence/sqlite.go:1029-1087 | Over any run, each score row is the sum and count of the positive weights since it was last deleted, and a row exists exactly if something counts. |
| `Scores.RunPromotes` | internal/checker/checker.go:379-435 | Over any run without stale-actor clean-ups, every address at the threshold is a bad actor, and every row no peer wrote records a score that reached it. |
| `Scores.StaleActorsBreakPromotion` | internal/persistence/sqlite.go:1108-1115 | That clean-up keeps the promise if and only if every address at the threshold still has a blocked row. |
| `Scores.UnblockedActorIsLost` | internal/persistence/sqlite.go:1108-1151 | An address at the threshold that is unblocked, as a good actor or after a new configuration, loses its promotion and keeps its score at the next such clean-up. |
| `TableRuns.BlockWrites` | internal/checker/checker.go:379-435 | A block leaves a blocked row under its reason for its duration, or the bad actor's if it promotes, adds exactly one block event with address, reason and duration, and changes no other row. |
| `TableRuns.RowsAreLastWrites` | internal/persistence/sqlite.go:860-1105 | Over any run, every row is that of the last step that wrote it, derived from the steps alone, and there is none if it was cleared or cleaned up since. |
| `TableRuns.RowsReadAsWritten` | internal/persistence/sqlite.go:840-883 | With an injective hash its reason reads as it was written. |
| `TableRuns.BlockLasts` | internal/persistence/sqlite.go:1029-1087 | An address stays blocked in the tables from a block on until it is unblocked or cleared, or cleaned up after its expiry. |
| `TableRuns.EventsAreWritten` | internal/persistence/sqlite.go:1000-1024 | Over any run, the stored events are exactly those the steps wrote and no clean-up took, each under its number. |
| `TableRuns.ActorsAreWritten` | internal/checker/checker.go:402-425 | Over any run, the bad actors are exactly those promoted here, with the tally and the time of their promotion, or reported by a peer, and not removed since. |
| `TableRuns.ScoreTimes` | internal/persistence/sqlite.go:1065-1087 | A score row shows when its last weight was counted. |
| `BackendComparison.CompareHAProxyBackends` | internal/blocker/haproxy.go:778-1110 | Fewer than two addresses or a failed fetch is an error; otherwise the report holds exactly the discrepancies, each once. |
| `BackendComparison.Compare` | internal/blocker/haproxy.go:878-1108 | For every table and address, presence mismatches and mismatches with the first holder are reported, all of them and nothing else. |
| `BackendComparison.CollectUnique` | internal/blocker/haproxy.go:882-912 | The collected tables and addresses are exactly those present on some backend. |
| `BackendComparison.CleanMeansAgreement` | internal/blocker/haproxy.go:928-1108 | Every entry present anywhere is everywhere, with the first backend's counter and an expiry within tolerance of it, if and only if nothing is reported and no expiry distance is beyond what a Duration can hold. |
| `BackendComparison.ToleranceIsExact` | internal/blocker/haproxy.go:1058-1066 | Two expiries are compared rightly at every tolerance if and only if their distance fits a Duration; beyond that the conversion wraps around. |
| `BackendComparison.ReportIsExact` | internal/blocker/haproxy.go:1006-1108 | The report is right at every tolerance if and only if no distance wraps around or the backends differ in presence or counter anyway. |
| `BackendComparison.CleanBoundsAnyTwo` | internal/blocker/haproxy.go:1014-1108 | A clean report, with comparable expiry distances, bounds any two backends' expiries by twice the tolerance. |
| `BackendComparison.TwiceTheToleranceIsReached` | internal/blocker/haproxy.go:1014-1108 | Three backends reach that bound at every tolerance in milliseconds. |
| `BackendComparison.PairwiseAgreementIsClean` | internal/blocker/haproxy.go:1014-1108 | Pairwise agreement within the tolerance gives a clean report. |
| `Durations.FormatDuration` | internal/utils/duration.go:25-50 | The loop over units prints the specified text. |
| `Durations.WeekAndDayHours` | internal/utils/duration.go:63-87 | The loop over matches adds up their hours, and fails exactly when weeks follow days. |
| `Durations.ParseDuration` | internal/utils/duration.go:55-100 | The parser answers as specified on every string, errors included. |
| `DurationRoundTrip.RoundTripExactly` | internal/utils/duration.go:25-100 | Parsing a printed duration gives it back if and only if it is not negative. |
| `DurationRoundTrip.PrintedOnce` | internal/utils/duration.go:25-50 | Different durations print differently. |
| `DurationRoundTrip.DaysMayComeLast` | internal/utils/duration.go:52-87 | Weeks or days behind smaller units parse like those in front: the order is enforced only between weeks and days. |
| `DurationRoundTrip.FractionIsRead` | internal/utils/duration.go:63-87 | A number with a point is the number without it, divided by ten to the digits behind it. |
| `DurationRoundTrip.FractionParses` | internal/utils/duration.go:55-100 | A fraction of days or weeks that comes to whole hours is parsed as those hours. |
| `DurationRoundTrip.FractionTerm` | internal/utils/duration.go:88-100 | Digits with a point in front of a smaller unit are that many units, cut off at whole nanoseconds. |
| `DurationRoundTrip.RoundIsNearest` | internal/utils/duration.go:88-100 | Printing the hours to six places rounds to the nearest millionth, a tie to the even one. |
| `DurationRoundTrip.SixDigitsRead` | internal/utils/duration.go:88-100 | The six places hold the millionths they are printed from. |
| `WebsiteTailers.UpdateExactly` | internal/processor/multi_website_manager.go:122-159 | An update panics if and only if a tailer that has to go was stopped before; otherwise the map holds exactly the configured names, unchanged websites are kept and the others are new. |
| `WebsiteTailers.UpdatedPaths` | internal/processor/multi_website_manager.go:122-159 | After an update every name reads its configured path, the last one if a name is repeated. |
| `WebsiteTailers.UniqueNamesUpdate` | internal/processor/multi_website_manager.go:122-159 | With unique names, after an update exactly the configured websites are tailed, each at its own path. |
| `WebsiteTailers.StartedMeans` | internal/processor/multi_website_manager.go:54-77 | Starting keeps what runs and adds the new names, the first entry of a name counting. |
| `WebsiteTailers.RunsStayLive` | internal/processor/multi_website_manager.go:54-159 | Over any run of starts and updates no stop channel is closed twice. |
| `WebsiteTailers.StopLastIsSafe` | internal/processor/multi_website_manager.go:168-175 | A stop at the end of such a run closes every channel, each for the first time. |
| `WebsiteTailers.AfterStop` | internal/processor/multi_website_manager.go:122-175 | After a stop the next operation panics if and only if it stops a tailer again: a second stop with any tailer left, an update that does not keep all. |
| `WebsiteTailers.Manager.Start` | internal/processor/multi_website_manager.go:54-61 | In place: the specified map, running tailers keep their objects. |
| `WebsiteTailers.Manager.UpdateWebsites` | internal/processor/multi_website_manager.go:122-159 | In place: unchanged websites keep the same tailer object; every other former tailer is closed and gone from the map; the rest are new objects. |
| `WebsiteTailers.Manager.Stop` | internal/processor/multi_website_manager.go:168-175 | In place: every channel is closed, or the loop panics at one that was closed before. |

## Left out

- Metrics, logging, top lists and dry-run output change no decision and are not modelled.
- Commands to HAProxy and Redis, the challenge action and the rate limiter: `executeBlock` appears with its database part only.
- In `JointRuns` the database is written by the checker, peers, the API and the clean-up; restoring, importing and the follower's updates are not steps of it.
- The block history stored with a bad actor is a given string, in `JointRuns` a function of the tables; its JSON form and the query behind it are not modelled.
- Regular expressions, prefix syntax and path joining are uninterpreted functions of `Env`; parsing of log lines, YAML, tar and JSON is replaced by the parsed data.
- Status, checksum and reload time of watched files: `fileDependencies` keeps path and lines only.
- Configuration reload in the middle of a chain's progress, which can leave progress beyond a shortened chain.
- The order of entries with equal timestamps after a worker tick: the sort there is not stable and the model allows any order; insertion is proved to keep it.
- Failing SQL statements, whose errors the program ignores or logs.
- Fetching node states over HTTP, compression and the response cache; `fetchNodeState` drops state and first block, so the cached merge is stated on the maps it is given.
- Floating point rounding in scores, in fractional weeks and days and in fractions of the library's own units, which are real numbers here; sign and bare zero of `time.ParseDuration`, which the caller never produces.
- The goroutine of a tailer, its `Running` flag, its done channel and the global stop signal: a tailer is what its map entry and its stop channel say.
- Restoring state at start-up, archives, the HTTP API beyond the operations named, the command line tools.
- Checker.Processor.CheckChains: of the unblock a good actor triggers the class keeps the trace in the store; its database writes are part of `JointRuns`, the command to HAProxy is not modelled.
- Durations.ParseDuration: numbers are exact where the program rounds in float64: fractional weeks and days, and fractions of the library's own units.
- ConfigCompiler.LoadMatcher: takes a ranking of the includes the scan missed, which is empty where trimming changes no path; without one the compiler's recursion has no bound (`MainValueIsRanked`), and the method says nothing.
- ConfigCompiler.LoadAndAnswer: the same.
- ClusterMerge.MergedReasonsOfCluster: assumes reasons that are attributed or free of separators, since merging inspects only the first base of a joined reason.
