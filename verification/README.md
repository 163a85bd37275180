# Proofs about the T3 Code protocol, editor and tooling logic

This project models the parts of T3 Code that carry real invariants and proves what they promise.
Each module follows one component. Code that changes state step by step is a class or a method with
loops, proved against a specification function; the theorems are about those functions and about
whole runs.

- **Event delivery and recovery** (`EventBuffer`, `Recovery`, `RecoveryRuns`, `ReplayRetry`,
  `LiveClient`, `LiveRequests`). The server merges a replayed log with a live stream through a reorder buffer; the
  client classifies what it hears, and recovers by snapshot and by bounded replay.
- **Keybindings** (`WhenLanguage`, `WhenParser`, `WhenText`, `WhenMeaning`, `Shortcut`, `ShortcutMeaning`,
  `KeybindingRules`, `KeybindingStore`, `RuleMeaning`, `KeybindingDefaults`, `Dispatch`, `DefaultDispatch`). The `when` language with its two nesting limits, the shortcut syntax,
  compiling rules, the rules on disk with their cache, and the two backward scans that display and
  dispatch shortcuts.
- **Composer** (`ComposerSegments`, `ComposerCursor`). Splitting a prompt into text, mentions and
  terminal contexts, and the maps between collapsed and expanded cursor positions.
- **Codex session** (`CodexSession`, `CodexManager`, `CodexRuns`, `CodexHistory`). Request correlation, approvals,
  user questions and child conversations over JSON-RPC; ids and the error code follow sections 5 and
  5.1 of the JSON-RPC 2.0 specification.
- **Startup gate** (`CommandGate`, `GateResults`). A state machine over the atomic steps of callers, worker,
  signal and fail.
- **macOS update manifests** (`ManifestText`, `ManifestLines`, `Manifest`, `ManifestReading`,
  `ManifestRoundTrip`, `ManifestMerge`).
- **Session derivations** (`WorkLog`, `WorkLogFields`, `RunningTurn`), **draft store** (`DraftStore`,
  `DraftRuns`, `DraftFields`), **upstream sync** (`UpstreamSync`, `SyncRounds`, `SyncCategories`) and
  **transcript packing** (`Transcript`, `TranscriptText`).
- `Text` and `Decimal` hold the string and number facts the others share.

What the proofs found:

- Back-to-back live events make an idle client ask for a replay, because the frontier moves only when
  the batch is flushed (`LiveClient.BackToBackEventsForceRecovery`).
- The store is complete because a snapshot has everything that the client had heard of when it asked
  (`LiveClient.FreshSnapshotsKeepStoreComplete`). The server keeps that by publishing events after storing
  them; without it a later event or replay would not bring back what a stale snapshot took away
  (`LiveClient.StaleSnapshotHidesEvent`; `LiveClient.StoreIsCompleteIff` is the exact condition).
- The printed form of a condition can nest deeper, and be longer, than conditions may be
  (`WhenText.LongChainsDoNotReparse`, `KeybindingRules.NotsOutgrowTheLimit`,
  `KeybindingRules.LongConditionCannotBeEncoded`), so the codec between rules and compiled rules is no
  round trip under the limits of the source; `KeybindingRules.CodecRoundTripsIff` says for which it is.
  No rule is lost by this: the server stores the text of a rule, which loads as it was
  (`KeybindingRules.ReadRuleIsStable`, `KeybindingStore.StoredRulesLoad`).
- After an upsert of a rule that does not compile the server reports no issue until it reads the file
  again (`KeybindingStore.UpsertCacheMeetsDiskIff`), and a full list of rules may lose one at each of two
  startups (`KeybindingStore.FullListLosesRules`; `KeybindingStore.SyncIsIdempotentIff` is the exact
  condition).
- A key press with a physical-key alias other than what was typed can run another command than the one
  displayed (`Dispatch.TwoKeysBreakTheLaw`); `Dispatch.DisplayLawIff` says that these are exactly the
  presses for which display and dispatch can differ.
- Of the gate alone: a failure announced after it opened turns newcomers away but does not stop the queue
  (`CommandGate.LateFailureSplitsCallers`); `CommandGate.QueueIsSilentIff` says when it does. The startup
  code announces only one of the two.
- A version written between quotes, such as `'true'`, prints as one that the parser rejects
  (`ManifestRoundTrip.QuotedVersionIsLost`; `ManifestRoundTrip.PrintRejectedIff` is the exact condition).
- Merging manifests is not associative for an extra named like a property every object inherits
  (`ManifestMerge.InheritedNameBreaksAssociativity`; `ManifestMerge.MergeAssociatesIff` is the exact
  condition).
- A completion date that is not a date sets no deadline: such a turn can run for good
  (`RunningTurn.UndatedCompletionRunsIff`; `RunningTurn.StopsIff` says which turns stop).
- A request whose write fails stays pending although its promise is settled, and nothing later repairs
  that (`CodexRuns.RequestsStayCorrelatedIff`).
- Moving a draft thread to a project that has one strands the other
  (`DraftRuns.MovingADraftMayStrandAnother`).
- A path listed twice in the upstream manifest lets an update overwrite a local edit
  (`SyncRounds.RepeatedPathLosesEdit`; `SyncRounds.CompletedRunSparesDriftIff` says from the summary
  when no edit is lost).
- Transcript packing can include nothing although the whole transcript fits
  (`Transcript.GreedyMissesTheWhole`).

## Model

| member | source | states |
|---|---|---|
| `EventBuffer.Drain` | apps/server/src/ws.ts:588-599 | the drain loop ends, takes out exactly the contiguous block of waiting events and leaves the rest waiting |
| `EventBuffer.SequenceBuffer.Accept` | apps/server/src/ws.ts:573-604 | filing one arrival emits exactly what it adds to the total output, whatever came before |
| `EventBuffer.Relay` | apps/server/src/ws.ts:563-606 | for any merge order of replay and live events, the stream delivered is the events from+1 up to the first number that never arrived, ascending, each once |
| `EventBuffer.OutputGrows` | apps/server/src/ws.ts:573-604 | one more arrival only appends to what was delivered |
| `EventBuffer.OutputDependsOnlyOnArrivedSet` | apps/server/src/ws.ts:568-604 | two arrival sequences over one log with the same set of numbers deliver the same stream, whatever the order and the duplicates |
| `EventBuffer.DeliveredIffCovered` | apps/server/src/ws.ts:556-604 | an event is delivered if and only if it and every earlier one above the start arrived; a hole withholds everything after it |
| `Recovery.Coordinator.ClassifyDomainEvent` | apps/web/src/orchestrationRecovery.ts:124-138 | the answer and the whole new state of classifying a sequence number |
| `Recovery.Coordinator.MarkEventBatchApplied` | apps/web/src/orchestrationRecovery.ts:140-151 | the events handed on are the newer ones in ascending order, and the frontiers move accordingly |
| `Recovery.Coordinator.BeginSnapshotRecovery` | apps/web/src/orchestrationRecovery.ts:153-164 | a snapshot begins unless something is in flight, else the replay is remembered |
| `Recovery.Coordinator.CompleteSnapshotRecovery` | apps/web/src/orchestrationRecovery.ts:166-172 | the whole new state and the replay answer |
| `Recovery.Coordinator.FailSnapshotRecovery` | apps/web/src/orchestrationRecovery.ts:174-176 | a failed snapshot only clears what is in flight |
| `Recovery.Coordinator.BeginReplayRecovery` | apps/web/src/orchestrationRecovery.ts:178-191 | a replay begins only when bootstrapped and idle, and forgets what it will cover |
| `Recovery.Coordinator.CompleteReplayRecovery` | apps/web/src/orchestrationRecovery.ts:193-203 | progress is judged against the frontier at the start of the replay |
| `Recovery.Coordinator.FailReplayRecovery` | apps/web/src/orchestrationRecovery.ts:205-209 | a failed replay drops the bootstrap |
| `Recovery.InsertIsPermutation` | apps/web/src/orchestrationRecovery.ts:140-144 | sorting a batch keeps the events and their number |
| `RecoveryRuns.MarkTakesMaximum` | apps/web/src/orchestrationRecovery.ts:140-151 | marking a batch moves the frontier to the largest sequence in it and never back |
| `RecoveryRuns.BatchInOrder` | apps/web/src/orchestrationRecovery.ts:140-151 | marking hands on every event beyond the frontier, as often as it came and no other, ascending, and events of one number in the order in which they came |
| `RecoveryRuns.FrontiersAreMaxima` | apps/web/src/orchestrationRecovery.ts:103-209 | over every run latestSequence is the maximum ever applied and highestObservedSequence the maximum ever seen, and the first never exceeds the second |
| `RecoveryRuns.FrontiersNeverRegress` | apps/web/src/orchestrationRecovery.ts:103-209 | no step of any run moves either frontier back |
| `RecoveryRuns.NoReplayMeansCaughtUp` | apps/web/src/orchestrationRecovery.ts:107-117 | when a completion reports no replay needed, every sequence mentioned anywhere in the run is at most latestSequence |
| `RecoveryRuns.PendingMeansTurnedAway` | apps/web/src/orchestrationRecovery.ts:107-191 | pendingReplay holds exactly when something was turned away since the last reset |
| `RecoveryRuns.ReplayNeededIff` | apps/web/src/orchestrationRecovery.ts:107-117 | a snapshot or replay completion asks for a replay if and only if something was turned away since the last reset or lies beyond everything applied, the snapshot that just arrived included |
| `RecoveryRuns.ModesByHistory` | apps/web/src/orchestrationRecovery.ts:124-209 | over every run, bootstrapped exactly while a snapshot has arrived and no replay has failed since, and in flight is what was begun while nothing was out |
| `ReplayRetry.BudgetDrops` | apps/web/src/orchestrationRecovery.ts:39-86 | every granted retry lowers a lexicographic budget: distance of the frontiers to the bound, then attempts left |
| `ReplayRetry.RoundAdvances` | apps/web/src/routes/__root.tsx:484-510 | a replay round never loses ground, whatever is called before it and turned away while it is out, and reported progress means a strictly later frontier |
| `ReplayRetry.CompletionIff` | apps/web/src/orchestrationRecovery.ts:178-203 | over every run, a replay reports progress if and only if a batch marked while it was out has an event beyond the frontier it began at, and a need if and only if something was turned away since it began or observed and not applied |
| `ReplayRetry.ProgressIsRetriedAtOnce` | apps/web/src/orchestrationRecovery.ts:46-61 | a round that made progress and still has a need is retried without delay and with all retries left |
| `ReplayRetry.AttemptsCount` | apps/web/src/orchestrationRecovery.ts:39-86 | attempts are counted at the very same pair of frontiers and start over at any other; the end of a chain forgets them |
| `ReplayRetry.RetryChainsAreFinite` | apps/web/src/routes/__root.tsx:484-533 | with observed sequences bounded, replay completions in a row that are all answered with retry are finitely many, with an explicit bound, whoever began the rounds and whatever snapshots come in between |
| `ReplayRetry.StuckRetriesAreBounded` | apps/web/src/orchestrationRecovery.ts:62-86 | a chain of rounds that end at the frontier they began at is no longer than the retries left, its delays double and add up to base * (2^(a+n) - 2^a), and a further one is retried if and only if a retry is left |
| `LiveClient.CoverageIsExact` | apps/web/src/routes/__root.tsx:410-600 | over every run of live traffic, flushes, recoveries and failures, snapshots and applied events cover exactly 1 to latestSequence |
| `LiveClient.StoreIsCompleteIff` | apps/web/src/routes/__root.tsx:543-570 | over every run, what the store shows is exactly 1 to latestSequence if and only if the last snapshot to arrive was not behind the frontier |
| `LiveClient.StoreLacksExactlyTheLost` | apps/web/src/routes/__root.tsx:410-600 | over every run, the store lacks exactly the events between the last snapshot and the frontier that it arrived at |
| `LiveClient.FreshSnapshotsKeepStoreComplete` | apps/server/src/orchestration/Layers/OrchestrationEngine.ts:142-189 | over every run in which each snapshot has what the client had heard of when it asked, the store is exactly 1 to latestSequence |
| `LiveClient.StaleSnapshotHidesEvent` | apps/web/src/routes/__root.tsx:465-570 | what happens without that guarantee: an older reply takes a flushed event away |
| `LiveClient.BatchAppliedOnceIff` | apps/web/src/orchestrationRecovery.ts:140-151 | a batch is handed on without repeats if and only if its part above the frontier has none |
| `LiveClient.AppliedAtMostOnceIff` | apps/web/src/routes/__root.tsx:410-600 | over every run, the store receives each event at most once and in log order if and only if no batch repeats an event that is still beyond the frontier |
| `LiveClient.AppliedAtMostOnceInOrder` | apps/web/src/routes/__root.tsx:410-600 | so it does over every run in which no live event repeats before its flush |
| `LiveClient.OrderedStreamNeverForcesRecovery` | apps/web/src/orchestrationRecovery.ts:124-151 | an idle client at or past the start of a consecutive stream only ignores or applies, and ends at the last event |
| `LiveClient.BufferFeedsLiveClient` | apps/server/src/ws.ts:573-604 | end to end: fed by the server buffer under any arrival order, an idle client that marks at once never answers recover and ends just before the frontier |
| `LiveClient.NeverRecoversIff` | apps/web/src/routes/__root.tsx:465-589 | an idle client that hears a stream in order, with repeats and flushes mixed in, never answers recover if and only if no two new events come without a flush in between; then a flush completes the stream |
| `LiveClient.BackToBackEventsForceRecovery` | apps/web/src/routes/__root.tsx:573-589 | two consecutive events force a recovery when no flush comes in between |
| `LiveRequests.BatchWaits` | apps/web/src/routes/__root.tsx:410-589 | in every reachable state, the waiting events are those that came next since the last flush, and the frontier moves only by a flush or a reply, to the last event it brings |
| `LiveRequests.IdleAsks` | apps/web/src/routes/__root.tsx:484-589 | with nothing out, the request that each input makes, and the frontier that a replay is asked from |
| `LiveRequests.BusyAsks` | apps/web/src/routes/__root.tsx:484-570 | with a request out, only its own end changes it: a snapshot is followed by a replay if and only if something was turned away or lies beyond, a failed replay by a snapshot |
| `LiveRequests.ModeFollows` | apps/web/src/routes/__root.tsx:484-589 | a snapshot bootstraps the client until a replay fails; that something was turned away is remembered until the next replay begins or the next reply comes |
| `WhenParser.Parser.Primary` | apps/server/src/keybindings.ts:202-226 | the recursive-descent primary agrees with the parsing function, including where it leaves the index |
| `WhenParser.Parser.Unary` | apps/server/src/keybindings.ts:228-247 | the run of `!` is counted, limited and wrapped inside out |
| `WhenParser.Parser.And` | apps/server/src/keybindings.ts:249-261 | the `&&` loop builds the left-associative tree |
| `WhenParser.Parser.Or` | apps/server/src/keybindings.ts:263-275 | the `or` loop builds the left-associative tree |
| `WhenParser.ParseAll` | apps/server/src/keybindings.ts:197-280 | parsing terminates and succeeds only by consuming all tokens |
| `WhenParser.ParserMeetsGrammar` | apps/server/src/keybindings.ts:197-280 | a token list is accepted as a tree if and only if all of it is a phrase of the grammar, within both limits, denoting that tree |
| `WhenText.Tokenize` | apps/server/src/keybindings.ts:148-195 | the tokenizer loop returns the specified token list or rejects |
| `WhenText.ParseKeybindingWhenExpression` | apps/server/src/keybindings.ts:197-280 | the text parser is the tokenizer followed by the parser |
| `WhenText.LexPrinted` | apps/server/src/keybindings.ts:148-195 | tokenizing printed text followed by anything gives the phrase's tokens followed by the rest |
| `WhenText.NameParsesIff` | apps/server/src/keybindings.ts:148-195 | a text alone is a condition that is a name if and only if it starts with a letter or underscore and continues with letters, digits, underscores, dots and hyphens |
| `WhenText.PrintThenParse` | apps/server/src/keybindings.ts:394-405 | for valid names, printing and parsing returns the tree if and only if its printed nesting is within the limit, and nothing otherwise |
| `WhenText.ReparsesIff` | apps/server/src/keybindings.ts:197-280 | a parsed clause parses again from its printed form exactly when it prints within the limit |
| `WhenText.LongChainsDoNotReparse` | apps/server/src/keybindings.ts:249-261 | a flat chain always parses; its printed form does if and only if it is no longer than the limit |
| `Shortcut.ParseKeybindingShortcut` | apps/server/src/keybindings.ts:84-146 | the token loop returns the specified shortcut or rejects |
| `Shortcut.EncodeShortcut` | apps/server/src/keybindings.ts:381-392 | modifiers in fixed order, then the key; empty keys and keys that contain a plus sign are refused |
| `Shortcut.ParsedKeyIsCanonical` | apps/server/src/keybindings.ts:77-146 | a parsed key is space, plus, or a trimmed lower-case word that is no modifier, alias or empty |
| `Shortcut.RoundTripIff` | apps/server/src/keybindings.ts:381-392 | a shortcut is written and read back unchanged if and only if its key is canonical |
| `Shortcut.ParsedShortcutReparses` | apps/server/src/keybindings.ts:84-146 | everything the parser returns can be written, and the writing parses back to it |
| `ShortcutMeaning.WrittenShortcutMeans` | apps/server/src/keybindings.ts:77-146 | words joined by plus signs mean the modifiers they name, each alias included, and the key named once; two keys or none are refused |
| `KeybindingRules.CompileResolvedKeybindingRule` | apps/server/src/keybindings.ts:283-301 | a rule compiles when its key and its condition do |
| `KeybindingRules.CompileResolvedKeybindingsConfig` | apps/server/src/keybindings.ts:303-314 | the loop keeps the compiled form of exactly the rules that decode, in order |
| `RuleMeaning.AdmittedIff` | packages/contracts/src/keybindings.ts:92-111 | a condition is admitted if and only if none of its names is empty |
| `RuleMeaning.RuleDecodesIff` | packages/contracts/src/keybindings.ts:58-124 | a rule decodes to a command, a shortcut and a condition if and only if its texts, within the limits once the space around them is dropped, stand for these and the key is within its limit |
| `KeybindingRules.CompiledRuleRewrites` | apps/server/src/keybindings.ts:317-405 | a compiled rule writes to trimmed non-empty texts, which compile back to it if and only if its condition prints within the depth limit |
| `KeybindingRules.ReadRuleIsStable` | packages/contracts/src/keybindings.ts:58-71 | a rule read from its entry reads as itself and decodes as the entry does, for all limits |
| `KeybindingRules.EncodedRuleDecodesIff` | apps/server/src/keybindings.ts:316-352 | a decoded rule can be encoded if and only if its written key and condition are within their length limits, and the encoding decodes as the same rule if and only if the condition also prints within the depth limit |
| `KeybindingRules.CodecRoundTripsIff` | apps/server/src/keybindings.ts:316-352 | every encoding of a decoded rule decodes as that rule if and only if the length limit of conditions is less than three times the depth limit plus four |
| `KeybindingRules.NotsOutgrowTheLimit` | apps/server/src/keybindings.ts:228-405 | the failing rules of the codec: as many negations as allowed before a group are encoded one level deeper than may be decoded |
| `KeybindingRules.SourceLimitsBreakRoundTrip` | packages/contracts/src/keybindings.ts:4-6 | with the limits 64, 256 and 64 some encoding of a decoded rule does not decode |
| `KeybindingRules.LongConditionCannotBeEncoded` | packages/contracts/src/keybindings.ts:58-71 | chains short enough to be decoded and too long to be encoded |
| `KeybindingStore.LoadRuntimeCustomKeybindingsConfig` | apps/server/src/keybindings.ts:610-663 | the loop returns the specified rules and issues |
| `KeybindingStore.Keybindings.LoadConfigState` | apps/server/src/keybindings.ts:685-701 | the cache is filled from the file when it is empty |
| `KeybindingStore.Keybindings.UpsertKeybindingRule` | apps/server/src/keybindings.ts:872-903 | the file and the cache after an upsert, or the refusal of a file that is no list |
| `KeybindingStore.Keybindings.SyncDefaultKeybindingsOnStartup` | apps/server/src/keybindings.ts:711-799 | the loop over the defaults and the file afterwards |
| `KeybindingStore.StoredRulesLoad` | apps/server/src/keybindings.ts:610-683 | rules that were loaded, once written, load as the same rules without issues |
| `RuleMeaning.RefusedIff` | apps/server/src/keybindings.ts:632-660 | the issues are exactly the positions of the entries that are not taken |
| `RuleMeaning.OneEntryLoads` | apps/server/src/keybindings.ts:632-660 | an entry loads if and only if it is a rule that decodes, as that rule without the space around its texts |
| `RuleMeaning.LoadedAppend` | apps/server/src/keybindings.ts:632-660 | loading takes each entry on its own and keeps their order |
| `KeybindingStore.UpsertCacheMeetsDiskIff` | apps/server/src/keybindings.ts:872-903 | the keybindings cached by an upsert are those the written file loads as; the issues are if and only if the rule compiles |
| `KeybindingStore.KeybindingsMeetDisk` | apps/server/src/keybindings.ts:685-903 | over every run of reads, upserts, syncs and noticed edits, the keybindings in use are those the file loads as |
| `KeybindingStore.CacheByHistory` | apps/server/src/keybindings.ts:685-903 | over every run, the cache is emptied by a sync only, and the issues reported are those of the file, but none after an upsert until the next edit or sync |
| `KeybindingStore.UpsertTakesEffect` | apps/server/src/keybindings.ts:872-903 | end to end: an upserted rule has the only binding of its command, is displayed where its condition holds, and there every matching key press runs it |
| `KeybindingStore.UpsertKeepsOthers` | apps/server/src/keybindings.ts:872-886 | within the count limit an upsert keeps the rules of every other command, in order |
| `KeybindingStore.MergeKeeps` | apps/server/src/keybindings.ts:451-468 | within the count limit a command is bound by the user's rules, if any, and by its defaults otherwise |
| `KeybindingStore.CustomWins` | apps/server/src/keybindings.ts:451-468 | a key press that a rule of the user answers is answered by the user's rules alone |
| `RuleMeaning.SameContextIff` | apps/server/src/keybindings.ts:366-379 | two rules in use have the same context if and only if they have the same shortcut and the same condition text |
| `RuleMeaning.CoveredIff` | apps/server/src/keybindings.ts:733-758 | a default is covered if and only if a rule in use has its command, or its shortcut and its condition |
| `RuleMeaning.MissingAppend` | apps/server/src/keybindings.ts:733-758 | the missing defaults are found one by one and keep their order |
| `KeybindingStore.SyncIsIdempotentIff` | apps/server/src/keybindings.ts:711-799 | a second startup sync changes nothing if and only if the rules the first one left cover every default |
| `KeybindingStore.SyncCoversDefaults` | apps/server/src/keybindings.ts:711-799 | within the count limit, a sync leaves every default covered and is idempotent |
| `KeybindingDefaults.SourceSettingsAreValid` | apps/server/src/keybindings.ts:58-74 | the defaults of the source load as themselves under its limits, so the results above hold of them |
| `KeybindingStore.FullListLosesRules` | apps/server/src/keybindings.ts:784-796 | the failing case: in a full list two startups in a row each drop a rule |
| `Dispatch.ResolveShortcutCommand` | apps/web/src/keybindings.ts:183-199 | the backward scan returns the command of the last active binding that matches |
| `Dispatch.FindEffectiveShortcutForCommand` | apps/web/src/keybindings.ts:146-172 | the backward scan with its growing set of claimed keys |
| `WhenMeaning.EvaluatesIffClauseHolds` | apps/web/src/keybindings.ts:109-122 | a condition is true, or false, in a context if and only if all literals of one clause of its disjunctive normal form hold there, with the names true and false fixed |
| `DefaultDispatch.AliasIff` | apps/web/src/keybindings.ts:40-53 | exactly two brackets and ten digits count as physical keys besides what was typed |
| `DefaultDispatch.ResolvesToLast` | apps/web/src/keybindings.ts:183-199 | a key event runs the command of the last binding that is active and matches, and nothing if there is none |
| `DefaultDispatch.DefaultRuns` | apps/server/src/keybindings.ts:58-75 | end to end: with defaults of this form alone, compiled and dispatched, a key event runs the last default that it means and that applies to where the focus is |
| `DefaultDispatch.ModDRuns` | apps/server/src/keybindings.ts:58-75 | with the defaults of the source, mod and D runs terminal.split if and only if the terminal has the focus, and diff.toggle if and only if it has not, on every platform and with every physical key but a digit from one to nine, which jumps to its thread |
| `DefaultDispatch.ModShiftBracketRuns` | apps/web/src/keybindings.ts:50-95 | with the defaults of the source, mod, shift and a physical bracket key, which types a brace, goes to the previous or the next thread |
| `Dispatch.MatchesIffSameConflictKey` | apps/web/src/keybindings.ts:132-144 | an event that means one key, with no alias or with what was typed as its alias, matches a shortcut if and only if their conflict keys agree, so the textual key is injective on what matters |
| `Dispatch.DisplayedShortcutResolves` | apps/web/src/keybindings.ts:146-199 | every event that means one key and matches the displayed shortcut runs the command |
| `Dispatch.DisplayLawIff` | apps/web/src/keybindings.ts:61-199 | in every context, an event obeys this for all bindings, commands and platforms if and only if it means one key |
| `Dispatch.TwoKeysBreakTheLaw` | apps/web/src/keybindings.ts:61-95 | the failing bindings for every event whose alias is not what was typed |
| `Dispatch.DisplayedIffReachable` | apps/web/src/keybindings.ts:132-199 | with pressable keys a shortcut is displayed if and only if some event that means one key runs the command |
| `Dispatch.ReachableIffDisplayed` | apps/web/src/keybindings.ts:132-199 | for all bindings, a command is reachable if and only if it is displayed once the bindings without pressable keys are left out |
| `Dispatch.UnpressableKeyIsDisplayedInVain` | apps/web/src/keybindings.ts:146-199 | the display can name a key that no such event produces; compiled configurations have no such key |
| `Dispatch.CompiledKeysArePressable` | apps/server/src/keybindings.ts:77-146 | every key the server compiles is pressable |
| `Dispatch.CompiledConfigDisplaysWhatItRuns` | apps/server/src/keybindings.ts:303-314 | for every compiled configuration, displayed if and only if reachable |
| `Dispatch.AliasedPressMayRunAnother` | apps/web/src/keybindings.ts:61-95 | the ordinary case: shift and the digit key one, typed as an exclamation mark |
| `ComposerSegments.SplitPromptTextIntoComposerSegments` | apps/web/src/composer-editor-mentions.ts:32-65 | the matching loop returns the specified segments |
| `ComposerSegments.SplitPromptIntoComposerSegments` | apps/web/src/composer-editor-mentions.ts:67-100 | the placeholder loop returns the specified segments |
| `ComposerSegments.SegmentationIsLossless` | apps/web/src/composer-editor-mentions.ts:32-100 | rendering the segments gives the prompt back |
| `ComposerSegments.SegmentationIsNormal` | apps/web/src/composer-editor-mentions.ts:22-100 | no text segment is empty and no two are adjacent |
| `ComposerSegments.SegmentsAreExactlyTheMentions` | apps/web/src/composer-editor-mentions.ts:32-65 | a mention segment stands at a place if and only if the prompt has a mention there |
| `ComposerSegments.ContextsInOrder` | apps/web/src/composer-editor-mentions.ts:67-100 | there are as many contexts as placeholders; the k-th placeholder gets the k-th context, and none once they run out |
| `ComposerCursor.ExpandCollapsedComposerCursor` | apps/web/src/composer-logic.ts:41-79 | the loop over segments computes the expansion |
| `ComposerCursor.CollapseExpandedComposerCursor` | apps/web/src/composer-logic.ts:113-154 | the loop over segments computes the collapse |
| `ComposerCursor.ClampCollapsedComposerCursor` | apps/web/src/composer-logic.ts:81-111 | a collapsed cursor is clamped to the collapsed length |
| `ComposerCursor.CursorMapsAreAdjoint` | apps/web/src/composer-logic.ts:41-154 | collapse(e) <= c if and only if e <= expand(c), for every c and every e in range |
| `ComposerCursor.CollapseUndoesExpand` | apps/web/src/composer-logic.ts:41-154 | collapse(expand(c)) = c for every collapsed cursor in range |
| `ComposerCursor.CursorMapsAreMonotone` | apps/web/src/composer-logic.ts:41-154 | both maps are monotone |
| `ComposerCursor.ExpandAfterCollapse` | apps/web/src/composer-logic.ts:41-154 | expand(collapse(e)) is never left of e, and is e if and only if e is not strictly inside a mention |
| `ComposerCursor.ClampReads` | apps/web/src/composer-logic.ts:18-21 | a cursor is rounded down into the range; one that is no finite number is the end |
| `ComposerCursor.OutOfRangeCursors` | apps/web/src/composer-logic.ts:18-154 | cursors before the start and beyond the end expand and collapse like the start and the end |
| `CodexManager.SessionContext.SendRequestOut` | apps/server/src/codexAppServerManager.ts:1209-1238 | the id drawn, the pending entry, the message written or the promise rejected |
| `CodexManager.SessionContext.OnResponse` | apps/server/src/codexAppServerManager.ts:1191-1207 | a response settles and removes the request of its own id and nothing else |
| `CodexManager.SessionContext.OnTimeout` | apps/server/src/codexAppServerManager.ts:1218-1222 | a timeout removes and settles its own request |
| `CodexManager.SessionContext.RejectPending` | apps/server/src/codexAppServerManager.ts:898-903 | the loop rejects every pending request |
| `CodexManager.SessionContext.StopSession` | apps/server/src/codexAppServerManager.ts:892-920 | stopping rejects what is pending, clears the bookkeeping and closes the session |
| `CodexManager.SessionContext.OnExit` | apps/server/src/codexAppServerManager.ts:978-991 | an unexpected exit closes the session and keeps pending requests |
| `CodexManager.SessionContext.OnServerRequest` | apps/server/src/codexAppServerManager.ts:1124-1189 | approvals and questions are filed under a fresh id; anything else is refused |
| `CodexManager.SessionContext.Respond` | apps/server/src/codexAppServerManager.ts:817-853 | an approval is removed, then answered under the id it arrived with |
| `CodexManager.SessionContext.RespondInput` | apps/server/src/codexAppServerManager.ts:855-890 | a question is removed before its answers are converted |
| `CodexManager.SessionContext.Remember` | apps/server/src/codexAppServerManager.ts:1427-1449 | every receiver of a collab tool call is mapped to the parent turn |
| `CodexManager.SessionContext.OnNotification` | apps/server/src/codexAppServerManager.ts:1038-1122 | the whole new state after a notification, by topic and by child or own conversation |
| `CodexHistory.CollabByHistory` | apps/server/src/codexAppServerManager.ts:1427-1467 | over every run, the parent turn of a conversation is the one it was last enlisted for by a collab tool call, unless a turn of the session's own was completed since |
| `CodexHistory.SessionByHistory` | apps/server/src/codexAppServerManager.ts:1038-1122 | over every run, status, active turn, last error and resume cursor are those of the history of the session's own lifecycle notifications, stop and exit, each as an if-and-only-if without a session record |
| `CodexHistory.NotificationHeard` | apps/server/src/codexAppServerManager.ts:1038-1122 | over every run, listeners hear every notification but those a child keeps to itself, with its own turn or its parent's |
| `CodexHistory.RequestHeard` | apps/server/src/codexAppServerManager.ts:1124-1189 | listeners hear every request of the server, and one that awaits an answer is filed with what they heard |
| `CodexHistory.ReplyHeard` | apps/server/src/codexAppServerManager.ts:817-890 | a decision or an answer that is sent is heard with the turn and the item of its request |
| `CodexRuns.RequestsStayCorrelatedIff` | apps/server/src/codexAppServerManager.ts:1191-1238 | over every run, each issued request id is pending or settled, never both, and settled once, if and only if every request could be written |
| `CodexRuns.SendKeepsCorrelationIff` | apps/server/src/codexAppServerManager.ts:1209-1238 | a send keeps that correlation if and only if its write succeeds |
| `CodexRuns.SettledOnlyByOwnCause` | apps/server/src/codexAppServerManager.ts:892-1238 | a request becomes settled if and only if its own response, its timeout, a stop or its failed write occurs |
| `CodexHistory.OutcomesByHistory` | apps/server/src/codexAppServerManager.ts:1191-1238 | over every run, a settled request has the outcome that its response, timeout, stop or failed write brings, and none of a later one |
| `CodexHistory.RequestsByHistory` | apps/server/src/codexAppServerManager.ts:1209-1238 | over every run, the requests written are those that could be, once each, in order, under the number of requests made so far |
| `CodexHistory.StopLeavesNothing` | apps/server/src/codexAppServerManager.ts:892-920 | a stop leaves nothing pending and settles every request that was as stopped |
| `CodexRuns.StrayResponseChangesNothing` | apps/server/src/codexAppServerManager.ts:1191-1197 | a response changes nothing if and only if its id is not pending |
| `CodexRuns.ApprovalsAreAnsweredOnce` | apps/server/src/codexAppServerManager.ts:817-853 | over every run an approval is decided at most once and under the JSON-RPC id it arrived with; until stop, if decisions can be written, it is pending or decided exactly once |
| `CodexRuns.QuestionsAreAnsweredOnce` | apps/server/src/codexAppServerManager.ts:855-890 | over every run a question is answered at most once and under the id it arrived with; until stop, if answers convert and can be written, it is pending or answered exactly once |
| `CodexRuns.InputAnsweredIff` | apps/server/src/codexAppServerManager.ts:855-890 | a question is answered if and only if all answers convert and the write succeeds; its entry is gone either way |
| `CodexHistory.WrittenByHistory` | apps/server/src/codexAppServerManager.ts:817-890 | over every run, everything written goes out because of an input: the decision as it was made, the answers as they were given, under the id asked for |
| `CodexHistory.UsableIff` | apps/server/src/codexAppServerManager.ts:817-890 | over every run, decisions and answers are taken until the session ends and change nothing afterwards |
| `CodexHistory.PendingByHistory` | apps/server/src/codexAppServerManager.ts:817-920 | over every run, an approval or a question is pending if and only if it was asked and since then nobody replied and no stop came; a reply takes it off even if it cannot be passed on |
| `CodexRuns.RefusalsMatchRequests` | apps/server/src/codexAppServerManager.ts:1124-1189 | over every run the refusals with -32601 are exactly the requests of other kinds, once each, under their own ids and in order of arrival |
| `CodexRuns.ChildNoiseIsErasable` | apps/server/src/codexAppServerManager.ts:1038-1122 | erasing from any trace the child notifications that carry no collab tool call leaves status, active turn, resume cursor, last error and all bookkeeping unchanged |
| `CodexRuns.ChildNeverTouchesSession` | apps/server/src/codexAppServerManager.ts:1451-1467 | a child notification never changes the session record |
| `CommandGate.CommandGate.EnqueueReads` | apps/server/src/serverRuntimeStartup.ts:92-100 | a caller's read of the readiness decides its path |
| `CommandGate.CommandGate.EnqueueOffers` | apps/server/src/serverRuntimeStartup.ts:102-110 | a waiting caller's command goes to the end of the queue |
| `CommandGate.CommandGate.WorkerTakes` | apps/server/src/serverRuntimeStartup.ts:76-78 | the worker takes the head of the queue |
| `CommandGate.CommandGate.WorkerExecutes` | apps/server/src/serverRuntimeStartup.ts:103-108 | the worker runs a command only behind the open gate |
| `CommandGate.CommandGate.WorkerSettles` | apps/server/src/serverRuntimeStartup.ts:66-69 | the worker settles the command's result cell |
| `CommandGate.CommandGate.FailRejectsGate` | apps/server/src/serverRuntimeStartup.ts:87-91 | the first settlement of the gate wins |
| `CommandGate.NoEffectBeforeSignal` | apps/server/src/serverRuntimeStartup.ts:71-113 | in every reachable state no effect has run while the gate is pending, nor in any run without a signal |
| `CommandGate.AfterFailureCallersGetTheError` | apps/server/src/serverRuntimeStartup.ts:87-111 | in every run whose gate no signal opened, every caller that returns gets an announced startup error, except those that read a signal and ran their effect themselves |
| `CommandGate.RejectedGateStaysSilent` | apps/server/src/serverRuntimeStartup.ts:71-111 | once a failure has settled the gate, in every continuation no queued effect runs and every queued caller and result gets that startup error, whatever signals follow |
| `CommandGate.QueueIsSilentIff` | apps/server/src/serverRuntimeStartup.ts:71-111 | behind a settled gate no queued effect runs in any continuation if and only if a failure settled it or nothing was queued |
| `CommandGate.QueuedRunInOfferOrder` | apps/server/src/serverRuntimeStartup.ts:76-110 | queued effects run in offer order without gaps, and exactly the offered prefix the worker let go of is settled |
| `CommandGate.EachEffectRunsAtMostOnce` | apps/server/src/serverRuntimeStartup.ts:92-111 | no effect runs twice, queued or direct |
| `CommandGate.ResultsSettleOnce` | apps/server/src/serverRuntimeStartup.ts:66-69 | the worker always finds the result cell open |
| `GateResults.QueuedResultsAreOwn` | apps/server/src/serverRuntimeStartup.ts:66-110 | in every reached state behind an open gate, the result of each queued command, and each answer read from it, is the exit carried by the action that ran that command, for all exits |
| `GateResults.DirectResultsAreOwn` | apps/server/src/serverRuntimeStartup.ts:92-97 | in every reached state, a caller that ran directly has an exit if and only if its own action carried it |
| `GateResults.NewcomerByHistory` | apps/server/src/serverRuntimeStartup.ts:82-100 | a newcomer runs, queues or is turned away with the error as the last announcement of the run says |
| `CommandGate.WorkerDrainsQueue` | apps/server/src/serverRuntimeStartup.ts:76-78 | from every state with a settled gate, worker steps alone settle everything offered |
| `CommandGate.FirstSettlementIsFinal` | apps/server/src/serverRuntimeStartup.ts:83-91 | later signal and fail calls leave the gate as it is |
| `CommandGate.LateFailureSplitsCallers` | apps/server/src/serverRuntimeStartup.ts:87-108 | in every run, a failure after the gate opened turns newcomers away, while the gate stays open in every continuation and the worker can still run everything offered |
| `CommandGate.QueuedCommandOutlivesFailure` | apps/server/src/serverRuntimeStartup.ts:66-111 | the concrete run: queued before the signal, run after the failure, answered with the effect's result |
| `ManifestText.NumberRoundTrip` | scripts/merge-mac-update-manifests.ts:57-68 | a decimal number printed and read back is the same number |
| `ManifestText.ScalarRoundTrip` | scripts/merge-mac-update-manifests.ts:234-243 | every printable scalar reads back as itself, and prints as one trimmed line |
| `Manifest.ParseMacUpdateManifest` | scripts/merge-mac-update-manifests.ts:70-183 | the line loop returns the specified manifest, or the specified error with its line |
| `ManifestLines.LineMeans` | scripts/merge-mac-update-manifests.ts:78-135 | what each line says, as an if-and-only-if on its prefix, the space after it and the rest |
| `ManifestLines.LinesAreFound` | scripts/merge-mac-update-manifests.ts:71 | lines are found again whether they end in a line feed alone or after a carriage return |
| `ManifestLines.NumberReads` | scripts/merge-mac-update-manifests.ts:57-68 | a number has the value of its sign and digits, in lowest terms |
| `ManifestLines.OnlyDecimalsAreNumbers` | scripts/merge-mac-update-manifests.ts:64 | nothing but digits, with a point between them and a sign before them if any, is a number |
| `ManifestReading.ParsesByLines` | scripts/merge-mac-update-manifests.ts:70-183 | for every text: it is refused for its first line with a problem, with the number of that line, then for an entry left incomplete and for what is missing; otherwise it means the last value of each key and its entries in order, each with the last hash and size after its url |
| `Manifest.SerializeMacUpdateManifest` | scripts/merge-mac-update-manifests.ts:245-265 | the lines are the version, the files in order, the extras in key order and the date |
| `Manifest.ToSorted` | scripts/merge-mac-update-manifests.ts:254 | keys come out in string order, each once |
| `ManifestRoundTrip.ParsedIsShaped` | scripts/merge-mac-update-manifests.ts:70-183 | whatever the text, an accepted manifest has files, single-line strings and plain extra keys |
| `ManifestRoundTrip.ReadFiles` | scripts/merge-mac-update-manifests.ts:84-113 | reading the printed files changes the file list by exactly those files, or fails when a url or hash does not read back |
| `ManifestRoundTrip.ManifestReloadsIff` | scripts/merge-mac-update-manifests.ts:70-265 | parse(serialize(m)) = m if and only if m is reloadable: the shape above, bare urls and hashes, and a version that reads as no number, boolean or quoted string |
| `ManifestRoundTrip.PrintRejectedIff` | scripts/merge-mac-update-manifests.ts:70-265 | what an accepted manifest prints as is rejected if and only if its version reads there as nothing, an empty string, a boolean or a number, or a file has a blank url or hash |
| `ManifestRoundTrip.QuotedVersionIsLost` | scripts/merge-mac-update-manifests.ts:245-246 | the concrete case: a text the parser accepts as a manifest whose print it rejects |
| `ManifestMerge.MergeFiles` | scripts/merge-mac-update-manifests.ts:214-223 | the map by url yields the first entry of each url, or fails exactly when one url has two different entries |
| `ManifestMerge.MergeExtras` | scripts/merge-mac-update-manifests.ts:185-202 | the merged extras, or a conflict |
| `ManifestMerge.MergeMacUpdateManifests` | scripts/merge-mac-update-manifests.ts:204-232 | the merge, or the kind of conflict met first |
| `ManifestMerge.MergesIff` | scripts/merge-mac-update-manifests.ts:204-232 | a merge is refused only for a version, file or extras conflict, and otherwise keeps exactly the files and extras of both, no url twice, and the later date |
| `ManifestMerge.RefusedFor` | scripts/merge-mac-update-manifests.ts:185-223 | which conflict is reported: that of the versions before that of the files before that of the extras |
| `ManifestMerge.MergeKeepsOrder` | scripts/merge-mac-update-manifests.ts:214-229 | merged files stand in the order in which their urls first appear, those of the primary manifest first |
| `ManifestMerge.SelfMergeIff` | scripts/merge-mac-update-manifests.ts:204-232 | merge(m, m) = m if and only if the urls of m are unique |
| `ManifestMerge.MergeAssociatesIff` | scripts/merge-mac-update-manifests.ts:185-232 | the two groupings give the same manifest, or are both refused, unless versions, files and extras would let the three merge in order and an inherited property name is an extra of the outer two only; the kind of a refusal is not compared |
| `ManifestMerge.InheritedNameBreaksAssociativity` | scripts/merge-mac-update-manifests.ts:189-199 | the concrete failing case |
| `ManifestMerge.MergedManifestReloads` | scripts/merge-mac-update-manifests.ts:267-283 | the merge of two reloadable manifests reloads |
| `WorkLog.AppendStreamingDetail` | apps/web/src/session-logic.ts:736-764 | the overlap loop returns the specified text |
| `WorkLog.AppendedTextIsShortest` | apps/web/src/session-logic.ts:746-763 | without a rewrite the text is the shortest that begins with the old and ends with the new piece |
| `WorkLog.CollapseDerivedWorkLogEntries` | apps/web/src/session-logic.ts:652-665 | the loop that overwrites the last slot returns the specified list |
| `WorkLog.RunsPartition` | apps/web/src/session-logic.ts:667-687 | the reference runs are consecutive, non-empty, maximal and make up the input |
| `WorkLog.CollapseMergesRuns` | apps/web/src/session-logic.ts:652-687 | the greedy loop equals merging each run of raw entries on its own |
| `WorkLog.CollapsedIsNormal` | apps/web/src/session-logic.ts:652-687 | no two adjacent output entries collapse, and collapsing again changes nothing |
| `WorkLog.MergesIff` | apps/web/src/session-logic.ts:667-687 | two neighbours collapse if and only if they have the same key and their kinds continue each other; a completed call is continued by nothing |
| `WorkLog.ShownCount` | apps/web/src/session-logic.ts:652-687 | as many entries are shown as there are entries that do not continue the one before |
| `WorkLog.OnlyLastCompletes` | apps/web/src/session-logic.ts:667-687 | in a run of a tool call all reports but the last are updates |
| `WorkLog.CompletedCallsConserved` | apps/web/src/session-logic.ts:652-687 | collapsing keeps the number of completed tool calls |
| `WorkLog.MergedRunSays` | apps/web/src/session-logic.ts:766-835 | a stream keeps the identity of its first piece, a tool call that of its last report; files accumulate without repetition and later attributes win |
| `WorkLogFields.AttributeOfRun` | apps/web/src/session-logic.ts:766-824 | each attribute of a collapsed run is that of the last report that gives it; a piece of a stream gives no empty text |
| `WorkLogFields.FilesInOrder` | apps/web/src/session-logic.ts:826-835 | its changed files stand in the order in which the reports first name them |
| `WorkLog.ToolRunShowsLastDetail` | apps/web/src/session-logic.ts:771-774 | a tool call shows the last detail reported |
| `WorkLog.StreamKeepsItsEnds` | apps/web/src/session-logic.ts:736-774 | a stream ends with the last piece that says something and begins with the first, or with the last piece that restarted it by a rewrite; it says nothing if and only if no piece does |
| `WorkLog.ChangedFilesConserved` | apps/web/src/session-logic.ts:826-835 | no changed file is lost or invented |
| `RunningTurn.RunningOnlyStops` | apps/web/src/session-logic.ts:1735-1870 | with all else fixed, what is not running never becomes running as time advances |
| `RunningTurn.RunsExactlyUntil` | apps/web/src/session-logic.ts:1735-1870 | whatever is known about a turn, it runs up to one fixed time, never, or for good, as an account without the clock says |
| `RunningTurn.StopsIff` | apps/web/src/session-logic.ts:1735-1870 | it stops for good at some time if and only if that account is not for good |
| `RunningTurn.CompletedTurnRunsIff` | apps/web/src/session-logic.ts:1735-1870 | past completedAt+5s and the last signal+15s, a completed turn without a stream runs if and only if the session works on a different turn and nothing was or will be said about this one |
| `RunningTurn.UndatedCompletionRunsIff` | apps/web/src/session-logic.ts:1767-1870 | a completion date that is not a date sets no deadline: at every time the turn runs if and only if the same fixed condition on stream, reply and session holds |
| `RunningTurn.CompletedTurnStopsIff` | apps/web/src/session-logic.ts:1767-1870 | the exact condition for a completed turn without a stream to stop for good at some time |
| `RunningTurn.DerivePostCompletionContinuationSignalAt` | apps/web/src/session-logic.ts:1658-1694 | the two loops return the last signal after completion, and nothing exactly when there is none |
| `RunningTurn.LatestIsUnique` | apps/web/src/session-logic.ts:1658-1694 | the signal depends only on the set of signals |
| `DraftStore.Store.SetProjectDraftThreadId` | apps/web/src/composerDraftStore.ts:1292-1360 | the three maps after pointing a project to a thread, including the release of its previous one |
| `DraftStore.Store.SetDraftThreadContext` | apps/web/src/composerDraftStore.ts:1361-1419 | the maps after moving or editing a thread |
| `DraftStore.Store.ClearProjectDraftThreadId` | apps/web/src/composerDraftStore.ts:1420-1449 | the maps after clearing a project |
| `DraftStore.Store.ClearProjectDraftThreadById` | apps/web/src/composerDraftStore.ts:1450-1478 | the maps after clearing a project that points to a given thread |
| `DraftStore.Store.ClearDraftThread` | apps/web/src/composerDraftStore.ts:1479-1513 | the maps after clearing a thread |
| `DraftStore.Store.GetDraftThreadByProjectId` | apps/web/src/composerDraftStore.ts:1269-1285 | the lookup |
| `DraftStore.NormalizePersistedDraftThreads` | apps/web/src/composerDraftStore.ts:751-837 | both loops return the specified maps |
| `DraftRuns.LoadEstablishesIntegrity` | apps/web/src/composerDraftStore.ts:751-837 | whatever was persisted, after loading every project points to an existing thread |
| `DraftRuns.LoadedLookupIff` | apps/web/src/composerDraftStore.ts:801-834 | after loading a project finds its thread if and only if no later mapping names the same thread |
| `DraftRuns.ApplyKeepsIntegrity` | apps/web/src/composerDraftStore.ts:1292-1513 | every action keeps referential integrity |
| `DraftRuns.EveryReachableStateHasIntegrity` | apps/web/src/composerDraftStore.ts:751-837 | integrity holds after every sequence of actions from an empty or a loaded store |
| `DraftRuns.SetProjectLookups` | apps/web/src/composerDraftStore.ts:1292-1360 | the lookup of every project after the action: the target finds the new thread, projects that shared it lose it, nobody else notices |
| `DraftRuns.SetContextLookups` | apps/web/src/composerDraftStore.ts:1361-1419 | the lookup of every project after moving a thread |
| `DraftRuns.ClearProjectLookups` | apps/web/src/composerDraftStore.ts:1420-1449 | only the cleared project loses its thread |
| `DraftRuns.ClearByIdLookups` | apps/web/src/composerDraftStore.ts:1450-1478 | only the cleared project loses its thread, and only if it pointed to the given one |
| `DraftRuns.ClearThreadLookups` | apps/web/src/composerDraftStore.ts:1479-1513 | exactly the projects that pointed to the thread lose it |
| `DraftRuns.OrphanAppearsIffEvicted` | apps/web/src/composerDraftStore.ts:1402-1410 | from a state without orphan threads an action creates one if and only if it gives a project, the only one of its thread, another thread's id by a context change |
| `DraftRuns.MovingADraftMayStrandAnother` | apps/web/src/composerDraftStore.ts:1402-1405 | the concrete failing case |
| `DraftFields.DraftsGoWithThreads` | apps/web/src/composerDraftStore.ts:1292-1513 | apart from editing, a typed draft is dropped if and only if its thread is cleared or loses its only project, and is never changed |
| `DraftFields.SetProjectFields` | apps/web/src/composerDraftStore.ts:1292-1360 | each field of the thread a project is pointed to: the option given, else what there was, else the default |
| `DraftFields.SetContextFields` | apps/web/src/composerDraftStore.ts:1361-1419 | each field of a thread that is moved or edited |
| `DraftFields.OtherThreadsStay` | apps/web/src/composerDraftStore.ts:1292-1513 | no action changes a thread that it is not about |
| `DraftFields.LoadedFields` | apps/web/src/composerDraftStore.ts:751-800 | a persisted thread is loaded if and only if it names a project; each of its fields as it is or by default |
| `DraftFields.LoadThreadsTakesLast` | apps/web/src/composerDraftStore.ts:751-800 | of persisted threads with one id the last that names a project counts |
| `DraftFields.MappingAdopts` | apps/web/src/composerDraftStore.ts:801-834 | a mapping sets the project of its thread and changes nothing else, or makes up a thread that is not there |
| `UpstreamSync.BuildBootstrapManifest` | scripts/upstream-sync.ts:319-355 | the loop returns the specified entries |
| `UpstreamSync.BuildCheckSummary` | scripts/upstream-sync.ts:357-442 | the loop with its five lists and its counter returns the specified summary |
| `UpstreamSync.Repository.ApplySafeUpdates` | scripts/upstream-sync.ts:488-526 | the files overwritten and the entries rebased, or the failure of a copy on the way |
| `SyncRounds.CheckPartitions` | scripts/upstream-sync.ts:357-442 | the totals add up to the tracked files, and a path is on a list if and only if that is its category |
| `SyncCategories.CategoryByHashes` | scripts/upstream-sync.ts:357-442 | the list of a file by three hashes alone: what is recorded, what is here and what its owner has |
| `SyncCategories.NamedIff` | scripts/upstream-sync.ts:362-375 | of sources with one name the last counts |
| `SyncRounds.ApplyTouchesOnlySafe` | scripts/upstream-sync.ts:488-526 | applying a fresh check never fails and overwrites exactly the files that still match their baseline and whose owner moved on, with the owner's content |
| `SyncRounds.SecondCheckIsSettled` | scripts/upstream-sync.ts:488-526 | a second check has no safe updates and the same conflicts, drift and missing files |
| `SyncRounds.DriftIsSparedIff` | scripts/upstream-sync.ts:488-526 | for any list of entries, applying a fresh check spares every drifted file, whatever it holds, if and only if no entry that has a source and comes before the first failing copy is for a path both safe and drifted |
| `SyncRounds.CompletedRunSparesDriftIff` | scripts/upstream-sync.ts:488-526 | for any list of entries, drifted files are spared when no path of the summary is both safe and drifted, and only then if the run completes; it completes if and only if no source lacks the file of an entry for a safe path |
| `SyncRounds.RepeatedPathOverwritesConflict` | scripts/upstream-sync.ts:488-505 | with a path listed twice, one entry's update overwrites what the other calls a conflict |
| `SyncRounds.RepeatedPathLosesEdit` | scripts/upstream-sync.ts:488-505 | the concrete failing case |
| `SyncRounds.OwnedIff` | scripts/upstream-sync.ts:327-336 | a file has an owner if and only if some source holds it identically, and a preferred source wins |
| `SyncCategories.OwnerIsFirst` | scripts/upstream-sync.ts:319-355 | the owner is the first preferred source with the file identically, or else the first one |
| `SyncRounds.BootstrapTracks` | scripts/upstream-sync.ts:319-355 | the manifest tracks, once each, exactly the files some source holds identically |
| `SyncRounds.CheckAfterBootstrap` | scripts/upstream-sync.ts:319-442 | a check right after bootstrap is all unchanged |
| `SyncRounds.LocalEditsSurvive` | scripts/upstream-sync.ts:538-576 | a local edit and its baseline survive any number of rounds, whatever the upstream does |
| `Transcript.BuildBootstrapInput` | apps/web/src/historyBootstrap.ts:60-139 | the three loops return the specified result |
| `Transcript.GreedyStopsAtFirstMisfit` | apps/web/src/historyBootstrap.ts:93-107 | every end of the conversation up to the chosen one fits and one block more does not |
| `Transcript.ShrinkNeverDrops` | apps/web/src/historyBootstrap.ts:109-138 | the final loop never drops a block |
| `Transcript.PackedWithinBudget` | apps/web/src/historyBootstrap.ts:60-139 | the text is within the budget, included and omitted add up, the included blocks are the end of the conversation and cannot be extended by one, and truncated is set exactly when something is missing |
| `TranscriptText.BlockReads` | apps/web/src/historyBootstrap.ts:20-58 | a block says who wrote the message, then its text, then up to three of its images by name and the number of the others, or that it is empty |
| `TranscriptText.PackedReads` | apps/web/src/historyBootstrap.ts:60-139 | the text is the frame around the last messages that are included, a blank line between them, after a note that counts the others, or the request cut to the budget |
| `TranscriptText.BudgetIsWhole` | apps/web/src/historyBootstrap.ts:60-75 | the budget is the whole part of the limit, and at least one |
| `Transcript.GreedyIsLongestIff` | apps/web/src/historyBootstrap.ts:93-107 | no longer end of the conversation fits except possibly the whole; the choice is the longest if and only if the whole does not fit, or is one message, or fits without its oldest message too |
| `Transcript.GreedyMissesTheWhole` | apps/web/src/historyBootstrap.ts:93-107 | the concrete failing case |

## Left out

- Effect runtime, RPC transport, sockets, child processes, React and persistence: only the state steps they trigger are modelled. Clock values, drawn ids and write failures are parameters.
- LiveClient.FreshSnapshotsKeepStoreComplete: that the server publishes an event only after storing it is the hypothesis about its snapshots; its transactions are not modelled.
- LiveClient.CoverageIsExact: replies are assumed to be consecutive log segments from the frontier the request was made at, and completions to match their begins; whether replay and live together cover the log is a hypothesis, as EventBuffer.DeliveredIffCovered shows it must be.
- LiveClient.AppliedAtMostOnceInOrder: assumes that no event repeats before its flush, because marking a batch does not dedupe it; LiveClient.AppliedAtMostOnceIff is the exact condition.
- ReplayRetry.RetryChainsAreFinite: a completion that is not answered with retry, or a failed replay, resets the tracker and ends the chain; how many chains there are is not bounded.
- WhenText.PrintThenParse: the depth limit is a parameter; KeybindingRules.SourceLimitsBreakRoundTrip gives it its value.
- Shortcut.RoundTripIff: lower-casing covers ASCII letters only.
- Dispatch.DisplayedIffReachable: speaks of events that mean one key and of pressable keys; Dispatch.DisplayLawIff and Dispatch.ReachableIffDisplayed show why.
- KeybindingRules.EncodedRuleDecodesIff: the program itself encodes no compiled rule. The length and depth limits are parameters, and so is whether the schema library refuses surrounding space in a value that is already decoded; commands are taken to be valid.
- KeybindingStore.KeybindingsMeetDisk: writes succeed, an edit and the watcher noticing it are one step, and JSON is already parsed into entries.
- `isCollapsedCursorAdjacentToInlineToken`, `detectComposerTrigger` and `replaceTextRange` of the composer.
- CodexManager.SessionContext.OnServerRequest: messages are already decoded into the fields the session reads; payload details beyond turn, item and conversation ids are not modelled.
- CodexManager.SessionContext.OnExit: signals and exit codes are reduced to clean or not. The process "error" event and the clearing of the collab map when a turn is sent are not modelled.
- ManifestRoundTrip.ManifestReloadsIff: numbers are exact decimals; rounding beyond double precision and exponent notation are not modelled.
- ManifestMerge.MergeMacUpdateManifests: of the inherited property names only those that are possible keys of a manifest are listed; error messages are reduced to their kind, which ManifestMerge.MergeAssociatesIff does not compare.
- WorkLog.AppendStreamingDetail: the heuristic that takes a piece for a rewritten snapshot is an arbitrary predicate.
- WorkLog.CollapseDerivedWorkLogEntries: the optional fields decided by the latest report are one map; how entries are derived from activities is not modelled.
- `deriveLatestRunningSignalAt`: its result is an input of the running-turn decision.
- RunningTurn.DerivePostCompletionContinuationSignalAt: dates are compared as text, as the code does; that text order is time order is not stated.
- DraftStore.NormalizePersistedDraftThreads: one clock value serves the whole load. Images, model options and legacy drafts are not modelled; typed drafts are opaque text.
- DraftStore.Store.SetDraftThreadContext: ids are assumed not to collide with inherited property names.
- SyncRounds.ApplyTouchesOnlySafe: assumes unique manifest paths, which SyncRounds.BootstrapTracks establishes and applying keeps; SyncRounds.DriftIsSparedIff is about any paths. The manifest file itself is not a tracked file, and source trees are disjoint from the target.
- UpstreamSync.BuildBootstrapManifest: the walk over directories and the resolution of sources by git are not modelled; the walked paths are a parameter.
- Transcript.BuildBootstrapInput: text length counts characters of the model, which stand for UTF-16 code units.
- Build, release, roadmap, doctor and inventory scripts, port search, update machine, follow-up queue and settings watchers: they would only add easy members.
