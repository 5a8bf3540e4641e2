# Verified model of the agent's state machines

This project models the parts of the agent whose correctness rests on state that many steps
change, and proves what every run of them keeps.

* **The conversation log.** `Conversation` holds messages, the log and the notion of a *paired*
  log: every assistant turn with tool calls is followed at once by exactly its results in call
  order, and no other tool message exists. `Compaction` folds the older middle of a log into a
  digest, `Maintenance` snips and prunes stale tool results, `RunLoop` is the loop behind one
  user turn with everything that can happen in it (tool batches, cancellations, steers, broken
  streams, readiness and empty-answer retries, the grace round, maintenance between calls), and
  `Normalize` repairs a log when it is sent or loaded. The `...Theory` modules,
  `MaintenanceNames` and `MaintenanceRepeat` prove what they preserve and, read off the inputs
  alone, what they do: `FoldTheory` and `DigestTheory` what is folded and what the digests say,
  `SnipTheory` what is rewritten and shown, `UpkeepTheory` when the maintenance between calls
  acts and gives up, `StopTheory` and `TranscriptTheory` how a run ends and what it writes, and
  `PairingTheory` which stored result answers which call.
* **Tool batches.** `Batch` cuts the calls of one turn into segments and dispatches them as a
  machine whose steps interleave freely; `BatchRun` runs the code's own loops on it, and
  `BatchOrder` says what overlaps and what each call sees of the others. `LoopGuards`
  answers a model that repeats itself; `StormTheory` and `ReadGuardTheory` say when it is right.
* **The task list.** `Todo`, `TodoProgress`, `TodoTheory` and `TodoAgreement`: the list kept live
  and the list rebuilt from a transcript.
* **Checkpoints.** `Checkpoint`, `CheckpointTheory` and `CheckpointLists`: first-touch snapshots,
  restore, truncate, reload and the list of turns.
* **Saving.** `Saving`, `SaveRules` and `SavingTheory`: optimistic saves of one transcript by any number of
  sessions, and the branch that rescues a conflicted one. `Lease`: the lease on a session path
  across processes.
* **The chat bot.** `BotQueue`, `BotQueueTheory` and `BotArrivals`: one running turn per key and a
  bounded queue. `Chunking`: cutting a reply into messages.
* **ACP.** `AcpPending`: replies meet their requests. `AcpSession`: turns, aborts and deletion.
* **Sub-agents.** `Lineage`, `Subagents` and `SubagentTheory`: walks over possibly cyclic parent
  links, and the runs prepared from them under locks.

`Text` holds options, results and string functions.

Code that changes an object is a class whose methods are proved equal to a function of the old
state; the properties are lemmas about those functions. Where threads or processes interleave,
the state machine's steps are the atomic sections of the code and a run is any sequence of
enabled steps. Everything outside - the model, tools, users, clocks, random ids, the summarizer,
file errors - is a parameter that may take any value.

Some promises hold only under a condition, which is stated and proved exact:

* a repeated prune changes something if and only if the first one shrank the region below the
  planner's minimum and the fixed window then reaches a stale result (`PruneTwice`, with an
  example);
* every result that a snip takes keeps its size if and only if the separator text does not occur
  in the tool's name with a blank in front (`SizesSurviveExactly`), and its archive if and only
  if the path is plain (`SnipRemembersArchive`);
* a run leaves the session's log paired if and only if its last iteration does not get tool calls
  in the grace round; otherwise the log stays broken in the next turn (`ProviderSeesPaired`,
  `GracePauseBreaksNextTurn`). What is sent is repaired first and always paired, and is the log
  itself if and only if that is well-formed (`SentIsPaired`, `GracePauseIsAnswered`);
* the storm breaker is right about a batch of failures after any history if and only if the batch
  is one call, with no NUL in its name and none in its error but at the very end
  (`StormFiresExactly`); every other batch can be mistaken for one that failed differently
  (`Mistaken`), while histories without NULs are judged rightly (`RightOnPlain`);
* the guard against repeated reads is right about a batch after any history if and only if the
  batch is one call whose arguments do not spell out another read, as long as no two outputs
  have one digest (`ReadGuardFiresExactly`, `ReadMistaken`, `ReadRightOnPlain`);
* the rebuilt task list is the live one for every reader of arguments if and only if the last
  write that reads as a success is the last that succeeded and the completions that read so from
  its message on are the ones that succeeded after it (`RebuildAgreesIff`). With exact texts that
  says that no successful completion precedes the last write in its message
  (`RebuildAgreesExactly`); a last write that was cancelled comes back (`LostWriteIsRebuilt`);
* a rescue replaces stored content if and only if it is another log under the recovery file's
  name, and loses it if and only if the rescued messages do not continue it
  (`RescueReplacesExactly`), which a second stale session brings about
  (`SecondRescueLosesContinuation`); when the sidecar still names the lost content is exact too
  (`SidecarNamesLostExactly`), and the revision does not tell its writer
  (`RescueGoesUnnoticed`);
* one turn of a key runs at a time if and only if every forced release comes while the key is not
  active (`OneTurnExactly`);
* the digests of a run of passes stand in the order of the passes if and only if no effective pass
  finds an earlier one in its verbatim tail (`RunDigests`);
* a reply is cut inside a code fence if and only if the last break scanned is white space in a
  fence, or there is no break and the soft limit lies in one (`CutSplitsFenceExactly`).

A run that starts from a well-formed log, with a model whose arguments are empty or valid, needs
none of these repairs: snips, prunes, folds, steers and retries included, each of its requests is
the session's log as it stands (`RequestsAreTheLog`).

## Model

| member | source | states |
|---|---|---|
| Conversation.PairedMeaning | internal/agent/agent.go:1119-1132 | The one-pass scan accepts a log exactly when each call is answered at its place behind its assistant turn and no tool message stands elsewhere |
| Conversation.CutOffTools | internal/agent/compact.go:568-572 | A boundary of a paired log that is not in front of a tool message splits it into two paired logs |
| Conversation.GroupUnique | internal/agent/compact.go:444-459 | In a paired log no message belongs to two call groups |
| Conversation.SelectPaired | internal/agent/compact.go:401-411 | Dropping whole call groups from a paired log leaves a paired log |
| Conversation.Session.constructor | internal/agent/session.go:31-37 | A new session holds just the system prompt, if any, and is paired |
| Conversation.Session.Add | internal/agent/session.go:40-45 | Appends one message and counts one change |
| Conversation.Session.Replace | internal/agent/session.go:49-54 | Swaps the whole log and counts one change |
| Conversation.Session.IncrementRewrite | internal/agent/session.go:78-83 | Both counters grow by one, the log stays |
| Conversation.Session.MarkPersisted | internal/agent/save.go:415-425 | Remembers path, content, version and revision of a load or save |
| Compaction.PinnedPrefixLen | internal/agent/compact.go:370-382 | The pinned prefix holds only system and user turns, and is empty exactly when the first message is none that is pinned |
| Compaction.ComputePinnedPrefixLen | internal/agent/compact.go:370-382 | The scanning loop finds that prefix |
| Compaction.TailStart | internal/agent/compact.go:555-573 | The loop grows the tail as far as floor or budget allow and then moves it back over tool results only |
| Compaction.RawTailIsLongest | internal/agent/compact.go:555-567 | Before alignment the tail fits, and no longer suffix after the head does |
| Compaction.PlanCompaction | internal/agent/compact.go:518-541 | Head, start and verdict are those of the plan, with and without a window |
| Compaction.PlanCutsBetweenGroups | internal/agent/compact.go:518-573 | On a paired log neither end of the planned region lies inside a call group |
| Compaction.SearchToolCaller | internal/agent/compact.go:490-502 | The backward search returns the nearest assistant turn before the result that issued the call, or -1 |
| Compaction.KeepToolCallGroup | internal/agent/compact.go:444-459 | The in-place marking adds exactly the turn and its results in the run of tool messages behind it |
| Compaction.KeepIndexes | internal/agent/compact.go:413-442 | The two marking loops over the shared flags yield the specified flags |
| Compaction.PartitionFold | internal/agent/compact.go:401-411 | The region is split in order into what is kept and the complement |
| Compaction.FoldEconomics | internal/agent/compact.go:152-155 | A fold is worth its call exactly when its estimate reaches 400 tokens |
| Compaction.Compact | internal/agent/compact.go:200-283 | The session's log becomes prefix, kept messages, one digest and tail, or stays, by the same exits as the code; the counters move only on a fold |
| CompactionTheory.CallerIsGroupHead | internal/agent/compact.go:490-502 | On a paired region the caller found for a result heads the result's own group |
| CompactionTheory.PolicyFlagsMeaning | internal/agent/compact.go:413-459 | On a paired region a message is flagged exactly if the policy keeps it or a member of its call group, so flags respect groups |
| CompactionTheory.PartitionClosed | internal/agent/compact.go:401-411 | Both halves of the partition consist of whole call groups |
| CompactionTheory.CompactKeepsPairing | internal/agent/compact.go:200-283 | A pass keeps a paired log paired and folds a paired part, whatever costs, policy, archive and summarizer do |
| CompactionTheory.PassDerives | internal/agent/compact.go:255-277 | An effective pass drops exactly the fold part, adds exactly one digest directly in front of the tail and keeps the order of the rest |
| CompactionTheory.PassKeepsProtected | internal/agent/compact.go:401-411 | One pass drops neither an earlier digest nor a pinnable user turn |
| CompactionTheory.RunKeeps | internal/agent/compact.go:212-277 | Over any run of passes the log minus new digests is an ordered subsequence of the old one, one digest is added per effective pass, and digests and user turns that stay pinnable survive |
| CompactionTheory.RunKeepsSystemPrompt | internal/agent/compact.go:370-374 | Over any run of passes the system prompt stays first |
| CompactionTheory.RunKeepsPairing | internal/agent/compact.go:200-283 | Over any run of passes a paired log stays paired |
| FoldTheory.PrefixExactly | internal/agent/compact.go:370-396 | The pinned prefix is the system prompt, a first user turn that is small and no digest, and all digests up to the first other message |
| FoldTheory.TailExactly | internal/agent/compact.go:518-573 | The tail is the longest that has no more messages than are always kept or fits half the window and 16384 tokens, lengthened until it does not start with a tool result |
| FoldTheory.StaysExactly | internal/agent/compact.go:401-459 | On a paired region a message stays if and only if it is a digest, a small user turn, or it or one of its call group is asked for by the policy with no digest behind it |
| FoldTheory.SomethingToFold | internal/agent/compact.go:215-221 | The foldable part is empty if and only if every message of the region stays |
| DigestTheory.PassFoldsExactly | internal/agent/compact.go:200-281 | A pass folds exactly if the foldable part is not empty, is forced or reaches 400 tokens, and no archive fails; the log then has exactly one digest more, and otherwise stays |
| DigestTheory.PassDigestSays | internal/agent/compact.go:255-275 | The new message in front of the tail carries the summary, and the marker with fold size and archive exactly where there is none |
| DigestTheory.RunDigests | internal/agent/compact.go:255-277 | Over any run of passes the messages without a source are exactly the digests of the effective passes, each once, saying what its pass had; they stand in the order of the passes if and only if no effective pass finds an earlier one in its tail |
| Maintenance.MaintainStaleToolResults | internal/agent/prune.go:49-116 | The session's log becomes the swept log; the statistics count exactly the changed messages and saved bytes; an archive error changes nothing |
| Maintenance.CollectCandidates | internal/agent/prune.go:67-79 | The collected positions are exactly the stale results of the window that no keep policy protects |
| Maintenance.RewriteContents | internal/agent/prune.go:98-109 | Only the collected positions change, and both counters are exact |
| MaintenanceTheory.SweepOnlyToolText | internal/agent/prune.go:98-115 | A pass changes nothing but the text of tool messages, each a candidate of its window |
| MaintenanceTheory.SweepKeepsPairing | internal/agent/prune.go:49-116 | A pass neither breaks nor repairs pairing |
| SnipTheory.SweepTouchesExactly | internal/agent/prune.go:49-132 | A sweep rewrites exactly the long, not yet rewritten and unprotected results of its window, for a prune also the snipped ones, with the archive's path if one is needed, unless that archive cannot be written |
| SnipTheory.SnipShowsLines | internal/agent/prune.go:159-169 | A snip of many lines shows exactly the first and last lines of the original and says how many it shows and omits |
| SnipTheory.SnipShowsEnds | internal/agent/prune.go:155-162 | A snip of few lines shows the longest ends that lie within half and a quarter of the original and break at runes, and says how many bytes are omitted |
| SnipTheory.PruneSays | internal/agent/prune.go:141-149 | A pruned result names its tool, the original size and its archive, an earlier one first |
| MaintenanceTheory.SnipRemembersBytes | internal/agent/prune.go:151-229 | A snipped result reports its original byte count for every tool name in which, after a blank, the separator text does not occur |
| MaintenanceTheory.SnipRemembersArchive | internal/agent/prune.go:151-249 | For such names it reports its archive if and only if the path is empty, or free of ';', trimmed and not the text for none |
| MaintenanceNames.SizesSurviveExactly | internal/agent/prune.go:118-229 | For one tool name the size of every result that a snip takes survives if and only if the separator does not occur in the name with a blank in front |
| MaintenanceNames.BytesFromName | internal/agent/prune.go:215-229 | With such a name the reported size is a number read from the name or the placeholder's own length, whatever the result was |
| MaintenanceTheory.SnipThenPrune | internal/agent/prune.go:141-170 | Pruning a snipped result keeps the original size and archive, whatever archive the later pass has |
| MaintenanceNames.NameCanHideBytes | internal/agent/prune.go:215-229 | A name without the separator that completes it from the blank in front makes the placeholder count as its own original |
| MaintenanceRepeat.PlannedStartShrinks | internal/agent/compact.go:555-573 | Rewriting results in front of the tail never moves the tail's start forward |
| MaintenanceRepeat.WindowSettled | internal/agent/prune.go:118-132 | After a pass no candidate is left inside its own window and nothing outside it changed |
| MaintenanceRepeat.SnipTwice | internal/agent/prune.go:38-40 | With a fixed cost ratio a repeated snip changes nothing |
| MaintenanceRepeat.PruneTwice | internal/agent/prune.go:45-66 | A repeated prune changes the log if and only if the planner no longer finds a region and the fixed window reaches a stale result behind the first one |
| MaintenanceRepeat.SecondPruneReachesTail | internal/agent/prune.go:54-66 | A concrete paired log on which the second prune elides a result the first one protected |
| RunLoop.Agent.Steer | internal/agent/agent.go:704-709 | Queues the text last |
| RunLoop.Agent.ConsumeSteer | internal/agent/agent.go:718-728 | Takes the oldest text, if any |
| RunLoop.Agent.ClearSteerQueue | internal/agent/agent.go:730-735 | Nothing stays queued |
| RunLoop.Agent.MaybeCompact | internal/agent/compact.go:85-146 | Log and latches follow the soft, snip, trigger and force thresholds, with prune before fold and the stuck latch |
| RunLoop.Agent.Run | internal/agent/agent.go:937-1151 | Against any script of outside events the loop ends in the specified state, dropping steers nobody consumed |
| RunLoop.Agent.LoopBody | internal/agent/agent.go:998-1145 | One iteration with all its exits changes log, queue, latches and counters as specified |
| RunLoop.Agent.OnStreamError | internal/agent/agent.go:1015-1036 | A broken stream keeps its visible text and asks to go on, at most three times in a row |
| RunLoop.Agent.OnAnswer | internal/agent/agent.go:1065-1109 | An answer without calls is blocked, retried, nudged, continued by a steer or final, in that order |
| RunLoop.Agent.OnCalls | internal/agent/agent.go:1110-1145 | Calls are run and stored, or refused in the grace round |
| RunLoop.Agent.StoreResults | internal/agent/agent.go:1119-1127 | One tool message per call is appended in call order |
| RunLoopTheory.MaintainedKeepsPairing | internal/agent/compact.go:85-146 | Every way through the maintenance between calls keeps a paired log paired |
| RunLoopTheory.BatchPaired | internal/agent/agent.go:1056-1127 | An assistant turn with one result per call behind it keeps a paired log paired |
| RunLoopTheory.IterationPairing | internal/agent/agent.go:998-1145 | At the provider call of an iteration the session's log is paired, and the iteration leaves it paired if and only if the model does not call tools in the grace round |
| RunLoopTheory.ProviderSeesPaired | internal/agent/agent.go:937-1151 | From a paired log the session's log is paired at every provider call of a whole run, and the run leaves it paired if and only if its last iteration does not get tool calls in the grace round |
| RunLoopTheory.GracePauseBreaksNextTurn | internal/agent/agent.go:1113-1117 | After such an end the session's log is still unpaired at the next turn's first provider call |
| RunLoopTheory.IterationProgress | internal/agent/agent.go:998-1145 | Every iteration that goes on lowers the measure over steps, grace, retries, recoveries and steers |
| RunLoopTheory.RunEnds | internal/agent/agent.go:998-1150 | With a positive step limit a run stops within the calls the measure still allows |
| RunLoopTheory.TurnEnds | internal/agent/agent.go:991-1150 | With a limit N and finitely many steers a whole run stops within 4(N + 2 steers + 6) provider calls |
| RunLoopTheory.RoundsBounded | internal/agent/agent.go:1113-1145 | At most N tool batches are executed |
| UpkeepTheory.UpkeepFoldsExactly | internal/agent/compact.go:85-131 | A step between calls adds a digest if and only if the trigger is reached with the latch clear, eliding does not relieve below the force mark, and the pass over the elided log folds; it never adds two and never loses one |
| UpkeepTheory.UpkeepDigestSays | internal/agent/compact.go:128-131 | That digest is the one of its pass |
| UpkeepTheory.UpkeepLeaves | internal/agent/compact.go:85-127 | Inactive, below the snip mark, or at the trigger with the latch set, the log stays; in the snip band every changed message becomes a snip and none is elided; at the trigger without a fold the elided log is left |
| UpkeepTheory.GivesUpExactly | internal/agent/compact.go:111-145 | Over any readings the latch is set if and only if two readings asked for a pass, neither failed to archive, and none since the first of them was below the thresholds |
| StopTheory.StopsExactly | internal/agent/agent.go:998-1150 | A run stops in one of the seven ways, or goes on, exactly under conditions on counts of its outside events: broken streams in a row, readiness blocks, blank answers since the last calls, steers waiting, the limit spent, the cancellation; the provider is called once per started turn and never after the one that ends the run |
| StopTheory.CountedStep | internal/agent/agent.go:990-1140 | The loop's variables and its queue are those counts: the queue is first in, first out |
| TranscriptTheory.TurnSays | internal/agent/agent.go:998-1145 | A turn adds exactly the oldest steer, what the model said, and the results or the one prompt that follows, and maintains exactly after retries, nudges, final answers and batches that were not cancelled |
| TranscriptTheory.RunLeaves | internal/agent/agent.go:937-1150 | Log and latches a run leaves are those its turns make so, whatever the events |
| TranscriptTheory.CancelledRunEnds | internal/agent/agent.go:1119-1132 | Behind a cancelled batch the log ends with the calls and one result each, nothing is maintained and the provider is not called again |
| Normalize.NormalizeMessages | internal/provider/provider.go:164-204 | Fast path and repairing loop together yield the specified log, for sending and for loading |
| Normalize.TryFastPath | internal/provider/provider.go:209-229 | The scan finds a log that needs nothing exactly if every turn is well-formed and, for sending, no tool message stands alone |
| Normalize.PairToolResults | internal/provider/provider.go:347-375 | The loops answer each call by its id where ids are distinct and by position otherwise, with a placeholder for the rest |
| Normalize.BackfillToolCallNames | internal/provider/provider.go:408-444 | The in-place loops fill exactly the empty names that a result can give |
| Normalize.CheckIdDistinct | internal/provider/provider.go:448-460 | Yes exactly if every call has an id and no two the same |
| PairingTheory.SentAnswersAreRight | internal/provider/provider.go:341-375 | Anywhere in any log a call is answered by the last stored result with its id where ids are distinct, else by the one at its place, and by the placeholder if and only if there is none |
| PairingTheory.SentCallsAreRight | internal/provider/provider.go:263-444 | A call keeps its id and its name, or gets the last name stored for it, and its arguments are kept, completed or emptied as they decode |
| PairingTheory.ScatteredResultsReturn | internal/provider/provider.go:341-375 | Of a well-formed turn with distinct ids the results may be stored in any order, twice or not at all: the sent log is the original, with a placeholder exactly for those that are gone |
| PairingTheory.LoadKeepsResults | internal/provider/provider.go:378-406 | A loaded turn keeps every stored result in its place, and gets a placeholder behind them exactly for each call without one, in call order |
| NormalizeTheory.SentIsPaired | internal/provider/provider.go:140-204 | Whatever the history, what is sent is paired and well-formed; it is the history itself if and only if that is well-formed; repairing twice is repairing once |
| NormalizeTheory.WiredMeaning | internal/provider/provider.go:231-258 | Well-formed is paired, with names on calls and results and usable arguments |
| NormalizeTheory.RepairedStays | internal/provider/provider.go:156-162 | A well-formed log is neither changed by sending nor by loading |
| NormalizeTheory.RepairKeepsTurns | internal/provider/provider.go:164-204 | Neither repair drops, adds, reorders or rewords a message that is no tool result, names and arguments of calls aside |
| NormalizeTheory.DanglingTurnIsAnswered | internal/provider/provider.go:347-375 | A turn whose calls never ran is sent with one placeholder per call and nothing else changes in front of it |
| WiredTheory.WiredByTags | internal/provider/provider.go:231-258 | Well-formed is paired with each id carrying its name, and usable arguments |
| WiredTheory.WiredCompact | internal/agent/compact.go:200-283 | A compaction pass leaves a well-formed log well-formed |
| WiredTheory.WiredMaintained | internal/agent/compact.go:85-146 | So does every way through the maintenance between calls |
| RequestTheory.IterationWired | internal/agent/agent.go:998-1145 | An iteration with usable arguments leaves a well-formed log well-formed if and only if it does not get calls in the grace round |
| RequestTheory.RequestsAreTheLog | internal/provider/openai/openai.go:418 | From a well-formed log and with usable arguments every request of a whole run is the session's log unchanged, and the log left behind is well-formed unless the last iteration got calls in the grace round |
| RequestTheory.EveryRequestIsPaired | internal/provider/openai/openai.go:418 | Whatever log a run starts from every request is paired, and once one is the session's log unchanged all later ones of the run are |
| RequestTheory.GracePauseIsAnswered | internal/provider/anthropic/anthropic.go:248 | After calls in the grace round the next turn's first request is the session's log with a placeholder for each of these calls |
| Batch.PartitionToolCalls | internal/agent/agent.go:1931-1947 | The segments tile the calls in order, each a maximal run of parallelisable calls or one other call |
| Batch.TilesUnique | internal/agent/agent.go:1931-1947 | No other segmentation has these properties |
| Batch.ScheduleInv | internal/agent/agent.go:1957-1987 | In every reachable state at most eight calls run, and receipts are recorded exactly for the calls that ended |
| Batch.SerialCallsWait | internal/agent/agent.go:1926-1955 | A writer, an unknown tool, complete_step or todo_write runs alone, after the receipts of all earlier calls and before those of all later ones |
| Batch.CancelledPrefix | internal/agent/agent.go:1801-1851 | Under cancellation at any point every call has exactly one result, the executed calls are a prefix and all others are marked cancelled |
| Batch.SchedulesAgree | internal/agent/agent.go:1815-1851 | Every uncancelled schedule gives the outcomes and the world of running the calls one by one in provider order, when read-only tools leave the world alone |
| Batch.BatchProgresses | internal/agent/agent.go:1957-1987 | An unfinished batch always has a step to take |
| Batch.SchedulesAreFinite | internal/agent/agent.go:1815-1851 | No schedule is longer than two steps per call, one per segment and two |
| BatchOrder.TogetherExactly | internal/agent/agent.go:1931-1955 | Neighbours share a segment if and only if both are known read-only tools other than complete_step and todo_write |
| BatchOrder.LaunchesExactly | internal/agent/agent.go:1957-1987 | Such a call starts as soon as fewer than eight run, any other when nothing runs |
| BatchOrder.SerialCallSees | internal/agent/agent.go:1926-1930 | A writer, an unknown tool, complete_step or todo_write runs alone and sees exactly the receipts of all calls before it |
| BatchOrder.EachSeesEarlier | internal/agent/agent.go:1795-1847 | In provider order every call sees the world behind the calls before it and exactly their receipts |
| BatchRun.Batcher.constructor | internal/agent/agent.go:1792-1801 | The calls are segmented and nothing has run |
| BatchRun.Batcher.ExecuteBatch | internal/agent/agent.go:1792-1893 | With the context cancelled at any look, or never, the code's loops follow a schedule of the machine to its end with its outcomes and world; never cancelled, these are those of running the calls one by one; the guards then change streaks and first result as specified, unless the batch was cut short |
| BatchRun.Batcher.RunSegment | internal/agent/agent.go:1820-1850 | A segment ends on the next one, or ends the batch when a look finds the context cancelled |
| BatchRun.Batcher.RunParallel | internal/agent/agent.go:1957-1987 | At most eight calls run at once and end in any order; afterwards none runs, and the returned position is where the launches stopped: at the end, or earlier under a cancelled context |
| BatchRun.Batcher.AwaitSlot | internal/agent/agent.go:1967-1975 | A place is free and the context not cancelled, or the launches stop |
| BatchRun.Batcher.RunCall | internal/agent/agent.go:1795-1800 | Exactly the next call runs, and its result lands at its own place |
| BatchRun.Batcher.MarkCancelled | internal/agent/agent.go:1802-1813 | Every call from there on gets the cancelled result, none before |
| LoopGuards.BatchStormSignature | internal/agent/agent.go:2054-2069 | The loop yields a signature exactly if every call failed and none was refused |
| LoopGuards.BatchReadOnlyNoProgressSignature | internal/agent/agent.go:2102-2121 | The loop yields a signature exactly if every call was a successful read |
| LoopGuards.Guards.ApplyStormBreaker | internal/agent/agent.go:2020-2047 | Signature and counter follow the streak, and the first result gets the note from the third time on |
| LoopGuards.Guards.ApplyReadOnlyNoProgressGuard | internal/agent/agent.go:2076-2099 | The same for reads, from the sixth time on |
| StormTheory.StormFiresExactly | internal/agent/agent.go:2008-2069 | After any batches the storm breaker is right about the last one - it speaks exactly if the last three failed throughout with the same tools and errors, whatever their arguments - if and only if that one did not fail throughout or is one call without NULs in its name and in its error, the error's last byte aside |
| StormTheory.Mistaken | internal/agent/agent.go:2054-2069 | Every other failing batch has the signature of one that failed with other tools, errors or in another number |
| StormTheory.RightOnPlain | internal/agent/agent.go:2008-2069 | Over batches without NULs in names and errors the breaker is always right |
| ReadGuardTheory.ReadGuardFiresExactly | internal/agent/agent.go:2071-2121 | After any batches, no two outputs having one digest, the read guard is right about the last one - it speaks exactly if the last six were successful reads throughout with the same tools, arguments and outputs - if and only if that one was not read throughout or is one call whose canonical arguments do not spell out another read |
| ReadGuardTheory.ReadMistaken | internal/agent/agent.go:2499-2513 | Every other batch of reads has the signature of different reads, as arguments that do not decode are kept raw |
| ReadGuardTheory.ReadRightOnPlain | internal/agent/agent.go:2071-2121 | Over batches without NULs in names and arguments and with distinct digests the guard is always right |
| ReadGuardTheory.SixReadsSpeak | internal/agent/agent.go:2076-2099 | Six times one read of any registered tool with plain arguments meets all these conditions, and the guard speaks |
| LoopGuards.GuardsOnlyAppend | internal/agent/agent.go:1889-1892 | At most one guard speaks after a batch, and it only adds to the first result |
| Todo.PromoteNextPending | internal/agent/agent.go:1342-1354 | The in-place loops start the first pending item only if none is in progress |
| Todo.PromoteKeeps | internal/agent/agent.go:1342-1354 | Promotion never makes a second item in progress and leaves completed items and titles alone |
| Todo.AdvanceKeeps | internal/agent/agent.go:1307-1324 | A signed-off step never reverts a completed item, never starts a second one and keeps number, order and titles |
| TodoProgress.StepExactly | internal/agent/agent.go:1307-1354 | A step completes the item it means and starts the first pending one if and only if nothing else is in progress; nothing else changes, and a step that means no open item changes nothing |
| TodoProgress.PromotesExactly | internal/agent/agent.go:1342-1354 | Promotion starts the first pending item if and only if nothing is in progress |
| TodoProgress.RunMoves | internal/agent/agent.go:1307-1354 | Over any run of steps a list with something in progress, or any list from the first effective step on, never has a pending item while nothing is in progress |
| TodoProgress.CancelledReadsAsSuccess | internal/agent/agent.go:1426-1446 | Every call that a cancelled batch never ran is stored with a text that the rebuild takes for a success |
| Todo.TodoBoard.SetTodoState | internal/agent/agent.go:1264-1268 | Replaces the list |
| Todo.TodoBoard.AdvanceCanonicalTodo | internal/agent/agent.go:1307-1324 | The list after one signed-off step |
| Todo.FindBase | internal/agent/agent.go:1395-1406 | The nested loops find the last successful todo_write and its message |
| Todo.TodoBoard.RebuildTodoState | internal/agent/agent.go:1391-1424 | The list the transcript rebuilds to |
| TodoTheory.LiveMeaning | internal/agent/agent.go:1307-1324 | Live, the list is the last one written advanced by the completions after that write |
| TodoTheory.RebuildMeaning | internal/agent/agent.go:1391-1424 | Rebuilt, the completions before that write in its own message count as well |
| TodoTheory.IdsAreFaithful | internal/agent/agent.go:1426-1437 | With unique ids and exact result texts of list writes and completions, the ids marked successful are those of the writes and completions that succeeded |
| TodoTheory.RebuildAgreesWithLive | internal/agent/agent.go:1391-1437 | Both lists are given from one history; they are equal when no completion precedes the last write in its message |
| TodoAgreement.HistoryHasEarly | internal/agent/agent.go:1395-1416 | The history has early completions exactly if the transcript shows a successful one before the last successful write of its message |
| TodoAgreement.RebuildAgreesIff | internal/agent/agent.go:1391-1437 | With unique ids alone the two lists are equal for every way of reading arguments and matching steps if and only if the last write that reads as a success is the last that succeeded and the completions that read so from its message on are those that succeeded after it |
| TodoAgreement.RebuildAgreesExactly | internal/agent/agent.go:1391-1437 | With exact texts as well the condition is that no successful completion precedes the last write in its message |
| TodoAgreement.LostWriteIsRebuilt | internal/agent/agent.go:1426-1437 | The rebuilt list starts from a last write that was cancelled; the lists then agree for every reader only if the last write that succeeded had the same text |
| TodoAgreement.StepsTellApart | internal/agent/agent.go:1411-1423 | Different completions behind one write give different lists for some reader |
| TodoAgreement.SourcesTellApart | internal/agent/agent.go:1395-1423 | So do different writes, or a write against none |
| TodoTheory.EarlyCompletionDiffers | internal/agent/agent.go:1411-1423 | A completion in front of the write in one message makes the two lists differ |
| TodoTheory.CancelledWriteComesBack | internal/agent/agent.go:1426-1437 | A list write cancelled before it ran is resurrected by the rebuild |
| Checkpoint.CheckpointStore.constructor | internal/checkpoint/checkpoint.go:71-98 | A store over a directory holds its turns in order and no open turn |
| Checkpoint.CheckpointStore.Begin | internal/checkpoint/checkpoint.go:102-111 | Closes the open turn, opens a new one and persists it |
| Checkpoint.CheckpointStore.Snapshot | internal/checkpoint/checkpoint.go:132-154 | Records a path once per turn with content and encoding, or that it did not exist |
| Checkpoint.CheckpointStore.Bounds | internal/checkpoint/checkpoint.go:116-127 | Maps each turn to its message boundary |
| Checkpoint.CheckpointStore.NextTurn | internal/checkpoint/checkpoint.go:189-202 | One past the highest turn |
| Checkpoint.CheckpointStore.TruncateFrom | internal/checkpoint/checkpoint.go:233-264 | The in-place filter and the directory lose exactly the turns from the given one on |
| Checkpoint.CheckpointStore.RestoreCode | internal/checkpoint/checkpoint.go:270-322 | Every path gets its earliest record at or after the turn back, all others stay; a path that the guard or a file operation fails for is skipped; the two returned lists are exact, and an error is returned if and only if a recorded path failed |
| Checkpoint.PutBackAll | internal/checkpoint/checkpoint.go:290-320 | The loop over the recorded paths puts back, skips and reports each on its own |
| Checkpoint.FirstRecords | internal/checkpoint/checkpoint.go:273-286 | The map-building loops find the earliest record per path and list each path once |
| Checkpoint.Workspace.PutBack | internal/checkpoint/checkpoint.go:290-320 | One file is written, removed or left as the failure leaves it; no other changes |
| CheckpointTheory.ActionInv | internal/checkpoint/checkpoint.go:71-154 | Begin, tracked edits, rewinds and reloads keep the invariant linking records to turn-start states |
| CheckpointTheory.RestoreIsExact | internal/checkpoint/checkpoint.go:270-322 | Under the invariant a restore gives exactly the workspace at the start of the turn |
| CheckpointTheory.FaultsStayLocal | internal/checkpoint/checkpoint.go:290-320 | A restore in which some paths fail still puts every other file back exactly |
| CheckpointTheory.FaultLeaves | internal/checkpoint/checkpoint.go:290-320 | A path that fails keeps its state, or what the broken write left |
| CheckpointTheory.RestoreInEveryRun | internal/checkpoint/checkpoint.go:71-322 | In every run of begins, tracked edits, rewinds and reloads from the directory every restore is exact |
| CheckpointTheory.RewindForgets | internal/checkpoint/checkpoint.go:233-322 | After a turn, any actions and a rewind to it, workspace, checkpoints, directory and numbering are as if it had never begun |
| CheckpointTheory.ReloadAgrees | internal/checkpoint/checkpoint.go:79-127 | A store loaded from the directory at any point, in any listing order, agrees on list, bounds, next turn and every restore |
| CheckpointLists.ListTellsEveryRun | internal/checkpoint/checkpoint.go:102-231 | In every run of begins, edits, rewinds and reloads the list shows exactly the live turns with their prompts and the paths edited in each, the boundaries are those they were begun with, and the next number is theirs |
| Saving.MessagesHavePrefix | internal/agent/save.go:513-523 | The loop decides the prefix relation |
| Saving.CheckSnapshotWrite | internal/agent/save.go:201-246 | The verdict on a write and the kind of each conflict, branch by branch |
| Saving.ContinuesTransitive | internal/agent/save.go:525-536 | Continuing a log, leading system messages aside, is transitive |
| SaveRules.SavesExactly | internal/agent/save.go:132-246 | A save happens if and only if it is due; then transcript, sidecar and baseline all name the messages, under the next revision and this writer, and otherwise nothing changes and the error says why |
| SaveRules.RecoveryPathsDiffer | internal/agent/save.go:380-386 | The recovery file lies beside the original, and different digests have different files |
| SaveRules.RescueNeededExactly | internal/agent/save.go:263-326 | A rescue is made, not needed or fails to load exactly by what the user said and what the two files hold |
| SaveRules.RescueWriterExactly | internal/agent/branch.go:189-207 | The writer a rescue records |
| Saving.MetaRecord.PreservePersistence | internal/agent/branch.go:189-207 | The record written is the merge with the one on disk |
| Saving.SessionStore.RecordRevision | internal/agent/save.go:438-463 | The sidecar gets the next revision, which is returned |
| Saving.SessionStore.Save | internal/agent/save.go:132-172 | A save writes transcript, sidecar and baseline together, or changes nothing and says why |
| Saving.CountUserTurns | internal/agent/save.go:940-952 | Counts the user messages |
| Saving.SessionStore.SaveRecoveryBranch | internal/agent/save.go:263-341 | Outcome, disk and baseline of the rescue, exit by exit; between the check of the original and the lock of the recovery file the disk may change in any way |
| SavingTheory.AllowedWrites | internal/agent/save.go:201-246 | A write is allowed only on a missing file, to continue the content, or as the owner's rewrite of it; and only at the baseline's revision when content changes |
| SavingTheory.SoleWriter | internal/agent/save.go:201-246 | The only writer is never refused a rewrite, and a snapshot exactly when it does not continue the disk |
| SavingTheory.RecordRaises | internal/agent/save.go:438-463 | Recording raises the revision above both the disk's and the base, and reports the stored one |
| SavingTheory.MergeKeepsNewest | internal/agent/branch.go:189-207 | A merge keeps the record of the higher revision and is stable |
| SavingTheory.EveryWriteLegit | internal/agent/save.go:132-172 | In every interleaving of sessions, loads in two steps and saves in two steps under the lock: each write continues what it replaces or is forced or a rewrite of content its own session loaded or wrote; a session with a baseline changes content only if no save completed since; every save's revision is higher than the one found at the start and all before it |
| SavingTheory.SaveIsTwoHalves | internal/agent/save.go:132-172 | The transcript half and the sidecar half of a save, one right after the other, are one call of Save; a refused save only ends |
| SavingTheory.SnapshotsNeverLose | internal/agent/save.go:121-123 | In every interleaving what is on disk is continued by every later snapshot up to the next rewrite or forced save |
| SavingTheory.RecoveryLosesNothing | internal/agent/save.go:263-341 | A log with a user turn is on disk in full after the rescue, unless a file does not decode; no file but the recovery one is touched, whatever others write meanwhile |
| SavingTheory.RecoveryAfterConflict | internal/agent/save.go:263-341 | After a conflict a stale prefix is found on disk and a diverged log is stored |
| SavingTheory.RecoveryRepeats | internal/agent/save.go:312-326 | Repeating the rescue while nobody wrote the recovery file changes no content and no revision |
| SavingTheory.RescuedSessionGoesOn | internal/agent/save.go:312-341 | After a rescue the session's next rewrite or continuation in the recovery file is accepted and raises the revision |
| SavingTheory.RescueReplacesExactly | internal/agent/save.go:312-332 | Stored content is replaced by a rescue if and only if it lies in the recovery file and is another log, and lost if and only if the rescued messages do not continue it |
| SavingTheory.SecondRescueLosesContinuation | internal/agent/save.go:312-332 | A session is rescued and saves a longer log; the rescue of a second stale session with the first one's messages replaces it |
| SavingTheory.RescueSidecarExactly | internal/agent/branch.go:189-207 | After a rescue the revision is the old one or 1, and the digest is that of the rescued messages if and only if the revision was not above 1 or it was theirs already |
| SavingTheory.SidecarNamesLostExactly | internal/agent/branch.go:189-207 | The sidecar names content the rescue has lost if and only if the rescued messages do not continue it and the sidecar named it with a revision above 1 |
| SavingTheory.RescueGoesUnnoticed | internal/agent/save.go:201-246 | The session that wrote the replaced content keeps a matching baseline: its next save is accepted if and only if it continues the rescued messages |
| Lease.LeaseState.TryAcquireSessionLease | internal/agent/session_lease.go:53-80 | Run alone it acquires exactly if nobody has entry or lock and no file operation fails, as a run of the machine's steps; a failure restores entry and lock |
| Lease.LeaseState.Release | internal/agent/session_lease.go:89-100 | Run alone it removes info, lock and entry, as a run of the machine's steps |
| Lease.OneLease | internal/agent/session_lease.go:53-100 | In every interleaving with crashes and failing file operations at most one thread has the lock, and a held lease is the one the info file names |
| Lease.NoStrayEntry | internal/agent/session_lease.go:61-76 | In every interleaving a process's owner entry exists exactly while one of its calls is in progress or holds, so failed acquires leave none |
| Lease.FreeAgain | internal/agent/session_lease.go:89-100 | When nothing is in progress neither entries nor the lock are left |
| AcpPending.Conn.constructor | internal/acp/server.go:100-111 | A new connection has no request and is open |
| AcpPending.Conn.AddRequest | internal/acp/server.go:285-289 | A new id with its channel in the map |
| AcpPending.Conn.EndRequest | internal/acp/server.go:290-307 | Whatever ended the wait, the entry is gone |
| AcpPending.Conn.Resolve | internal/acp/server.go:250-267 | The channel is taken out of the map before the send; unknown ids change nothing |
| AcpPending.Conn.Shutdown | internal/acp/server.go:321-331 | Once, the channel is closed and then the pending requests are failed |
| AcpPending.Conn.FailAll | internal/acp/server.go:324-329 | In whatever order the map is walked, every registered channel gets one close error and the map is emptied |
| AcpPending.OneReplyEach | internal/acp/server.go:250-331 | In every interleaving, requests that come between the two halves of shutdown included, a channel gets at most one send, and a request returns only the reply with its own id (section 5 of the JSON-RPC 2.0 specification) |
| AcpPending.SendsNeverBlock | internal/acp/server.go:262-328 | In every interleaving a send finds its one-place channel empty |
| AcpPending.RequestsEnd | internal/acp/server.go:280-331 | In every interleaving, once the connection is closing each request has at most three steps of its own by which it returns |
| AcpPending.LateFrameIgnored | internal/acp/server.go:255-261 | A frame for an answered or returned request changes nothing |
| AcpSession.Session.constructor | internal/acp/service.go:151-171 | A new session is idle and not deleted |
| AcpSession.Session.Begin | internal/acp/service.go:173-186 | A turn begins exactly if none runs and the session is not deleted |
| AcpSession.Session.Finish | internal/acp/service.go:188-198 | Fields are cleared, then the turn's own channel is closed |
| AcpSession.Session.DeleteMark | internal/acp/service.go:222-227 | Marks the session and reads cancel and done in one section |
| AcpSession.Session.PersistAfterTurn | internal/acp/service.go:1088-1105 | Saves exactly if the session is not deleted |
| AcpSession.TurnsAndChannels | internal/acp/service.go:173-198 | In every interleaving at most one turn is active and each done channel is closed once, when its turn is over |
| AcpSession.NothingAfterDelete | internal/acp/service.go:222-234 | In every interleaving, once deleteAndWait has returned no turn is active, none ever begins and nothing is saved any more |
| AcpSession.WaitEnds | internal/acp/service.go:209-234 | A waiter can return, or waits for a turn that is active or about to close the channel |
| BotQueue.SessionManager.constructor | internal/bot/session.go:180-191 | Every key starts empty; a debounce that is not positive becomes 1500 ms |
| BotQueue.SessionManager.TryAcquireWithQueue | internal/bot/session.go:200-253 | Slot and result of an arriving message for every mode, cap and drop policy; no other key changes |
| BotQueue.SessionManager.DropOldest | internal/bot/session.go:219-231 | At the cap the oldest turn goes, with its summary if drops are summarised |
| BotQueue.SessionManager.EnqueueTurn | internal/bot/session.go:232-248 | The message joins the last turn inside the collect window or queues up |
| BotQueue.SessionManager.ReplacePending | internal/bot/session.go:255-265 | The newest message is all that waits |
| BotQueue.SessionManager.Release | internal/bot/session.go:268-309 | Hands out one turn, or all of them merged when the oldest collects, or frees the key |
| BotQueue.SessionManager.ConsumeDroppedPrefix | internal/bot/session.go:311-335 | The pending drops become one note in front of the text |
| BotQueue.SessionManager.ForceRelease | internal/bot/session.go:412-418 | The key is empty, whoever still runs |
| BotQueueTheory.NextGood | internal/bot/session.go:200-309 | Every operation keeps the invariant of queue, drops and ledger |
| BotQueueTheory.NothingLostOrReordered | internal/bot/session.go:200-335 | Over every run the accepted messages are, in arrival order and once each, those that left followed by those that wait; deliveries are exactly those that left as delivered, in order, each body the non-empty texts of its messages joined by line breaks; drops happen only at the cap; waiting turns or drops imply an active key |
| BotQueueTheory.EveryDropReported | internal/bot/session.go:219-335 | Without interrupts and forced releases nothing is discarded, and the drops made under "summarize" are those reported so far followed by those waiting to be |
| BotQueueTheory.NextReleaseReports | internal/bot/session.go:290-306 | The very next release reports all waiting drops |
| BotQueueTheory.NoteCountsDrops | internal/bot/session.go:311-318 | The number read back from a note in front of any text is the number of drops |
| BotQueueTheory.BulletsHold | internal/bot/session.go:319-327 | Each shown drop stands in the note on its own line |
| BotQueueTheory.OneTurnAtATime | internal/bot/session.go:200-309 | Without forced releases one caller holds the turn while the key is active and none otherwise |
| BotQueueTheory.ForceReleaseExactly | internal/bot/session.go:412-418 | A forced release keeps exclusion if and only if the key is not active |
| BotQueueTheory.OneTurnExactly | internal/bot/session.go:200-418 | Over any run one turn at a time throughout if and only if every forced release comes while the key is not active |
| BotQueueTheory.ForceReleaseBreaksExclusion | internal/bot/session.go:412-418 | One failing run for any messages and options: a second turn starts while the first unwinds |
| BotQueueTheory.QueueBounded | internal/bot/session.go:219-231 | With caps of at most c no more than c turns ever wait |
| BotArrivals.ArrivesExactly | internal/bot/session.go:200-253 | A message starts a turn, passes, is refused or waits exactly as running turn, slash command, cap and drop policy say, and the result says so |
| BotArrivals.ReleasesExactly | internal/bot/session.go:268-309 | A release hands out all groups if the last message of the oldest is collected, else the oldest, behind the note, and leaves the others; with none waiting the key is free |
| BotArrivals.EveryRunIsGrouped | internal/bot/session.go:219-309 | Over any run the waiting turns are the groups the arrivals make, and two messages that wait in a row share a turn if and only if the later one is to be collected, has a text and came within the window |
| BotArrivals.SummaryExactly | internal/bot/session.go:337-347 | A summary is the trimmed text, cut to 180 runes |
| BotArrivals.NoteShows | internal/bot/session.go:311-335 | The note shows the first three drops and how many more there were |
| Chunking.LastSemanticBoundary | internal/bot/render.go:286-323 | The forward scan with its counters returns the end of the last break within the limit |
| Chunking.LastBreak | internal/bot/render.go:286-323 | It is a break, within text and limit, and none follows it |
| Chunking.IndexForRuneLimit | internal/bot/render.go:334-346 | The limit or the end of the text, whichever comes first |
| Chunking.RenderFlushIndex | internal/bot/render.go:264-284 | With the caller's fallback it yields the specified cut; blank text and early calls yield none |
| Chunking.Cut | internal/bot/render.go:264-284 | The cut is positive, within 3500 runes, and a break, the soft limit or the end |
| Chunking.RenderSink.Flush | internal/bot/render.go:190-201 | The loop ends with the blank rest, having sent the messages of the pieces in order |
| Chunking.RenderSink.FlushPrefix | internal/bot/render.go:203-228 | Sends the trimmed prefix unless blank and drops it from the buffer |
| Chunking.PiecesAreTheBuffer | internal/bot/render.go:190-228 | The pieces in order and a blank rest are the whole buffer |
| Chunking.PiecesAreBounded | internal/bot/render.go:190-228 | Each piece lies where the ones before it end, is not empty, has at most 3500 runes and, above 1800, ends at a break |
| Chunking.NothingVisibleLost | internal/bot/render.go:190-228 | The messages carry every rune that is not white space, once and in order |
| Chunking.FlushBounded | internal/bot/render.go:190-228 | No message is blank, untrimmed or over 3500 runes |
| Chunking.ScanCutsFenceExactly | internal/bot/render.go:286-323 | For some limit the scan stops inside a fence if and only if a fence holds white space behind a line break or sentence end outside fences |
| Chunking.CutSplitsFenceExactly | internal/bot/render.go:264-284 | The cut lies in a fence if and only if the last break scanned is such white space, or no break is scanned and the soft limit lies in a fence |
| Chunking.FlushKeepsFencesExactly | internal/bot/render.go:190-228 | A flush closes every fence in front of each of its cuts, fences counted from the start of the buffer, if and only if no remaining text meets that guard |
| Chunking.FenceCanBeSplit | internal/bot/render.go:308-313 | A short text on which it happens |
| Lineage.EmptyIdAccepted | internal/agent/branch.go:97-130 | A record stored without an id is filled from the path and accepted exactly for a session whose name is not a path |
| Lineage.WalkAncestors | internal/agent/subagent_store.go:384-415 | The loop ends on every graph with the specified list or error |
| Lineage.CheckAncestor | internal/agent/subagent_store.go:658-688 | The loop ends on every graph with the specified verdict or error |
| Lineage.CheckDerives | internal/agent/subagent_store.go:417-435 | The loop ends on every graph with the specified verdict |
| Lineage.AncestorsAreTheChain | internal/agent/subagent_store.go:384-415 | A successful walk lists exactly the checked parent chain to a root, no session twice |
| Lineage.WalksAgree | internal/agent/subagent_store.go:658-688 | When the walk succeeds the test says yes exactly to the session itself and its ancestors; otherwise it has the same error or found the ancestor before |
| Lineage.DerivesIff | internal/agent/subagent_store.go:417-435 | On any graph the answer is yes exactly if the source is some number of links up the fork history |
| Subagents.ListSubagentsByParent | internal/agent/subagent_store.go:130-172 | The listing loop yields the specified references or error |
| Subagents.ListedFrom | internal/agent/subagent_store.go:130-172 | A reference is listed exactly if its decoded sidecar names the parent |
| Subagents.ListingFailsExactly | internal/agent/subagent_store.go:130-172 | The listing fails if and only if there is a parent to ask for and the directory cannot be listed or one of its sidecars cannot be read, whosever it is |
| Subagents.FindNearestSource | internal/agent/subagent_store.go:355-382 | The nested loops yield the specified source or error |
| Subagents.FindCopies | internal/agent/subagent_store.go:437-453 | The loop yields the specified copies or error |
| Subagents.CopiesAre | internal/agent/subagent_store.go:437-453 | The copies are exactly the listed runs forked from the source, all fit to continue |
| Subagents.CopyIsNear | internal/agent/subagent_store.go:343-349 | A copy belongs to the current conversation, which ends the recursion between continuing and copying |
| Subagents.SubagentStore.Lock | internal/agent/subagent_store.go:690-705 | Adds exactly a well-formed, free reference |
| Subagents.SubagentStore.PrepareFresh | internal/agent/subagent_store.go:232-250 | Locks are unchanged on error and otherwise grown by exactly the returned, formerly free reference |
| Subagents.SubagentStore.PrepareContinue | internal/agent/subagent_store.go:252-292 | The same lock property, with the specified run or error |
| Subagents.SubagentStore.PrepareFromAncestor | internal/agent/subagent_store.go:331-353 | The same lock property through the recursion |
| Subagents.SubagentStore.PrepareFork | internal/agent/subagent_store.go:455-505 | The same lock property; the source's lock is given back on every exit |
| Subagents.SubagentStore.PrepareLegacyForkFrom | internal/agent/subagent_store.go:294-329 | The same lock property |
| Subagents.SubagentStore.ValidateForkOwner | internal/agent/subagent_store.go:639-656 | The verdict on the source's owner |
| SubagentTheory.NearestSourceIs | internal/agent/subagent_store.go:355-382 | The source is finished, fits, is the requested run or derived from it, and belongs to the nearest ancestor that has such a run |
| SubagentTheory.SourceIsAccepted | internal/agent/subagent_store.go:639-656 | A source found along the ancestors always passes the owner check of a copy |
| SubagentTheory.FirstCopyFails | internal/agent/subagent_store.go:455-505 | Copying such a source fails if and only if it is locked, its transcript is unreadable, or the new reference is missing, malformed or locked |
| SubagentTheory.ContinueYields | internal/agent/subagent_store.go:252-353 | A prepared continuation belongs to the current conversation, has a free reference and starts from the run itself, its only copy here, or a new copy of the nearest source |

## Left out

- Strings: outside `BotQueue` and `Chunking`, where a char is one rune, a string is its bytes; white space and letter case are ASCII everywhere; texts are valid UTF-8 in `Chunking`.
- Costs: window fractions are integer thresholds and the token cost is a function of log and message, so floating-point rounding and the calibration of tokens per character are not modelled.
- Wording: prompts, digests and the mechanical digest are parameters (a digest starts with its opening tag).
- SummarizeFrom and SummarizeUpTo fold digests on purpose and are not modelled.
- Hooks, permission gates, streaming, the memory compiler, events to the user interface and previewed diffs.
- Message fields that no modelled step reads: reasoning, images, citations.
- Evidence: matching a step to an item and reading call arguments are functions of the text; lists the host seeds are not modelled.
- RunLoopTheory.TurnEnds: needs a positive step limit; without one the code promises no end.
- RunLoopTheory.IterationPairing: the grace-round exit leaves calls without results in the session, as the code does; `NormalizeTheory` has the repair of what is sent.
- NormalizeTheory.SentIsPaired: validity of JSON and the completion of a cut-off text are functions of the text (only `{}` need be valid); the order of results in a repaired session load is specified and not interpreted further.
- Batch.SchedulesAgree: does not order the receipts of one parallel segment among each other; the error text of calls that never ran is that of a cancelled context, not of a passed deadline.
- StormTheory.StormFiresExactly: batches that were cut short neither count nor interrupt, as in the code; the block on repeated identical writes belongs to the execution of one call and is left out.
- ReadGuardTheory.ReadGuardFiresExactly: registered names hold no NUL (built-in names are constants, those of servers are normalised, internal/plugin/plugin.go:1172-1193); decoding, compact form and digest are functions of the text, a raw NUL not decoding and digests being of one size; outputs with one digest are not told apart, as in the code.
- BatchRun.Batcher.RunParallel: calls end, and the context is cancelled, at the looks of the loops.
- MaintenanceRepeat.PruneTwice: repeating a prune is not always a no-op, see SecondPruneReachesTail.
- MaintenanceTheory.SnipRemembersBytes: byte counts from 2^63 on, which scanning would refuse, are not told apart.
- TodoAgreement.RebuildAgreesIff: needs unique call ids.
- CheckpointTheory.RestoreInEveryRun: assumes changes reported truthfully, canonical paths, turn numbers from NextTurn and rewinds without failing file operations (`FaultsStayLocal` has those); text and encoding of a file are stored as a pair, so encoding and decoding are taken to be inverse; the time stamp is left out.
- Version counters are unbounded, so the wrap-around of a 64-bit counter is not modelled.
- SavingTheory.EveryWriteLegit: content digests are injective, sidecars decode, other writers of the sidecar and the normalisation of damaged logs are left out; JSON equality of messages is equality. A rescue into the same file is no step of these runs; RescueReplacesExactly, SidecarNamesLostExactly and RescueGoesUnnoticed say what it changes.
- SavingTheory.RecoveryLosesNothing: fields of the recovery record besides revision, digest and writer are left out, and the record starts at revision 1.
- Lease.LeaseState.TryAcquireSessionLease: an empty path and a directory that cannot be made return before any step; releasing twice is excluded by the caller's position instead of a once flag.
- AcpPending.OneReplyEach: ids are unbounded, so the wrap-around of the id counter is not modelled; inbound requests and the framing of lines are left out.
- AcpSession.NothingAfterDelete: config changes after a turn and the title and time fields are left out.
- BotQueueTheory.NothingLostOrReordered: a merged message keeps the other fields of its first part, as in the code, so media of later parts are not delivered; one clock reading serves each arrival.
- BotQueueTheory.OneTurnAtATime: excludes forced releases, see OneTurnExactly; slash commands, which pass a busy key, hold no turn.
- Queue mode overrides, session keys and snapshots of counters in the bot.
- Subagents.SubagentStore.PrepareContinue: error texts are reduced to kinds; files do not change during one call; saving runs and cleaning up stale ones are left out.
- Path canonicalisation, workspace escape checks, directory creation and rename are not modelled.
