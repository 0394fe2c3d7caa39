# Models of the agent runtime's stateful engine

This project models the parts of the runtime whose correctness depends on state kept over many calls,
and proves what they keep over whole runs: the agent loop with its convergence guard, the bounded
conversation histories, the output cache and the two tools that page through it, the edit tool's
positioning, the message bus, the circuit breaker and the fact cache.

Every component has the same three layers. *Specification functions* say what one operation does to a
state. *Classes and methods*, in the form of the original (fields that are reassigned, loops, arrays that
are filled, critical sections), are proved equal to those functions. *Lemmas* then quantify over every
run: sequences of calls for the sequential components, arbitrary interleavings for the concurrent ones.
Whatever the runtime does not decide itself is an input: what the provider answers, what each tool call
returns and in which order the tools' goroutines proceed, file contents, command outputs, summaries, clocks.

Verify the project with `dafny verify dfyconfig.toml`.

| files | component |
|---|---|
| `Strings.dfy`, `Messages.dfy`, `ToolKinds.dfy` | text operations, the values that flow between provider, session and tools, and what each component takes a call for |
| `ReadTracking.dfy`, `Exploration.dfy`, `Convergence.dfy`, `RepeatedReads.dfy`, `GuardVerdicts.dfy` | the region-read tracker, the exploration budget and the guard automaton |
| `ToolRuns.dfy`, `RunLog.dfy`, `SessionLoop.dfy`, `RunFacts.dfy`, `RunTurns.dfy`, `LegacyRuns.dfy` | concurrent tool execution, one turn, the loop `Run`, and what every run promises |
| `History.dfy`, `HistoryFacts.dfy`, `HistoryBounds.dfy` | `CompressMemory` and `WindowMemory` |
| `OutputCache.dfy`, `ShellTool.dfy`, `ReadFileTool.dfy`, `ReadFileWalk.dfy` | the output buffer and its paging |
| `Whitespace.dfy`, `EditMatch.dfy`, `EditFile.dfy` | normalised matching, replacement and line insertion |
| `Bus.dfy`, `BusRuns.dfy`, `BusCalls.dfy` | bounded channels, queues, request/reply, publish/subscribe |
| `Breaker.dfy` | the circuit breaker |
| `FactCache.dfy` | the fact cache |

## Where the code does less than its comments say

The model follows the code. These are proved, each with the exact condition under which the documented
behaviour does hold, or with a family of inputs on which it does not:

- Storing an id again does not move it to the end: the stale position evicts the fresh entry
  (`StoreAsDocumentedIff`, `StoredIsCachedIff`).
- So a command that is run again can lose its output in storing, though it fits: following its next offsets
  then repeats the first page until the stale positions are used up (`FirstPageRepeats`, `PagesRebuildOutput`).
- A command output larger than the buffer is never cached, so following its next offsets returns the first
  page for ever (`PagingEndsIff`).
- A cached `read_file` page is cut with one default limit and its next offset computed with another
  (`ServedPageTilesIff`), so that reading a cached file of more than 700 lines without a limit skips lines
  (`ReadIsWholeIff`, `WalkRebuildsIff`); it also ignores `start_line`, by which the call is charged
  (`CachedPageIgnoresRange`, `LinesChargedIff`).
- `compress` can cut the recent zone to half the history, below `recentWindow` (`WindowHeldIffRoom`); kept
  messages are outside its bound (`BoundedIffNothingKept`); and it needs four messages, not three.
- A response that was cut off does use up a turn of the loop (`FinishedRunAddsUp` counts it).
- "One recovery read" per failed edit holds for all turns but those that mix a read with another call and
  neither mutate nor fail an edit: these never use the credit up (`OnlyMixedTurnsAreFree`,
  `MixedTurnsAreFree`).
- A nudge before the last region of a read leaves later regions uncounted (`CountsAreExactIff`,
  `NudgeMayComeLate`), and within one batch a nudge hides a later write (`BatchClearsIff`), after which the
  guard may refuse the first read of a region as a repeated one (`RefusalMayBeTheFirstRead`).
- A run stopped by the guard leaves tool calls unanswered, and the next run's input follows them directly
  (`SessionIsPairedIff`).
- Not only read-only calls cost exploration tokens: every call does except `grep`, and a failed edit is
  charged too (`BudgetLedger`, `FailedEditIsCharged`).
- The offset map of a whitespace-normalised match is right exactly for content without blanks at the edges
  of lines (`MapIsTrueIff`), and "exactly one match" overlooks overlapping ones (`OverlapGoesUnnoticed`).
- A block inserted after an unterminated last line is glued to it (`StartsLineIff`, `AppendedLines`).
- The half-open breaker probes the primary once per call that arrives after the cooldown, not once
  (`EveryLateCallProbes`).
- The guard, the loop and the read tracker each have a list of shell commands that change files, and the
  three differ: a command that only removes files is an edit for the guard, yet neither ends the
  exploration nor empties the read counters (`ListsDisagree`).
- Registering an endpoint again does not move its requests: new ones go to the new channel, and those sent
  or about to be sent to the first stay with whoever still reads it (`ReplacedEndpointIsLeft`).

## Model

| member | source | states |
|---|---|---|
| `ReadTracking.ReadTracker.Track` | read_tracker.go:30-67 | a batch is processed call by call; a write empties the counters and ends it, and so does the first nudge |
| `ReadTracking.ReadTracker.TrackRegions` | read_tracker.go:70-100 | the counters of the covered regions are incremented in order, up to the first that reaches the threshold |
| `ReadTracking.CountsAreSound` | read_tracker.go:15-67 | on any run no stored count exceeds the reads that really happened since the last write |
| `ReadTracking.NudgeIsJustified` | read_tracker.go:29-67 | a nudge names a region covered by the read, read at least three times since the last write |
| `ReadTracking.CountsAreExactWhileQuiet` | read_tracker.go:30-67 | until the first nudge after a write every stored count equals the true count and is below three |
| `ReadTracking.CountsAreExactIff` | read_tracker.go:30-99 | on any run the stored counts are the true ones if and only if every nudge since the last write came at the last region of its read |
| `ReadTracking.NudgeIsPrompt` | read_tracker.go:72-98 | while that holds, a read is nudged if and only if it brings a region to three |
| `ReadTracking.NudgeMayComeLate` | read_tracker.go:90-98 | an instance of the failing half: a region reaches three true reads without a nudge after one that came too early in its read |
| `ReadTracking.BatchIsAPrefix` | read_tracker.go:31-66 | tracking a batch equals tracking a prefix of it one call at a time: all of it, or up to its first write or nudge |
| `ReadTracking.BatchClearsIff` | read_tracker.go:31-63 | a batch with a write empties the counters if and only if no call before its first write is nudged |
| `ReadTracking.BatchNudgeHidesWrite` | read_tracker.go:36-62 | an instance of the failing half: a nudged read in front of a write in its batch |
| `ReadTracking.ChargedRegionsAreExact` | read_tracker.go:69-91 | the regions charged for lines a..b are exactly the 50-line buckets of those lines |
| `ToolKinds.KindByName` | session.go:171-178 | for all tools but the shell the guard, the loop and the tracker agree which two change files, and the three read tools are read-only, of which the tracker counts read_file alone |
| `ToolKinds.ShellKind` | read_tracker.go:46-59 | what each of the three takes a shell command for, by its own list of patterns |
| `ToolKinds.ListsDisagree` | exploration_budget.go:112-114 | commands that one of them takes for a change and another does not |
| `Exploration.ExplorationBudget.Consume` | exploration_budget.go:39-71 | the new budget state, for a batch with a successful mutation and for one without |
| `Exploration.BudgetLedger` | exploration_budget.go:37-94 | after any run, what is spent is the calls charged since the last successful mutation plus the repeated reads among them, between k and 2k; the nudge is active if and only if nothing remains |
| `Exploration.RepeatIsAThirdRead` | exploration_budget.go:56-59 | every double charge is for a region read at least three times since the last write |
| `Exploration.NudgeTellsWhatWasSpent` | exploration_budget.go:63-70 | the nudge carries what was spent when it was first given, and stays the same until the next refill |
| `Exploration.FailedEditIsCharged` | exploration_budget.go:40-60 | a failed edit costs a token and yet empties the read counters |
| `Convergence.CounterInvariant` | session.go:127-169 | over all runs the counter equals the trailing read-only turns, the recovery credit is 0 or 1, and a credit means the counter is 0 |
| `Convergence.ReadOnlySpansAreBounded` | session.go:111-113 | at most max(1, N - 1) consecutive executed turns are all read-only |
| `Convergence.BoundIsReached` | session.go:111-113 | for every N >= 1, without a budget, N - 1 searches are executed and the N-th is refused |
| `Convergence.EditIsRemembered` | session.go:130-147 | the flag is set if and only if some executed turn contained a successful mutation |
| `Convergence.NoReadAfterEdit` | session.go:101-104 | once a mutation has succeeded no later executed turn contains a read-only tool |
| `Convergence.RecoveryIsPaidFor` | session.go:105-110 | all-read-only turns executed under the exhaustion nudge, plus the credit left, never exceed the executed turns with a failed edit |
| `Convergence.OnlyMixedTurnsAreFree` | session.go:105-169 | all turns with a read executed under the exhaustion nudge, plus the credit left, never exceed the executed turns with a failed edit plus those nudged turns that mix a read with another call and neither mutate nor fail an edit |
| `Convergence.MixedTurnsAreFree` | session.go:105-107 | from any state with an open credit under the nudge, any sequence of such mixed turns is executed and leaves the credit open, under any enabled policy |
| `Convergence.MixedTurnsAreNotPaidFor` | session.go:105-107 | for every budget such a state is reached, so those turns are not bounded by the failed edits |
| `Convergence.OneWarningPerEdit` | session.go:114-123 | between two repeated reads that the guard lets pass there is an executed successful mutation |
| `GuardVerdicts.TurnByName` | session.go:127-140 | a turn is a successful mutation, a failed edit, or all reads exactly by the names and commands of its calls and the error flags of their results |
| `GuardVerdicts.CreditIff` | session.go:130-169 | over all runs the recovery credit is there if and only if an edit failed in an executed turn, with no successful mutation in that turn or later and no all-read-only turn since |
| `GuardVerdicts.BudgetFollowsTurns` | session.go:316-319 | the budget that the guard looks at is the one that has consumed exactly the executed turns |
| `GuardVerdicts.VerdictsFollowTheTurns` | session.go:87-125 | after all runs every verdict of the guard, and its absence, is the one that the policy gives for the turns executed before, what their calls cost, the accesses heard of, and the names of the calls |
| `GuardVerdicts.FlagsFollowTheTurns` | session.go:114-120 | a turn is let pass as the warned repeated read if and only if the policy asks for it, no earlier check applies, and none has been since the last successful mutation |
| `RepeatedReads.GuardCountsItsLog` | session.go:101-123 | over any runs the guard tracker's counts are those of the accesses it has looked at: none of an attempt that an earlier check decides, and none behind a nudge or write of its batch |
| `RepeatedReads.RepeatedReadIsJustified` | session.go:114-122 | an attempt refused as a repeated read contains, as the last access looked at, a region read three times since the last write looked at, and some executed turn with no successful mutation in or after it was a repeated read let pass |
| `RepeatedReads.AgreeingReadsAreReal` | session.go:101-123 | if, back to the last write the guard heard of, every executed write was heard of and nothing was refused as a repeated read, the guard counts no read that was not executed since the last executed write |
| `RepeatedReads.RefusalIsAThirdRead` | session.go:114-122 | then an attempt refused as a repeated read brings a region to three reads since the last executed write, counting executed turns and the attempt itself |
| `RepeatedReads.RefusalMayBeTheFirstRead` | read_tracker.go:31-63 | an instance without that agreement: a write hidden by a nudge of its batch, and the first read after it refused |
| `ToolRuns.ToolOutcome` | session.go:459-559 | the result carries the id of the call and is an error unless every check passes and the tool succeeds |
| `ToolRuns.FirstObjectionAnswers` | session.go:468-545 | the first of tool lookup, approval, sandbox and hook that objects is the answer; without an objection it is what the tool gives |
| `ToolRuns.GroupStep` | session.go:443-454 | every step of the goroutines keeps the schedule legal and within the concurrency limit |
| `ToolRuns.SomeoneCanStep` | session.go:443-454 | the group never deadlocks: while a tool is not done, some goroutine can move |
| `ToolRuns.StepOne` | session.go:443-454 | one step of whichever goroutine the scheduler picks keeps slots, events and schedule in agreement and leaves fewer steps to make |
| `ToolRuns.ExecuteTools` | session.go:439-456 | under any interleaving, slot i holds the outcome of call i, and the events are those of a complete legal schedule |
| `ToolRuns.InFlightIsBounded` | session.go:444-446 | with a positive limit never more tools than that have started and not finished |
| `ToolRuns.LimitIsUsed` | session.go:443-453 | as many tools as the limit allows can be under way at once |
| `ToolRuns.OnePairPerTool` | session.go:459-559 | in every complete schedule there is one start and one finish event per tool and no other |
| `SessionLoop.Session.constructor` | session.go:18-42 | a new session is at the guard automaton's initial state with no turns executed |
| `SessionLoop.Session.RecordToolUses` | session.go:67-85 | the metrics count each call in every category it belongs to |
| `SessionLoop.Session.ReadOnlyFlags` | session.go:92-100 | whether some, and whether all of at least one call are read-only |
| `SessionLoop.Session.GuardBeforeTools` | session.go:87-125 | the verdict and the new guard state, in the order of the checks |
| `SessionLoop.Session.NoteToolResults` | session.go:127-169 | the new guard state from the results, and the turn of the first edit |
| `SessionLoop.Session.FinishRun` | session.go:53-65 | the result carries the metrics, the guard reason and the text of the answer, and run_finished is the event appended |
| `SessionLoop.Session.LegacyChecks` | session.go:323-358 | without a budget: the abort after too many turns without a change, else the tracker's notice |
| `SessionLoop.Session.TakeTurn` | session.go:206-358 | one turn leaves the record that the provider's answer, the guard and the tools determine, with its events, messages and metrics |
| `SessionLoop.Session.Run` | session.go:181-368 | for every provider, tool set and schedule the final state is that of a legal log of turns, and the session stays at the state of the guard automaton after all attempts of all its runs, with their messages as its transcript; refused inputs change nothing |
| `SessionLoop.Session.Converse` | session.go:189-367 | one accepted run: its messages, events, metrics and result are those of a legal log of turns that ended as the result says |
| `RunLog.ReplayAttempts` | session.go:267-321 | a run takes the guard automaton through exactly the tool turns of its log |
| `RunFacts.FinishedRunIsFramed` | session.go:189-367 | run_started comes first, run_finished last and nowhere else, and the events in between balance |
| `RunFacts.EventsBalance` | session.go:206-349 | per measure: one start and one finish per executed tool, one response event with its usage per answer, one trigger per stop |
| `RunFacts.FinishedRunAddsUp` | session.go:200-367 | turns equal the provider calls and are at most maxTurns, usage is the sum over the responses, and the error is absent exactly for an answer or a guard stop |
| `RunFacts.ContinuationsAreBounded` | session.go:232-246 | at most three consecutive cut-off responses are continued |
| `Messages.ToolUsesAreTheBlocks` | provider.go:50-59 | the calls of an answer are its tool-use blocks, all of them, in order |
| `Messages.TextIsTheBlocks` | provider.go:40-48 | its text is that of its text blocks, one behind the other |
| `RunTurns.TurnsFollowTheAnswers` | session.go:206-286 | what becomes of every answer of a run: an error ends it, a cut-off answer is continued unless the three before it were too, one without tool-use blocks activates a skill or is the result, and the calls of any other are executed unless the guard has a reason against them |
| `RunTurns.EveryCallIsExecuted` | session.go:248-313 | an executed turn has one result for every tool-use block of the provider's answer, in order, and each is the outcome of that call |
| `RunTurns.OutcomesReachTheModel` | session.go:229-321 | in the messages of a finished run every answer whose calls were executed is followed by the outcomes of all its tool-use blocks, with content and error flag, in order |
| `RunTurns.MessagesFollowTheTurns` | session.go:229-357 | the messages of a run are, turn by turn, the answer and what it was replied to with |
| `RunTurns.EventsFollowTheTurns` | session.go:222-341 | the events of a run are, turn by turn and numbered from one, the response, the start and finish of the calls with their names and sizes in the order of the schedule, and what stopped the run |
| `RunTurns.CallsAreCounted` | session.go:67-85 | the counters of a session grow by the calls of their kind, executed or refused |
| `RunTurns.FirstEditIsFirst` | session.go:133-135 | the first edit turn is the first turn that executed an edit_file call with success |
| `RunTurns.StopIsCounted` | session.go:269-334 | a run has at most one trigger, in its last turn, which leaves its reason |
| `RunTurns.RunsEnd` | session.go:206-367 | every way a run can end, with its stop reason, its error and, for an answer, its text |
| `LegacyRuns.AbortsIff` | session.go:323-349 | without a budget an executed turn aborts the run if and only if it completes N executed turns in a row without a call that may change code |
| `LegacyRuns.QuietSpansAreBounded` | session.go:323-349 | so no run makes more than N of them in a row |
| `LegacyRuns.LegacyCountsItsLog` | session.go:352-357 | the counts of the tracker are those of the accesses it has looked at, over all runs |
| `LegacyRuns.NoticeIsJustified` | session.go:352-357 | a notice names a region read at least three times since the last write |
| `RunFacts.TranscriptIsPaired` | session.go:229-321 | within a run every assistant message with tool-use blocks is followed by one result for each of them, with its id, in order, unless it was cut off or is the last |
| `RunFacts.SessionIsPairedIff` | session.go:189-286 | over a session that holds if and only if no run but the last ended with tool calls that were blocked or cut off once too often, or the next input is the text that continues a cut-off answer |
| `RunFacts.SessionTranscriptIsPairedIff` | session.go:189-286 | the same for the transcript of a live session object, whatever runs it has been through |
| `RunFacts.SessionReadsAreBounded` | session.go:111-113 | the bound on read-only spans for a live session object, whatever runs it has been through |
| `History.MakeConfig` | memory_compress.go:50-65 | the defaults are 10 and 50, a window that reaches the limit becomes half of it, and legal arguments are taken as they are |
| `History.CutsAreInRange` | memory_compress.go:197-211 | for more than three messages both cuts are in range and something is left to compress |
| `History.CompressMemory.Add` | memory_compress.go:110-132 | the stored messages are those of the specification after one more addition |
| `History.CompressMemory.CompressHistory` | memory_compress.go:178-246 | the pre-pass, the split in three zones and the rebuilding, with the numbers of the messages each summary stands for |
| `HistoryFacts.CompressedShape` | memory_compress.go:178-246 | how many messages stay at either end: a tenth, at least one, and the recent window or the last tenth; or one and half of them if those leave nothing; in between one summary and the kept messages |
| `HistoryFacts.AdditionCompressesIff` | memory_compress.go:110-132 | an addition leaves a compressed history if and only if it exceeds the message limit or the token threshold |
| `History.CompressMemory.ShouldKeep` | memory_compress.go:250-257 | true exactly if some keep condition matches |
| `History.CompressMemory.ShouldDrop` | memory_compress.go:261-268 | true exactly if some drop condition matches |
| `History.WindowMemory.Add` | memory.go:48-53 | the window holds the last n messages |
| `HistoryFacts.KeptMessagesSurvive` | memory_compress.go:178-257 | after any run all messages matching a keep condition are stored, in the order added, even if they match a drop condition |
| `HistoryFacts.StoredIsASubsequence` | memory_compress.go:178-246 | with summaries erased, the stored messages are an order-preserving subsequence of those added |
| `HistoryFacts.HistoryIsConserved` | memory_compress.go:178-246 | every added message is stored, stands in one stored summary or was discarded: counted exactly once |
| `HistoryFacts.EveryMessageIsAccountedFor` | memory_compress.go:227-243 | without drop conditions every added message is stored or stands in exactly one stored summary |
| `HistoryFacts.DroppedDoNotSurvive` | memory_compress.go:179-190 | after a compression no zone holds a message that a drop condition takes, but for the new summary |
| `HistoryFacts.FirstMessageStays` | memory_compress.go:198-207 | the first message added stays first unless a drop condition takes it |
| `HistoryBounds.LengthIsBounded` | memory_compress.go:110-246 | without keep conditions that match, at most maxMessages + 2 messages are stored after any run, for every legal window and any drop conditions |
| `HistoryBounds.BoundedIffNothingKept` | memory_compress.go:110-246 | the bound holds on every run if and only if no message matches a keep condition |
| `HistoryBounds.BoundIsReached` | memory_compress.go:198-205 | window 17 of 18 messages holds 20 after twenty additions |
| `HistoryBounds.WindowIsHeld` | memory_compress.go:178-246 | with room for the first zone, the last recentWindow messages stored are those last added, after any run |
| `HistoryBounds.WindowHeldIffRoom` | memory_compress.go:198-205 | the last messages stored always equal a sliding window's if and only if max(1, (maxMessages + 1) / 10) + recentWindow <= maxMessages |
| `HistoryBounds.HalfWindowHasRoom` | memory_compress.go:198-205 | a window of at most half the limit satisfies that condition |
| `OutputCache.OutputBuffer.constructor` | output_buffer.go:30-38 | a new buffer is empty, with 50 MB when no positive limit is given |
| `OutputCache.OutputBuffer.Store` | output_buffer.go:43-68 | the buffer after storing and evicting, in terms of entries, order and size |
| `OutputCache.SizeIsExact` | output_buffer.go:43-68 | on any run of stores, repeated ids included, the size is the sum of the entry sizes, every cached id has a position, and the size is within the limit |
| `OutputCache.StoreEvictsOldest` | output_buffer.go:43-68 | storing replaces the entry of the id and adds a further position, also for an id that has one; then the positions at the front go, with their entries, exactly while the sizes exceed the limit |
| `OutputCache.CachesLongestFit` | output_buffer.go:43-68 | with distinct ids the cache is exactly the longest suffix of the log that fits, in order |
| `OutputCache.StoreAsDocumentedIff` | output_buffer.go:40-57 | for every cache within its limit, storing leaves the entries that updating and moving to the end would, for every content, if and only if the id has no position or every other entry has one ahead of its first |
| `OutputCache.StoredIsCachedIff` | output_buffer.go:50-67 | for every cache, what is stored survives if and only if it fits together with the entries that have no position ahead of the first one of its id |
| `OutputCache.CachedIffFits` | output_buffer.go:59-67 | for an id without a position that means fitting by itself; an output that does not empties the buffer |
| `OutputCache.RestoredNeedsRoom` | output_buffer.go:55-67 | of two ids, the first stored again survives if and only if both entries fit together, though alone it would fit |
| `OutputCache.LostUsesStale` | output_buffer.go:59-67 | each time a fitting output is lost in storing, a stale position is used up |
| `ShellTool.Shell` | tool/shell.go:25-98 | the reply and the buffer, from the buffer or from running the command |
| `ShellTool.CachedPageIsReturned` | tool/shell.go:31-45 | a positive offset into a cached output gives those lines, 200 without a limit |
| `ShellTool.OutputIsReturned` | tool/shell.go:47-97 | otherwise an error is reported and nothing stored; the trimmed output of a success is stored and its first lines are returned, whatever the offset |
| `ShellTool.PagesTile` | output_buffer.go:100-116 | the pages from an offset on, joined with newlines, are the rest of the text, and there are ceil(rest / limit) of them |
| `ShellTool.FollowServesPages` | tool/shell.go:32-45 | following the reported offsets through the buffer gives exactly those pages |
| `ShellTool.FirstPageRepeats` | tool/shell.go:31-97 | following the offsets of a command whose output fits gives the first page once for every loss in storing, at most as often as there are stale positions, and then all pages |
| `ShellTool.PagesRebuildOutput` | tool/shell.go:31-97 | for every cache, run before or not: following the offsets rebuilds the trimmed output, in ceil(total / limit) calls, if and only if it survives being stored or takes a single page |
| `ShellTool.FirstRunSurvives` | tool/shell.go:76-80 | for a command without a position in the buffer, surviving is fitting |
| `ShellTool.OversizedNeverEnds` | tool/shell.go:76-97 | an output too large for the buffer is answered with its first page at every offset |
| `ShellTool.PagingEndsIff` | tool/shell.go:31-97 | for every cache, following the offsets from 0 ends if and only if the output fits the buffer or one page |
| `ReadFileTool.ReadFile` | tool/read_file.go:24-114 | the reply and the buffer in every case: cached page, unreadable file, range, page, out of range |
| `ReadFileTool.NamedRangeIsReturned` | tool/read_file.go:58-77 | for every call with a range that the buffer does not answer, the reply is exactly the named lines as far as the file has them, or that the start is past the end |
| `ReadFileTool.EveryNamedLineIsReturned` | tool/read_file.go:58-77 | every line named by a forward range that the file has is returned |
| `ReadFileTool.PageIsReturned` | tool/read_file.go:80-113 | a call without a range gets the lines behind its offset, 500 without a limit, and the file is stored |
| `ReadFileTool.CachedPageIsReturned` | tool/read_file.go:29-46 | a positive offset into a cached text gives 200 lines without a limit, but a next offset 500 on |
| `ReadFileTool.CallIsChargedFor` | read_tracker.go:69-120 | the regions a call is charged for, in terms of its arguments |
| `ReadFileTool.BodyIsShown` | tool/read_file.go:56-106 | the body of a reply is exactly the lines it claims, and they are lines of the text |
| `ReadFileTool.ServedPageTilesIff` | tool/read_file.go:33-42 | a cached page and its next offset leave no gap and no overlap if and only if a limit is given or the rest fits 200 lines |
| `ReadFileWalk.WalkRebuildsIff` | tool/read_file.go:29-113 | following the offsets from any call for a page takes one call for each stride of lines, and the pages, from buffer or file, join to the rest of the text if and only if a limit is given, the buffer answers none of them, or the first it answers shows all that is left |
| `ReadFileWalk.ReadIsWholeIff` | tool/read_file.go:29-113 | from the start: always whole with a limit; without one, for a text that stays cached if and only if it has at most 700 lines, and for one too large for the buffer always |
| `ReadFileTool.LinesChargedIff` | tool/read_file.go:24-114 | for every call that returns lines, each lies in a charged region if and only if the call names lines and the regions of the returned ones lie between those of the named ones |
| `ReadFileTool.ReturnedLinesAreCharged` | tool/read_file.go:58-106 | every line returned lies in a region that the tracker charges, for a forward range and for a positive offset alone |
| `ReadFileTool.ReversedRangeChargedIff` | tool/read_file.go:63-71 | for a range that ends before it starts that holds if and only if both ends and the last line returned share a region |
| `ReadFileTool.CachedPageIgnoresRange` | tool/read_file.go:30-46 | a page from the buffer is the same whatever range is named, so its lines are charged if and only if it happens to lie within the regions of the range |
| `ReadFileTool.WholeFileChargesNoLine` | tool/read_file.go:86-113 | a call that names no lines is charged to the whole file and to no region |
| `Whitespace.NormalizeWhitespace` | tool/edit_file.go:129-135 | the array of lines rewritten in place and joined is the normalised text |
| `Whitespace.NormIsNormalize` | tool/edit_file.go:129-135 | normalising by lines and fields equals one pass over the characters |
| `Whitespace.NormalizedText` | tool/edit_file.go:127-135 | all characters but the white space within lines are kept in order, and of that only single spaces between two others |
| `EditMatch.CountIsOneIff` | tool/edit_file.go:147-149 | the count is one exactly if there is an occurrence and every other overlaps the first |
| `EditMatch.CountIsMost` | tool/edit_file.go:147-149 | the count is the largest number of occurrences no two of which overlap |
| `EditMatch.OverlapGoesUnnoticed` | tool/edit_file.go:147-149 | an overlapping second occurrence is not counted |
| `EditMatch.BuildMap` | tool/edit_file.go:154-173 | the array holds, for every normalised offset, the offset the walk has reached |
| `EditMatch.FindNormalizedMatch` | tool/edit_file.go:140-176 | found exactly for a non-empty pattern counted once, with the mapped offsets of its first occurrence |
| `EditMatch.WalkIsMonotone` | tool/edit_file.go:160-173 | for every content the map is monotone and stays within the content |
| `EditMatch.MapIsTrueIff` | tool/edit_file.go:160-173 | the map gives every normalised character its true origin if and only if the content has no blanks at line edges and only spaces and tabs inside runs |
| `EditMatch.MatchIsFaithful` | tool/edit_file.go:137-176 | in such content the text designated by a match normalises to the normalised pattern |
| `EditMatch.IndentedMatchIsNot` | tool/edit_file.go:160-173 | in an indented line the designated text is the indentation |
| `EditFileTool.InsertAtLine` | tool/edit_file.go:84-125 | the text with the block inserted at the start of a line, or the refusal; the range check never fires |
| `EditFileTool.InsertionIsPlaced` | tool/edit_file.go:84-125 | line by line, for every content, block and pair of line numbers: after line a the first a lines stay in front, before line b the first b - 1, behind the last line the block goes on with it, and anything else is refused |
| `EditFileTool.InsertedLines` | tool/edit_file.go:95-124 | lines before the point keep their number, the block's lines follow, and the others move down by the block's newline count |
| `EditFileTool.AppendedLines` | tool/edit_file.go:99-103 | inserting after the last line glues the block's first line to it |
| `EditFileTool.StartsLineIff` | tool/edit_file.go:95-124 | the block begins at a line start if and only if it does not go after an unterminated last line |
| `EditFileTool.InsertionUndone` | tool/edit_file.go:84-125 | deleting as many lines as were inserted, behind line a or from line b on, restores the content |
| `EditFileTool.EditFile` | tool/edit_file.go:36-78 | insertion, exact replacement of a unique old_string, whitespace-normalised replacement of a one-line one, or the refusal |
| `EditFileTool.ReplacesIff` | tool/edit_file.go:46-73 | a replacement is made if and only if old_string occurs once up to overlaps, or not at all but in one line and once up to overlaps in normalised form; otherwise the error tells the largest number of separate occurrences |
| `EditFileTool.ReplacementIsLocal` | tool/edit_file.go:50-76 | a replacement changes one range; what it removes is the first occurrence of old_string, or, in aligned content, normalises to the same |
| `EditFileTool.UndoIff` | tool/edit_file.go:67-71 | swapping old and new restores the text if and only if new_string is then counted once and first occurs where it was written |
| `Bus.MessageBus.CreateQueue` | bus.go:142-152 | a new queue gets a channel, an existing one is left alone |
| `Bus.MessageBus.Register` | bus.go:92-102 | the endpoint's channel is new, also when the name was registered before |
| `Bus.MessageBus.Subscribe` | bus.go:41-51 | the topic gets one more subscriber channel |
| `Bus.MessageBus.Publish` | bus.go:55-71 | the channels after offering the message to every subscriber in turn, and the number that took it |
| `Bus.MessageBus.OpenRequest` | bus.go:106-116 | the endpoint's channel and an envelope with a fresh reply channel of capacity one, or nothing |
| `BusRuns.LookUpStaysValid` | bus.go:157-163 | the channel that Push and Pull look up stays the queue's, and no other queue, endpoint or topic gets it, whatever happens before it is used |
| `Bus.MessageBus.TrySend` | bus.go:165-170 | the envelope is put behind those waiting if there is room; else nothing changes |
| `Bus.MessageBus.TryTake` | bus.go:184-189 | the envelope waiting longest is taken, if there is one |
| `BusRuns.QueueLenIsBacklog` | bus.go:193-203 | in any run the length reported is the number of tasks pushed less the number pulled |
| `Bus.MessageBus.TryReply` | bus.go:133-137 | the reply is put on the envelope's reply channel if there is room, addressed back to the sender |
| `Bus.PublishReaches` | bus.go:60-69 | every subscriber with room gets the message once, behind what it has not read, and no other channel changes |
| `Bus.PublishCounts` | bus.go:61-70 | the number reported is the number of subscribers that had room |
| `BusRuns.StepKeeps` | bus.go:41-190 | every step of any goroutine keeps the invariant: capacities, table entries, channel flows, and what each send and receive rests on |
| `BusRuns.QueueIsFifo` | bus.go:139-190 | for any producers, workers and interleaving, what was pushed to a queue is what was pulled followed by what is waiting, at most its capacity; creating it again loses nothing |
| `BusRuns.ReturnedWasReplied` | bus.go:106-137 | an envelope that Request receives was sent by Reply on that very request, from the one asked to the one asking, after a responder took it from the endpoint the call had looked up |
| `BusCalls.ReturnedWasGiven` | bus.go:104-137 | over the steps of any run: a payload that Request returns is the one given to Reply, by a responder that had received the very payload given to that Request |
| `BusCalls.PulledWasGiven` | bus.go:154-190 | a task that Pull returns was given to Push for that queue, by that sender and with that payload |
| `BusCalls.OperationsBlockIff` | bus.go:118-189 | a call goes through exactly if its channel has room, or something in it, and then receives what has waited longest |
| `BusCalls.NewChannels` | bus.go:41-152 | the capacities asked for or the defaults, an empty channel for every new one, and nothing else changed |
| `BusCalls.SubscribersHear` | bus.go:41-71 | whoever has subscribed gets what is published on the topic whatever happens in between, as long as there is room |
| `BusRuns.OneReturnPerRequest` | bus.go:115-137 | no request returns twice, and Reply goes through exactly while no earlier reply is uncollected |
| `BusRuns.ReplacedEndpointIsLeft` | bus.go:92-111 | after a second Register no new request ever goes to the first channel |
| `Breaker.CircuitBreaker.constructor` | circuit_breaker.go:34-42 | a new breaker is closed, with a limit of three failures and a cooldown of five minutes |
| `Breaker.CircuitBreaker.Enter` | circuit_breaker.go:45-51 | the state after the decision, and whether the primary is used |
| `Breaker.CircuitBreaker.RecordFailure` | circuit_breaker.go:68-76 | the failure is counted and timed, and opens the circuit from number maxFailures on |
| `Breaker.CircuitBreaker.RecordSuccess` | circuit_breaker.go:78-83 | the circuit is closed and the count zero |
| `Breaker.CircuitBreaker.Compact` | circuit_breaker.go:44-66 | one undisturbed call: its result and the new state |
| `Breaker.CallIsItsEvents` | circuit_breaker.go:44-66 | an undisturbed call is the decision followed by the recording of its outcome, in any history |
| `Breaker.CallsDecide` | circuit_breaker.go:44-83 | after any calls, successful ones included, the circuit is closed if and only if fewer than maxFailures runs of the primary failed in a row, and the next call runs the primary if and only if it is or the last failure is more than the cooldown ago |
| `Breaker.StateMeans` | circuit_breaker.go:44-83 | for any positive limit and cooldown, under any interleaving the circuit is closed if and only if fewer than maxFailures failures have been recorded since the last success, and half open only after the cooldown |
| `Breaker.PrimaryIff` | circuit_breaker.go:45-55 | under any interleaving a call runs the primary if and only if that is so or the last failure is more than the cooldown ago |
| `Breaker.EveryLateCallProbes` | circuit_breaker.go:46-58 | of a tripped breaker every call after the cooldown runs the primary until an outcome is recorded |
| `Breaker.FailingPrimaryIsSpared` | circuit_breaker.go:44-76 | for any positive limit and cooldown, without overlap an always failing primary has run at most maxFailures + (T - openTime) / cooldown times by time T |
| `FactCache.SessionFactCache.AddFact` | session_fact_cache.go:143-184 | the facts and the index after one addition |
| `FactCache.CacheIsSound` | session_fact_cache.go:143-184 | after any run contents are distinct, the index is exactly their set, and the total and every category are within their limits |
| `FactCache.AddedLast` | session_fact_cache.go:151-183 | a new fact comes last, at most one old fact is gone, the oldest of its category if that is full and else the oldest of all, the others keep their order, and none is gone exactly if both limits leave room |
| `FactCache.DuplicateIsIgnored` | session_fact_cache.go:147-149 | a fact whose content is in the cache changes nothing |
| `FactCache.CategoryLimits` | session_fact_cache.go:136-155 | the four categories with a limit of their own, and no others |
| `FactCache.CategoriesAreRecent` | session_fact_cache.go:164-180 | of every category the cache holds a suffix of the facts accepted, in order |
| `FactCache.CategoriesAreFull` | session_fact_cache.go:151-180 | until more than maxFacts facts were accepted, that suffix is as long as the category's limit allows |

## Left out

- Providers, MCP and LSP transports, webhooks, the dashboard, the CLI, sandboxes, search and retries: I/O, process and floating-point code.
- `RunStream` and `streamStep`, which bypass the guard.
- Hooks other than the one that can block a tool call, sub-agents, rate limiting, skills beyond the effect of a match on the loop, fact extraction and output summarising inside the session.
- Texts of notices, previews and errors, timestamps and run ids; nudges are data with the numbers that appear in the texts. The output of a run is modelled for an answer; the notice that stands for it in the other endings is not.
- JSON decoding and regular expressions: a tool input carries the outcome of the decodings, and of the path extraction from a shell command.
- The session's memory inside `Run` is its transcript of added messages; what a memory keeps of them is modelled in `History`.
- Whether the token estimate exceeds its threshold is an arbitrary input of every addition to a history; the float product behind it is not modelled.
- White space outside ASCII, and the difference between bytes and characters in offsets.
- Overflow of 64-bit integers in `offset + limit` and in counters.
- A context without an output buffer, in which the two tools neither store nor page from the cache.
- Resetting the exploration budget empties its tracker in place, where the original makes a new one; a missing budget or tracker is a flag.
- File reading and writing, path checks and the similar-content hint in the edit tool.
- `Unsubscribe`, and Publish interleaved with it: closing a channel while a message is being sent to it.
- The cancellation of a context is a step that may happen at any time; deadlines are not modelled.
- Extraction of facts from tool outputs and their rendering.
- `RecoveryIsPaidFor`: speaks of turns that only read; `OnlyMixedTurnsAreFree` covers all turns with a read.
- `NudgeIsPrompt`: assumes exact counts; `CountsAreExactIff` says when they are.
- `AgreeingReadsAreReal`: one direction; without its condition the counts can still agree by accident.
- `GetPage` of the output buffer, which the tools do not use.
- `MatchIsFaithful`: one direction; content outside its condition can still give a right match by accident.
- `FactCache.SessionFactCache.AddFact`: not defined for a cache of size zero or less, where the original would index an empty list.
