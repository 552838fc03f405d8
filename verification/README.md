# Conversation compaction, verified

A Dafny model of the code that repairs, trims, summarises and rebuilds an agent's
conversation, and of four stateful cores beside it. `dafny verify dfyconfig.toml` checks
everything.

## What is modelled

A conversation is a sequence of system, user, assistant, tool-result, backend-call and
reasoning items. Providers accept a tool result only in the contiguous run right behind the
assistant that declares its call id. Most passes over a conversation exist to establish that
rule or must not break it.

| files | what they cover |
|---|---|
| `Text`, `Utf8`, `Decimal`, `Wrappers` | the string and byte operations of Rust's standard library that the code calls, with the facts about them |
| `Conversation`, `HistoryRepair`, `HistoryPasses`, `HistoryPassLaws`, `HistoryReport` | the pairing rules, `repair_history`, its three in-place passes, what each achieves alone, and the repaired history and report read off the input |
| `Truncation`, `BudgetFit`, `BudgetFitLaws` | trimming to a token budget, byte-exact truncation, and what each branch returns |
| `CompactSummary`, `SummaryShapes`, `SummaryBranches`, `SummaryPeeling` | cleaning the model's summary, and what survives of it in every branch |
| `UserQuery`, `UserQueryLaws`, `StripTwice`, `StripOnce`, `CompactedHistory` | user queries and real user turns, extraction of recent messages, assembly, validation and sanitizing of a compacted history |
| `SummarizationPrep` | the views of a conversation sent to the summarizer and the segment store |
| `LineReader`, `LineReaderRuns`, `LineReaderBytes` | the cancel-safe line reader: task, bounded channel and poller, all their runs, and which byte streams are readable |
| `Interner` | the arena string interner |
| `UsageLedger`, `UsageCalls`, `UsageOrder`, `UsageNesting`, `UsageLimits` | the billing ledger, what it shows of the recorded calls, when the order of recording matters, column sums and nesting, and exactly which costs they need |
| `AgentDiscovery`, `AgentEntries` | discovery, merge and resolution of agent definitions, and the entries of the visible list |
| `SegmentNames`, `SegmentTranscript`, `SegmentLayout` | segment files: names, paths, byte budget, layout |

Code that edits a list, a buffer or a table in place is a class or a method with loops,
proved against a specification function; the theorems are about those functions.

## Where the code and its comments differ

- `repair_history` is called idempotent. An assistant that declares one id twice and gets no
  answer for it receives two synthetic results, and the next repair removes one of them. The exact
  condition is `HistoryRepair.IdempotentIff`.
- `truncate_text_to_bytes` speaks of text within `max_bytes`. The marker takes 56 bytes and
  the digits of the dropped count, so short bounds are exceeded (`Truncation.WithinBoundIff`).
- `strip_system_tags` is one pass per tag in a fixed order; removing a later tag can create
  an earlier one (`StripTwice.StripIsNotIdempotent`). On texts in which no tag is broken
  off by another one run is enough (`StripOnce.UnbrokenTextsStripOnce`); for a text with one block the exact
  condition is `StripOnce.OneBlockIff`.
- `truncate_trailing_incomplete_tool_call` leaves a last turn alone of which only some calls
  are answered (`SummarizationPrep.PartlyAnsweredStays`).
- The subagent list promises that what is visible can be called. A user-level or bundled file
  named like a built-in that is no subagent is shown and resolves to the built-in
  (`AgentDiscovery.VisibleIffCallable`). Files are shown under the name they declare and looked
  up by their stem, so a misnamed file is shown and does not resolve
  (`AgentDiscovery.MisnamedNotCallable`); the exact conditions are
  `AgentDiscovery.DiscoveryFindsIff` and `AgentDiscovery.ResolvesIff`.
- A segment is said to stay under its cap. The line breaks between turns are not counted
  (`SegmentTranscript.CapExceeded`); the exact condition is `SegmentTranscript.WithinCapIff`.
- The interner casts offsets to 32 and lengths to 16 bits without a check; the refinement
  needs strings below 2^16 bytes, and arena and count of distinct strings within 32 bits
  (`Interner.ReadBackIff`).

## Model

| member | source | states |
|---|---|---|
| HistoryRepair.PassesRepair | crates/codegen/ainxt-chat-state/src/compaction_utils.rs:970-984 | the three passes in their order (dedup, strict strip, backfill) compute the same history as a one-pass, block-by-block repair, for every history |
| HistoryRepair.RepairedIsPaired | crates/codegen/ainxt-chat-state/src/compaction_utils.rs:985-995 | after the repair every result lies in the contiguous run right behind an assistant that declares its id |
| HistoryRepair.RepairCompletesIff | crates/codegen/ainxt-chat-state/src/compaction_utils.rs:963-984 | after the repair every call has exactly one result in its run, if and only if no assistant declares an id twice that its run leaves unanswered |
| HistoryRepair.UnchangedIffComplete | crates/codegen/ainxt-chat-state/src/compaction_utils.rs:963-984 | the histories the repair leaves alone are exactly the complete ones: no stray result, one result per call |
| HistoryRepair.IdempotentIff | crates/codegen/ainxt-chat-state/src/compaction_utils.rs:963-970 | the documented idempotence holds exactly under that same condition on the history before the repair |
| HistoryRepair.NotAlwaysIdempotent | crates/codegen/ainxt-chat-state/src/compaction_utils.rs:963-970 | a concrete history, one assistant with one id declared twice, on which a second repair still changes something |
| HistoryRepair.RepairKeepsOthers | crates/codegen/ainxt-chat-state/src/compaction_utils.rs:970-984 | everything that is not a tool result survives, unchanged and in order |
| HistoryRepair.RepairedRunMembers | crates/codegen/ainxt-chat-state/src/compaction_utils.rs:963-984 | a repaired run holds exactly the last answer of every answered call and a synthetic result for every other call |
| HistoryRepair.RepairedRunCount | crates/codegen/ainxt-chat-state/src/compaction_utils.rs:963-984 | how often each id is answered in a repaired run: never if undeclared, once if it was answered, once per declaration otherwise |
| HistoryRepair.RunUnchanged | crates/codegen/ainxt-chat-state/src/compaction_utils.rs:970-984 | the repair of a run is the identity on exactly the complete runs |
| HistoryRepair.ReportTellsChange | crates/codegen/ainxt-chat-state/src/compaction_utils.rs:945-963 | the report says "changed" if and only if the repair changed the history |
| HistoryRepair.StripKeepsOwned | crates/codegen/ainxt-chat-state/src/compaction_utils.rs:985-1022 | the strict strip keeps a result if and only if it has an owner, and reports the ids of the others in order |
| HistoryRepair.KeepLastMembers | crates/codegen/ainxt-sampling-types/src/conversation.rs:2913-2981 | a deduplicated run holds exactly the results that are the last for their id |
| HistoryRepair.CountKeepLast | crates/codegen/ainxt-sampling-types/src/conversation.rs:2913-2981 | and each id that had a result keeps exactly one |
| HistoryReport.KeepLastIs | crates/codegen/ainxt-sampling-types/src/conversation.rs:2913-2981 | deduplication of a run keeps, position by position and in order, the last result of every id |
| HistoryReport.RepairedRunIs | crates/codegen/ainxt-chat-state/src/compaction_utils.rs:963-984 | a repaired run: the last answers to the declared calls in their order, then a halted-text answer for every other call in call order |
| HistoryReport.RepairedIs | crates/codegen/ainxt-chat-state/src/compaction_utils.rs:970-984 | the whole repaired history read off the input: every item that is no result, followed by its own last answers and by a synthetic answer for each of its other calls |
| HistoryReport.ReportIs | crates/codegen/ainxt-chat-state/src/compaction_utils.rs:945-984 | the three figures of the report read off the input: results behind calling assistants whose id comes back later in the run; the ids of the results without an owner after deduplication, in order; calls without a result in the run behind them |
| HistoryReport.CountsAreZero | crates/codegen/ainxt-chat-state/src/compaction_utils.rs:945-984 | no duplicate is reported exactly if no such run answers an id twice, and no synthetic result exactly if the input leaves no call dangling, whatever the first two passes remove |
| HistoryReport.HaltedTextNames | crates/codegen/ainxt-sampling-types/src/conversation.rs:2900-2911 | the text of a synthetic answer names the tool: two tools get the same text only if they have the same name |
| HistoryPassLaws.DedupLeavesUnique | crates/codegen/ainxt-sampling-types/src/conversation.rs:2913-2981 | after deduplication no id has two results in the run behind a calling assistant |
| HistoryPassLaws.DedupUnchangedIff | crates/codegen/ainxt-sampling-types/src/conversation.rs:2913-2981 | deduplication changes a history if and only if some such run has two results for one id |
| HistoryRepair.StripBlock | crates/codegen/ainxt-chat-state/src/compaction_utils.rs:996-1022 | the ids of one run do not leak into the next: a block is stripped on its own |
| HistoryPassLaws.BackfillAnswers | crates/codegen/ainxt-sampling-types/src/conversation.rs:2799-2859 | after the backfill no call is left without a result in the run behind it |
| HistoryPassLaws.BackfillUnchangedIff | crates/codegen/ainxt-sampling-types/src/conversation.rs:2799-2872 | the backfill changes a history if and only if a call is left dangling, which is what the read-only check promises to decide |
| HistoryPasses.HasDanglingToolCalls | crates/codegen/ainxt-sampling-types/src/conversation.rs:2861-2898 | the read-only check says whether some call has no result in the run behind it |
| HistoryPasses.History.RepairHistory | crates/codegen/ainxt-chat-state/src/compaction_utils.rs:970-984 | the in-place repair leaves the repaired history, and its report counts the repeated results, names the displaced ones and counts the unanswered calls of the history before |
| HistoryPasses.History.DedupDuplicateToolResults | crates/codegen/ainxt-sampling-types/src/conversation.rs:2926-2981 | the in-place pass that removes positions highest first and rescans computes the deduplicated history and the number removed |
| HistoryPasses.History.RemoveStale | crates/codegen/ainxt-sampling-types/src/conversation.rs:2953-2966 | removing the recorded positions from the back leaves exactly the last result of every id |
| HistoryPasses.FindStale | crates/codegen/ainxt-sampling-types/src/conversation.rs:2941-2953 | the positions recorded with the map of last indices are exactly those whose id comes back later in the run |
| HistoryPasses.History.StripDisplacedToolResults | crates/codegen/ainxt-chat-state/src/compaction_utils.rs:996-1022 | one retaining pass with a set of current ids computes the strict strip and the stripped ids in order |
| HistoryPasses.History.RepairDanglingToolCalls | crates/codegen/ainxt-sampling-types/src/conversation.rs:2799-2859 | a forward scan that records insertions, applied from the back, computes the backfilled history and the number inserted |
| HistoryPasses.FindPatches | crates/codegen/ainxt-sampling-types/src/conversation.rs:2803-2850 | the recorded insertions are in order and, applied, give the backfilled history |
| Conversation.PairedScan | crates/codegen/ainxt-chat-state/src/compaction_utils.rs:985-995 | the adjacency rule stated by positions and owners is decided by a left-to-right scan |
| Conversation.CompleteBlock | crates/codegen/ainxt-chat-state/src/compaction_utils.rs:963-995 | a conversation is complete if and only if every assistant with the run behind it is |
| BudgetFit.FitKeepsPairing | crates/codegen/ainxt-chat-state/src/compaction_utils.rs:128-194 | for every estimate and budget, a conversation whose results all sit behind their owners keeps that property in every branch |
| BudgetFit.FitKeepsComplete | crates/codegen/ainxt-chat-state/src/compaction_utils.rs:128-194 | and a complete conversation stays complete: no kept call loses its result |
| BudgetFit.FitConversationToBudget | crates/codegen/ainxt-chat-state/src/compaction_utils.rs:128-161 | the loops over the remaining budget and the start index compute the fitted conversation (what that is: the `BudgetFitLaws` rows) |
| BudgetFit.FindSuffix | crates/codegen/ainxt-chat-state/src/compaction_utils.rs:141-151 | the backward loop finds the start of the affordable suffix |
| BudgetFit.RecoverTruncatedTailUnit | crates/codegen/ainxt-chat-state/src/compaction_utils.rs:163-194 | popping the trailing results and their owner computes the recovered tail |
| BudgetFit.SuffixIsLongest | crates/codegen/ainxt-chat-state/src/compaction_utils.rs:141-151 | the greedy backward search finds the longest affordable suffix: every longer one is too dear |
| BudgetFit.SuffixBranch | crates/codegen/ainxt-chat-state/src/compaction_utils.rs:132-160 | in the suffix branch the result is the system head and the longest affordable suffix of the body without its leading results; it does not start its body with a result and costs at most the budget, or the head if that alone is dearer (`BudgetFitLaws.TailKept` says it without the budget) |
| BudgetFit.TailBranch | crates/codegen/ainxt-chat-state/src/compaction_utils.rs:163-194 | in the truncated-tail branch the owner is untouched and the trailing results keep ids, order and images, all cut to the same share |
| BudgetFit.TailBytes | crates/codegen/ainxt-chat-state/src/compaction_utils.rs:163-240 | those results take at most max(4 * budget, 64 * n) bytes when each text is below 10^8 bytes |
| BudgetFit.TrailingOwner | crates/codegen/ainxt-chat-state/src/compaction_utils.rs:163-180 | in front of a paired trailing run stands the owner of its results, so the popped unit is whole |
| BudgetFitLaws.WithinLimit | crates/codegen/ainxt-chat-state/src/compaction_utils.rs:128-136 | a conversation within the limit comes back as it is |
| BudgetFitLaws.TailKept | crates/codegen/ainxt-chat-state/src/compaction_utils.rs:137-157 | above the limit, in terms of the estimates and the limit alone: the head and, of the longest tail affordable beside it, what follows its leading results, unchanged |
| BudgetFitLaws.KeepsAffordable | crates/codegen/ainxt-chat-state/src/compaction_utils.rs:137-157 | if the conversation from some item on that is no result fits beside the head, at least that much is kept unchanged, with or without a system head |
| BudgetFitLaws.LastItemCut | crates/codegen/ainxt-chat-state/src/compaction_utils.rs:158-175 | a last item that is no result and does not fit is kept alone behind the head, each of its texts cut to four bytes a token of what the head leaves |
| BudgetFitLaws.ResultsCut | crates/codegen/ainxt-chat-state/src/compaction_utils.rs:158-194 | trailing results that do not fit with the item in front of them: the head, their calling assistant untouched, and every result cut to an equal share of what is left, rounded down but never below one token |
| BudgetFitLaws.HeadAlone | crates/codegen/ainxt-chat-state/src/compaction_utils.rs:137-166 | a system item alone, or nothing, is never cut |
| BudgetFitLaws.ItemIsCut | crates/codegen/ainxt-chat-state/src/compaction_utils.rs:195-222 | cutting an item cuts its own texts and keeps ids, calls, images and attachments |
| Truncation.TruncateTextToBytes | crates/codegen/ainxt-chat-state/src/compaction_utils.rs:224-240 | the backward search for a character boundary computes the truncated text, and nothing is returned exactly when the text fits |
| Truncation.TruncationKeeps | crates/codegen/ainxt-chat-state/src/compaction_utils.rs:224-240 | a cut keeps the longest prefix between two characters that leaves room for the reserve; kept and reported dropped bytes add up to the original |
| Truncation.TruncationBound | crates/codegen/ainxt-chat-state/src/compaction_utils.rs:224-240 | a text below 10^8 bytes is cut to at most max(max_bytes, 64) bytes |
| Truncation.WithinBoundIff | crates/codegen/ainxt-chat-state/src/compaction_utils.rs:224-240 | "within max_bytes" holds of any text exactly when it already fits or the bytes behind the last boundary before the reserve are few enough for their count to have room beside the marker |
| Truncation.WithinBoundIfSmall | crates/codegen/ainxt-chat-state/src/compaction_utils.rs:224-240 | for a text below 10^8 bytes: exactly when it already fits or the bound leaves room for a marker that drops all of it |
| Truncation.ShortBoundExceeded | crates/codegen/ainxt-chat-state/src/compaction_utils.rs:224-240 | a bound of at most 56 bytes is exceeded by every text that has to be cut |
| BudgetFitLaws.TruncationIs | crates/codegen/ainxt-chat-state/src/compaction_utils.rs:224-240 | a text that fits stays; of any other, as many characters are kept as leave 64 bytes, followed by the marker with the number of bytes behind them |
| Utf8.BoundaryIs | crates/codegen/ainxt-chat-state/src/compaction_utils.rs:224-240 | the one-byte test for a character boundary finds exactly the positions between characters (section 3 of RFC 3629) |
| Utf8.PrefixIsLastBoundary | crates/codegen/ainxt-chat-state/src/compaction_utils.rs:224-240 | the last boundary up to a byte bound is the byte length of the longest fitting prefix |
| Utf8.PrefixIsLongest | crates/codegen/ainxt-chat-state/src/compaction_utils.rs:224-240 | no longer prefix of whole characters fits the bound |
| Utf8.EncodeCharBits | crates/codegen/ainxt-chat-state/src/compaction_utils.rs:224-240 | byte lengths are those of UTF-8 (section 3 of RFC 3629): lead byte, order of the bits, shortest form |
| CompactSummary.FormatSummary | crates/codegen/ainxt-chat-state/src/compaction_utils.rs:625-663 | the cleaning is total: every slice is in range, both rewriting loops terminate, and they compute the specification (what it keeps in every branch: the `SummaryBranches` and `SummaryPeeling` rows) |
| CompactSummary.OutputIsClean | crates/codegen/ainxt-chat-state/src/compaction_utils.rs:625-698 | for every input the output holds none of the six control tokens, no run of three newlines and no surrounding whitespace |
| CompactSummary.CleanIffUnchanged | crates/codegen/ainxt-chat-state/src/compaction_utils.rs:625-698 | cleaning is the identity on exactly the clean texts |
| CompactSummary.FormatIsIdempotent | crates/codegen/ainxt-chat-state/src/compaction_utils.rs:625-663 | cleaning twice is cleaning once |
| CompactSummary.CollapseIsSqueeze | crates/codegen/ainxt-chat-state/src/compaction_utils.rs:658-663 | the replacement loop drops exactly the newlines that follow two newlines |
| CompactSummary.NeutralizeIsTokenFree | crates/codegen/ainxt-chat-state/src/compaction_utils.rs:687-698 | after the six replacements no control token is left and none is made |
| SummaryShapes.DraftsThenSummary | crates/codegen/ainxt-chat-state/src/compaction_utils.rs:625-686 | any number of closed scratchpads, then a summary block whose body is token-free or starts with a section number: the scratchpads vanish and the whole body survives, with echoed tokens defused and newline runs squeezed |
| SummaryShapes.TokenFreeSummary | crates/codegen/ainxt-chat-state/src/compaction_utils.rs:625-686 | with a token-free body the output is the heading and the trimmed body, squeezed and trimmed |
| SummaryShapes.UnclosedDraftThenSummary | crates/codegen/ainxt-chat-state/src/compaction_utils.rs:625-663 | a last scratchpad that is never closed costs nothing of the summary behind it |
| SummaryShapes.BareSummary | crates/codegen/ainxt-chat-state/src/compaction_utils.rs:625-686 | a summary block with no scratchpad at all |
| SummaryBranches.OrphanedNotes | crates/codegen/ainxt-chat-state/src/compaction_utils.rs:645-686 | a scratchpad without opening tag in the block is dropped up to its last orphan closing tag, whatever it quotes and whatever stands around the block |
| SummaryBranches.OrphanedNotesAndWrapper | crates/codegen/ainxt-chat-state/src/compaction_utils.rs:645-686 | and a second `<summary>` wrapper behind it is unwrapped |
| SummaryBranches.DoubledWrapper | crates/codegen/ainxt-chat-state/src/compaction_utils.rs:645-686 | so is a doubled wrapper without a scratchpad |
| SummaryBranches.WholeBody | crates/codegen/ainxt-chat-state/src/compaction_utils.rs:645-686 | a body that leads with a number, or holds neither scratchpad nor wrapper, survives whole inside its text |
| SummaryBranches.NotesThenSummary | crates/codegen/ainxt-chat-state/src/compaction_utils.rs:645-686 | with token-free text behind the scratchpad the output is the heading and that text, trimmed and squeezed |
| SummaryBranches.LeadsWithNumberIff | crates/codegen/ainxt-chat-state/src/compaction_utils.rs:674-678 | a block leads with a number when only `#`, `*`, `-`, `>`, blanks and tabs stand before its first digit |
| SummaryPeeling.DraftAtTop | crates/codegen/ainxt-chat-state/src/compaction_utils.rs:627-644 | a closed draft behind token-free text is dropped exactly if a summary block follows or only whitespace stands in front; else everything stays, defused |
| SummaryPeeling.DraftInBlock | crates/codegen/ainxt-chat-state/src/compaction_utils.rs:627-644 | a closed draft inside the block is dropped if it comes first; else none is peeled |
| SummaryPeeling.OnlyUnclosedDraft | crates/codegen/ainxt-chat-state/src/compaction_utils.rs:636-644 | a leading draft that is never closed and that no summary follows leaves nothing |
| SummaryPeeling.UnclosedUpToBlock | crates/codegen/ainxt-chat-state/src/compaction_utils.rs:636-644 | with a summary behind it, an unclosed draft is dropped up to the `<summary>` tag |
| SummaryPeeling.NoBlock | crates/codegen/ainxt-chat-state/src/compaction_utils.rs:645-663 | without a draft and a complete block the text stays, with its tokens defused |
| SummaryPeeling.ClosedTooEarly | crates/codegen/ainxt-chat-state/src/compaction_utils.rs:645-648 | closing tags in front of the first `<summary>` make no block |
| SummaryPeeling.NeutralizeInserts | crates/codegen/ainxt-chat-state/src/compaction_utils.rs:687-698 | defusing only inserts zero-width spaces: without them the text is what it was |
| SummaryPeeling.NeutralizeOne | crates/codegen/ainxt-chat-state/src/compaction_utils.rs:687-698 | a single token gets its zero-width space right behind the `<` |
| UserQuery.StripSystemTagBlocks | crates/codegen/ainxt-chat-state/src/compaction_utils.rs:259-274 | one pass per tag in the fixed order, each removing blocks until none is left, terminates and computes the specification |
| UserQuery.StripOneTag | crates/codegen/ainxt-chat-state/src/compaction_utils.rs:259-274 | the loop of one tag removes its blocks, the first one first |
| UserQuery.StripTagSpec | crates/codegen/ainxt-chat-state/src/compaction_utils.rs:259-274 | a tag's own pass leaves no block of that tag, and changes only texts that have one |
| UserQuery.StripTagsSpec | crates/codegen/ainxt-chat-state/src/compaction_utils.rs:259-274 | the texts that all passes leave alone are those without any block; every other text gets shorter |
| UserQuery.WrapRoundTrip | crates/codegen/ainxt-chat-state/src/compaction_utils.rs:280-289 | extracting a wrapped query gives it back if and only if it is trimmed, holds no closing query tag and no block of a system tag (wrapping is at lines 777-780) |
| UserQuery.ExtractWrapped | crates/codegen/ainxt-chat-state/src/compaction_utils.rs:280-289 | what extraction returns for a wrapped query without a closing tag |
| UserQuery.ExtractCutShort | crates/codegen/ainxt-chat-state/src/compaction_utils.rs:280-289 | a query with a closing tag inside comes back shorter |
| UserQueryLaws.ExtractAbsent | crates/codegen/ainxt-chat-state/src/compaction_utils.rs:280-289 | a text without the query tag is the query, up to its metadata blocks |
| UserQueryLaws.ExtractUnclosed | crates/codegen/ainxt-chat-state/src/compaction_utils.rs:280-289 | so is a text whose query tag is never closed, with the tag in it |
| UserQueryLaws.ExtractClosed | crates/codegen/ainxt-chat-state/src/compaction_utils.rs:280-289 | otherwise the query is what stands between the first opening tag and the next closing one, whatever surrounds them |
| UserQueryLaws.BlockGone | crates/codegen/ainxt-chat-state/src/compaction_utils.rs:259-274 | the first block of a tag is removed with both its tags, and nothing else with it |
| UserQueryLaws.JoinConcat | crates/codegen/ainxt-sampling-types/src/conversation.rs:1154-1174 | text parts are joined with one newline each; images add nothing |
| UserQueryLaws.RealTurnIff | crates/codegen/ainxt-chat-state/src/compaction_utils.rs:334-370 | a real turn is a user item of no synthetic origin with an image or with a query that is neither empty, nor the sentinel, nor the continuation prompt |
| UserQueryLaws.ImageOnlyTurn | crates/codegen/ainxt-chat-state/src/compaction_utils.rs:334-370 | a turn of images alone is real although its query is empty |
| StripTwice.SecondRunStripsMore | crates/codegen/ainxt-chat-state/src/compaction_utils.rs:242-274 | for any two tags, the pass of the later one can create a block of the earlier one, which only a second run removes |
| StripTwice.StripIsNotIdempotent | crates/codegen/ainxt-chat-state/src/compaction_utils.rs:242-274 | stripping the real list of tags twice is not stripping once |
| StripOnce.UnbrokenIsEnough | crates/codegen/ainxt-chat-state/src/compaction_utils.rs:259-274 | if no beginning of a listed tag stands directly before a listed opening tag, one run over any list of tags leaves no block of any of them, and a second run changes nothing |
| StripOnce.UnbrokenTextsStripOnce | crates/codegen/ainxt-chat-state/src/compaction_utils.rs:242-274 | the same for `strip_system_tags` itself, trimming included |
| StripOnce.ClosedIsUnbroken | crates/codegen/ainxt-chat-state/src/compaction_utils.rs:259-274 | a text in which every opening angle bracket is closed before the next one opens is such a text |
| StripOnce.ClosedIsEnough | crates/codegen/ainxt-chat-state/src/compaction_utils.rs:259-274 | so on closed texts one run is enough |
| StripOnce.ClosedTextsStripOnce | crates/codegen/ainxt-chat-state/src/compaction_utils.rs:242-274 | and `strip_system_tags` is idempotent on them |
| StripOnce.CutPairIff | crates/codegen/ainxt-chat-state/src/compaction_utils.rs:259-274 | removing a stretch from a text without a pair of tags makes one if and only if a tag stands across the joint with its partner on the proper side |
| StripOnce.OneBlockIff | crates/codegen/ainxt-chat-state/src/compaction_utils.rs:259-274 | on a text with a single block a second run changes nothing if and only if removing that block completes no pair of any listed tag |
| CompactedHistory.AfterLastRealIs | crates/codegen/ainxt-chat-state/src/compaction_utils.rs:391-397 | the boundary is right behind the last real user turn, and the last real query is the one of that turn |
| CompactedHistory.RawIsSuffix | crates/codegen/ainxt-chat-state/src/compaction_utils.rs:409-464 | the extraction since the last raw user item is always a suffix of the one since the last real user turn |
| CompactedHistory.RecentIsFixedPoint | crates/codegen/ainxt-chat-state/src/compaction_utils.rs:444-464 | extracting the recent messages from a compacted history (assembled at lines 828-863) gives back those it was built from, if and only if they are an extraction of their own |
| CompactedHistory.QuerySurvivesIff | crates/codegen/ainxt-chat-state/src/compaction_utils.rs:391-397 | the last real query of a compacted history is the query it was built with, if and only if that one is extractable and not synthetic |
| CompactedHistory.StateIsFixedPoint | crates/codegen/ainxt-chat-state/src/compaction_utils.rs:828-863 | compacting a compacted history sees the same messages and the same query again (what else it holds: `CompactedHistory.BuiltItems`) |
| CompactedHistory.BuiltItems | crates/codegen/ainxt-chat-state/src/compaction_utils.rs:702-863 | what a compacted history holds, item by item: system item, prefix, project instructions, wrapped query, recent messages, the preamble with the cleaned summary and the hint, and the reminder last |
| CompactedHistory.AbridgeConcat | crates/codegen/ainxt-chat-state/src/compaction_utils.rs:409-470 | the extraction treats every item on its own and keeps the order |
| CompactedHistory.AbridgeOne | crates/codegen/ainxt-chat-state/src/compaction_utils.rs:409-470 | what it keeps of one item: an assistant as it is, a result with its id and the placeholder text, nothing else |
| CompactedHistory.AfterLastUserIs | crates/codegen/ainxt-chat-state/src/compaction_utils.rs:409-415 | the raw boundary is right behind the last user item of any kind |
| CompactedHistory.BuiltOrphans | crates/codegen/ainxt-chat-state/src/compaction_utils.rs:828-900 | the orphans of the history built from a conversation are exactly the results behind its last real user turn whose call is not behind that turn, however many synthetic user items are interleaved |
| CompactedHistory.BuiltHistoryValidates | crates/codegen/ainxt-chat-state/src/compaction_utils.rs:828-900 | if every result has a declaring assistant before it with no real user turn in between, the built history validates |
| CompactedHistory.SplitPair | crates/codegen/ainxt-chat-state/src/compaction_utils.rs:409-464 | any call and result with a synthetic user item between them are torn apart by the raw-user extraction while the real-user one keeps them together |
| CompactedHistory.RawExtractionSplitsPairs | crates/codegen/ainxt-chat-state/src/compaction_utils.rs:409-464 | so such a conversation exists |
| CompactedHistory.ValidateCompactedHistory | crates/codegen/ainxt-chat-state/src/compaction_utils.rs:881-900 | the growing set of seen ids yields the orphan ids in order |
| CompactedHistory.SanitizeCompactedHistory | crates/codegen/ainxt-chat-state/src/compaction_utils.rs:901-944 | drops exactly the orphans and reports exactly the ids that validation reports |
| CompactedHistory.SanitizedIsValid | crates/codegen/ainxt-chat-state/src/compaction_utils.rs:881-944 | the sanitized history validates |
| CompactedHistory.UnchangedIffValid | crates/codegen/ainxt-chat-state/src/compaction_utils.rs:881-944 | the histories that sanitizing leaves alone are exactly the valid ones |
| CompactedHistory.SanitizeIsIdempotent | crates/codegen/ainxt-chat-state/src/compaction_utils.rs:917-944 | sanitizing twice is sanitizing once |
| CompactedHistory.PairedIsValid | crates/codegen/ainxt-chat-state/src/compaction_utils.rs:985-995 | the strict adjacency rule implies the lenient "declared anywhere before" rule |
| CompactedHistory.StripThenSanitize | crates/codegen/ainxt-chat-state/src/compaction_utils.rs:985-1022 | whatever the strict strip keeps, the sanitizer keeps, so sanitizing afterwards strips nothing |
| SummarizationPrep.TruncateTrailingIncompleteToolCall | crates/codegen/ainxt-chat-state/src/compaction_utils.rs:99-110 | popping from the end computes the conversation without its trailing calling assistants |
| SummarizationPrep.VerbatimKeepsPairing | crates/codegen/ainxt-chat-state/src/compaction_utils.rs:111-122 | the verbatim preparation keeps every result behind its owner |
| SummarizationPrep.SegmentKeepsPairing | crates/codegen/ainxt-chat-state/src/compaction_utils.rs:93-98 | so does the segment preparation |
| SummarizationPrep.DropRemovesDangling | crates/codegen/ainxt-chat-state/src/compaction_utils.rs:99-110 | only calling assistants are dropped, from the end; no dangling call is left if and only if every assistant with an item behind it that makes no call is answered |
| SummarizationPrep.PartlyAnsweredStays | crates/codegen/ainxt-chat-state/src/compaction_utils.rs:99-110 | a conversation whose last turn is only partly answered is left as it is |
| SummarizationPrep.SummarizerSeesPlainText | crates/codegen/ainxt-chat-state/src/compaction_utils.rs:15-92 | the summarizer gets no result, no call, no reasoning and no image |
| SummarizationPrep.PrepareConcat | crates/codegen/ainxt-chat-state/src/compaction_utils.rs:15-98 | every item is prepared on its own, and the order stays |
| SummarizationPrep.PreparedOne | crates/codegen/ainxt-chat-state/src/compaction_utils.rs:15-92 | system, user and assistant items survive, a user item with a placeholder for each image, an assistant with its text and the names of its calls |
| SummarizationPrep.NamesConcat | crates/codegen/ainxt-chat-state/src/compaction_utils.rs:23-27 | the names of several calls are listed in order, separated by commas |
| SummarizationPrep.SegmentOne | crates/codegen/ainxt-chat-state/src/compaction_utils.rs:93-98 | the segment preparation keeps calls and results as they are |
| SummarizationPrep.VerbatimKeeps | crates/codegen/ainxt-chat-state/src/compaction_utils.rs:111-122 | the verbatim preparation drops calling assistants from the end and, only when asked to, every reasoning item |
| LineReader.ReadLineCapped | crates/codegen/ainxt-acp-lib/src/line_reader.rs:134-177 | independent of chunking: it succeeds exactly when the line through the first newline or the end is within the cap and readable, then returns that line and consumes exactly its bytes; a failure has consumed only what it buffered (the cap in bytes: `LineReaderBytes.ReadableIff`) |
| LineReader.FirstNewline | crates/codegen/ainxt-acp-lib/src/line_reader.rs:140-177 | the position of the first newline of a chunk |
| LineReader.ReaderTask.Turn | crates/codegen/ainxt-acp-lib/src/line_reader.rs:62-92 | the loop body of the task up to its next suspension point is a read step, a send step or, after an error was sent, the closing of the channel; it does nothing only while the channel is full or closed |
| LineReader.LineBufferedRead.PollRead | crates/codegen/ainxt-acp-lib/src/line_reader.rs:95-132 | one poll: its answer, the bytes it writes into the buffer, and the new states of reader and channel |
| LineReaderRuns.RunKeepsInv | crates/codegen/ainxt-acp-lib/src/line_reader.rs:62-132 | in every state of every run, messages taken and messages to come make up the messages of the source |
| LineReaderRuns.Conservation | crates/codegen/ainxt-acp-lib/src/line_reader.rs:62-132 | delivered bytes, the rest of the current line, the queued lines, the line being sent and the unread bytes make up the source, for every chunking, interleaving and sequence of read sizes |
| LineReaderRuns.PendingOnlyBetweenLines | crates/codegen/ainxt-acp-lib/src/line_reader.rs:95-132 | a poll is pending only when no byte of a started line is left; everything delivered is then whole lines and the task can still move |
| LineReaderRuns.ZeroMeansEnd | crates/codegen/ainxt-acp-lib/src/line_reader.rs:95-132 | zero bytes into a non-empty buffer mean that every message was taken and every byte delivered |
| LineReaderRuns.EndIsForever | crates/codegen/ainxt-acp-lib/src/line_reader.rs:95-132 | once a poll into a non-empty buffer has answered zero bytes, every later event of the run is a poll that answers zero bytes, and nothing changes |
| LineReaderRuns.ErrorComesLast | crates/codegen/ainxt-acp-lib/src/line_reader.rs:62-92 | an error is delivered after all lines before it, is the last message, and leaves nothing queued, kept or waiting |
| LineReaderRuns.ErrorThenEnd | crates/codegen/ainxt-acp-lib/src/line_reader.rs:62-132 | one error, then end of stream for ever: nothing more is delivered, the task only closes the channel, polls before that are pending and polls after it answer zero bytes |
| LineReaderRuns.EndStays | crates/codegen/ainxt-acp-lib/src/line_reader.rs:62-132 | from the end of the stream on, the pipeline changes only by closing its channel |
| LineReaderRuns.ReadableBytes | crates/codegen/ainxt-acp-lib/src/line_reader.rs:62-92 | the lines of a readable source are the source (which sources those are: `LineReaderBytes.ReadableIff`) |
| LineReaderRuns.FailureIsLast | crates/codegen/ainxt-acp-lib/src/line_reader.rs:62-92 | a source yields at most one error, at the end |
| LineReaderBytes.ReadableIff | crates/codegen/ainxt-acp-lib/src/line_reader.rs:134-177 | the readable sources, told from the bytes alone: those that end well and hold no line beyond 64 MiB, its newline included |
| LineReaderBytes.ReadingStops | crates/codegen/ainxt-acp-lib/src/line_reader.rs:134-177 | where reading stops and why: at the first line beyond the limit with that error, else at an unfinished last line if the source fails, else at the end |
| LineReaderBytes.MessagesAreLines | crates/codegen/ainxt-acp-lib/src/line_reader.rs:134-177 | every delivered line is within the limit and holds one newline, as its last byte; only the last line of a stream that ends well may lack it |
| LineReaderBytes.PollTellsTruth | crates/codegen/ainxt-acp-lib/src/line_reader.rs:95-132 | a poll answers with the number of bytes it hands over, at most what was asked for; with none only at the end, and with fewer only when the line is used up |
| LineReaderBytes.StuckIff | crates/codegen/ainxt-acp-lib/src/line_reader.rs:62-92 | the task is stuck exactly while it has a message for a channel that holds 65, or after closing it |
| Interner.SearchRefines | crates/codegen/ainxt-codebase-graph/src/interner.rs:156-168 | for every hash function, a lookup answers `Some(i)` if and only if the string is the i-th interned one |
| Interner.AppendRefines | crates/codegen/ainxt-codebase-graph/src/interner.rs:119-144 | adding a new string that fits appends it to the sequence the table stands for |
| Interner.InternRefines | crates/codegen/ainxt-codebase-graph/src/interner.rs:119-144 | interning refines the growing sequence of distinct strings: the id stands for the string and earlier ids keep their meaning |
| Interner.RunRefines | crates/codegen/ainxt-codebase-graph/src/interner.rs:119-184 | over any sequence of calls that the casts leave intact, repeats included, the table stands for the distinct inputs in order of first appearance, and every returned id still resolves to its input at the end |
| Interner.SameIdIffEqual | crates/codegen/ainxt-codebase-graph/src/interner.rs:119-144 | over a run that the casts leave intact, two inputs get the same id if and only if they are equal |
| Interner.SliceStable | crates/codegen/ainxt-codebase-graph/src/interner.rs:176-184 | growing the arena and the offset table changes no earlier string |
| Interner.BucketHolds | crates/codegen/ainxt-codebase-graph/src/interner.rs:282-303 | a rebuilt bucket holds exactly the ids of the strings with its hash |
| Interner.PartsRoundTrip | crates/codegen/ainxt-codebase-graph/src/interner.rs:282-303 | after such a run, rebuilding from arena and offsets gives back the identical table, which answers `Some(i)` exactly for the i-th distinct input |
| Interner.ListingIs | crates/codegen/ainxt-codebase-graph/src/interner.rs:239-251 | iteration lists the strings with their ids in id order |
| Interner.ReadBackIff | crates/codegen/ainxt-codebase-graph/src/interner.rs:119-144 | with room in the arena, interning a new string returns an id that reads it back if and only if its length survives the cast to 16 bits and the id the cast to 32 |
| Interner.ReadBackIs | crates/codegen/ainxt-codebase-graph/src/interner.rs:119-144 | what a new entry reads back in every case: the length modulo 2^16, from the position modulo 2^32 |
| Interner.PartsSearch | crates/codegen/ainxt-codebase-graph/src/interner.rs:282-303 | a lookup rebuilt from any parts, even with ranges outside the arena or a string twice, finds the lowest id that reads the string |
| Interner.StringInterner.InternBytes | crates/codegen/ainxt-codebase-graph/src/interner.rs:119-144 | the in-place operation on arena, offsets and buckets has the specified new state and id, casts included |
| Interner.StringInterner.GetBytesId | crates/codegen/ainxt-codebase-graph/src/interner.rs:156-168 | the loop over one bucket computes the lookup |
| Interner.StringInterner.FromParts | crates/codegen/ainxt-codebase-graph/src/interner.rs:282-303 | the loop over the offsets rebuilds the lookup |
| Interner.StringInterner.IterBytes | crates/codegen/ainxt-codebase-graph/src/interner.rs:239-251 | the iteration yields the listing |
| Interner.StringInterner.Clear | crates/codegen/ainxt-codebase-graph/src/interner.rs:253-258 | clearing leaves the empty table |
| UsageNesting.TotalsAreColumnSums | crates/codegen/ainxt-chat-state/src/usage.rs:172-255 | with mild costs (of one sign, or on neither side beyond the 64-bit range) each total is the saturating column sum over the per-model rows |
| UsageLimits.ColumnSumsIff | crates/codegen/ainxt-chat-state/src/usage.rs:172-255 | for all orders of recording and all spreads over models, totals are the column sums of the rows if and only if the costs are mild |
| UsageLedger.ShownAreSums | crates/codegen/ainxt-chat-state/src/usage.rs:248-254 | totals and rows are the saturating sums of the entries in the order of recording, whatever their signs |
| UsageLedger.FoldRowOf | crates/codegen/ainxt-chat-state/src/usage.rs:248-254 | folding one entry adds it to the row of its model and leaves every other row alone |
| UsageLedger.RowsAreModelSums | crates/codegen/ainxt-chat-state/src/usage.rs:248-254 | each row is the saturating sum of its model's entries, whatever their signs |
| UsageLedger.FoldedModels | crates/codegen/ainxt-chat-state/src/usage.rs:248-254 | there is one row for every recorded model and no other, in the order in which the models first appeared |
| UsageOrder.OrderDoesNotMatter | crates/codegen/ainxt-chat-state/src/usage.rs:172-254 | without negative costs, or with mild ones, the order of recording changes neither the totals nor any row |
| UsageOrder.OrderIrrelevantIff | crates/codegen/ainxt-chat-state/src/usage.rs:172-254 | the order of recording changes no total and no row if and only if, for gateway costs and for estimates, all have one sign or neither side alone leaves the 64-bit range |
| UsageOrder.SumIsClamped | crates/codegen/ainxt-chat-state/src/usage.rs:172-254 | under that condition every figure is the exact total of its column, clamped once |
| UsageOrder.SortedTicks | crates/codegen/ainxt-chat-state/src/usage.rs:200-206 | the cost with the raising entries first, and with the lowering ones first |
| UsageOrder.OrderMattersForNegativeCosts | crates/codegen/ainxt-chat-state/src/usage.rs:200-206 | three concrete entries whose order changes the total |
| UsageOrder.TotalTokensAreExact | crates/codegen/ainxt-chat-state/src/usage.rs:135-137 | the total tokens of a ledger or a row are those of its entries, clamped once |
| UsageNesting.NestingIsFlattening | crates/codegen/ainxt-chat-state/src/usage.rs:235-242 | with mild costs, folding a child's rows shows the same totals and rows as folding the child's entries one by one |
| UsageLimits.NestingIff | crates/codegen/ainxt-chat-state/src/usage.rs:235-242 | for all orders, spreads over models and divisions into parent and child, nesting is flattening if and only if the costs are mild |
| UsageLimits.NegativeCostsBreakSums | crates/codegen/ainxt-chat-state/src/usage.rs:200-206 | three concrete entries, one of them negative, that break the column sums and nesting |
| UsageNesting.NestedRun | crates/codegen/ainxt-chat-state/src/usage.rs:222-255 | at any depth of nesting, with mild costs, totals and rows are the sums over every call made below |
| UsageNesting.NestedFlags | crates/codegen/ainxt-chat-state/src/usage.rs:222-247 | whatever the costs, only own calls count as main-loop calls, and a ledger is incomplete exactly if it was marked so or took over an incomplete subagent |
| UsageLedger.CostColumns | crates/codegen/ainxt-chat-state/src/usage.rs:152-170 | in the totals and in every row of a ledger of calls: a gateway cost exists iff some call was priced, an estimate iff some was not; the sum is partial iff both, and a displayed figure is marked as estimated iff some call was unpriced |
| UsageCalls.CallCounters | crates/codegen/ainxt-chat-state/src/usage.rs:91-199 | every counter of the totals and of each row is the sum of its own usage field over the calls, clamped once |
| UsageCalls.CallCosts | crates/codegen/ainxt-chat-state/src/usage.rs:91-199 | the gateway figure is the clamped sum of the reported costs, the estimate that of the local prices of the other calls, when no order of the reports saturates |
| UsageCalls.DisplayedCost | crates/codegen/ainxt-chat-state/src/usage.rs:152-170 | the displayed ticks are the clamped sum of both, and the exact sum clamped once when no report is negative |
| UsageLedger.CallsAreNonNegative | crates/codegen/ainxt-chat-state/src/usage.rs:91-133 | a ledger of calls has no negative figure exactly if the gateway reported none: estimates are never negative |
| UsageLedger.FreshInputIff | crates/codegen/ainxt-chat-state/src/usage.rs:139-150 | fresh, cached and written tokens make up the prompt unless the buckets exceed it, and then nothing counts as fresh |
| UsageNesting.FoldRowSum | crates/codegen/ainxt-chat-state/src/usage.rs:248-254 | with mild costs, folding one entry adds it to the sum over the rows, whichever row it meets |
| UsageNesting.SumConcat | crates/codegen/ainxt-chat-state/src/usage.rs:172-206 | mild entries may be summed in two parts |
| UsageLedger.AddLaws | crates/codegen/ainxt-chat-state/src/usage.rs:172-206 | saturating addition of totals is commutative and has a unit; without negative costs it is associative |
| UsageLedger.BillingLedger.RecordMainLoopCall | crates/codegen/ainxt-chat-state/src/usage.rs:222-232 | the new state after one main-loop call |
| UsageLedger.BillingLedger.RecordSubagent | crates/codegen/ainxt-chat-state/src/usage.rs:235-242 | the loop over the rows folds each of them, and incompleteness sticks |
| UsageLedger.BillingLedger.RecordEntry | crates/codegen/ainxt-chat-state/src/usage.rs:248-254 | the in-place update of totals and row is the fold of one entry |
| AgentDiscovery.LoadDefinitionsFromDir | crates/codegen/ainxt-agent/src/discovery.rs:629-662 | threading the definitions and the seen names through a directory keeps the first definition of every name |
| AgentDiscovery.Discover | crates/codegen/ainxt-agent/src/discovery.rs:231-248 | the directories in priority order give the discovered definitions |
| AgentDiscovery.LookUp | crates/codegen/ainxt-agent/src/discovery.rs:258-305 | the search returns at the first directory that has the agent |
| AgentDiscovery.MergeSubagents | crates/codegen/ainxt-agent/src/discovery.rs:92-181 | seeding with built-ins, merging in place and filtering compute the visible list |
| AgentDiscovery.DiscoveryFinds | crates/codegen/ainxt-agent/src/discovery.rs:231-305 | when every deciding file (the first with its stem or the first with its declared name) is named after its agent, discovery keeps for every name exactly the definition that resolution finds |
| AgentDiscovery.DiscoveryFindsIff | crates/codegen/ainxt-agent/src/discovery.rs:231-305 | for files with different paths the two agree on all names if and only if that is so |
| AgentDiscovery.BothSearch | crates/codegen/ainxt-agent/src/discovery.rs:231-305 | discovery keeps the first definition of every declared name, the lookup finds the first file of every stem |
| AgentDiscovery.DiscoveryIsUnique | crates/codegen/ainxt-agent/src/discovery.rs:231-248 | discovered names are unique |
| AgentDiscovery.MergeHolds | crates/codegen/ainxt-agent/src/discovery.rs:92-181 | for any list of definitions, names are unique and each is held by the highest-priority, earliest eligible definition, by the built-in only if there is none |
| AgentDiscovery.ShownFor | crates/codegen/ainxt-agent/src/discovery.rs:74-181 | when every deciding file is named after its agent: what the list shows for a name, in terms of the two searches behind resolution |
| AgentDiscovery.ResolvesIff | crates/codegen/ainxt-agent/src/discovery.rs:92-305 | for every store, whatever its files are called, exactly when a shown entry resolves to the shown agent |
| AgentDiscovery.VisibleIffCallable | crates/codegen/ainxt-agent/src/discovery.rs:92-305 | when every deciding file is named after its agent: a shown entry resolves to the shown agent if and only if it is not a file outside the project named after a built-in |
| AgentDiscovery.CallableIsShown | crates/codegen/ainxt-agent/src/discovery.rs:92-305 | when every deciding file is named after its agent: what the list omits does not resolve, but for the built-ins that are no subagents |
| AgentDiscovery.MisnamedNotCallable | crates/codegen/ainxt-agent/src/discovery.rs:574-662 | a project file that declares a name other than its stem is shown under that name and does not resolve by it |
| AgentDiscovery.ShownButNotCallable | crates/codegen/ainxt-agent/src/discovery.rs:66-143 | a user-level file named like a top-level built-in is shown and does not resolve |
| AgentDiscovery.RealBuiltinsAreValid | crates/codegen/ainxt-agent/src/config.rs:651-698 | the real names: every subagent is a built-in and none is listed twice |
| AgentEntries.EntryFields | crates/codegen/ainxt-agent/src/discovery.rs:92-181 | every listed entry is a built-in subagent, or has the name, description, scope and path of the first file in search order that declares its name |
| AgentEntries.EnabledConcat | crates/codegen/ainxt-agent/src/discovery.rs:176-180 | the toggles decide about every entry on its own, and the order stays |
| AgentEntries.EnabledOne | crates/codegen/ainxt-agent/src/discovery.rs:176-180 | an entry is left out exactly if its name is toggled off |
| AgentEntries.NoToggles | crates/codegen/ainxt-agent/src/discovery.rs:176-180 | without toggles every merged entry is shown |
| AgentEntries.ListOrder | crates/codegen/ainxt-agent/src/discovery.rs:92-175 | built-in subagents come first, every other name where discovery first met it; replacing an entry moves nothing |
| AgentEntries.TwoOfOneName | crates/codegen/ainxt-agent/src/discovery.rs:96-175 | of two definitions of one name the later one wins exactly if its scope outranks the other: project over user over bundled |
| AgentEntries.DiscoveredAreFirsts | crates/codegen/ainxt-agent/src/discovery.rs:231-248 | discovery lists the parsed files in search order and keeps the first of every declared name |
| SegmentNames.FilenameRoundTrip | crates/codegen/ainxt-chat-state/src/compaction_transcript.rs:80-97 | parsing a segment file name gives the number back, for every 64-bit number |
| SegmentNames.ParsesIff | crates/codegen/ainxt-chat-state/src/compaction_transcript.rs:89-97 | the names that parse to a number are exactly its printed form behind an optional plus sign and any zeros |
| SegmentNames.SegmentPathRoundTrip | crates/codegen/ainxt-chat-state/src/compaction_transcript.rs:118-141 | a segment file is recognised under every prefix, even one that contains `compaction` itself |
| SegmentNames.SegmentIff | crates/codegen/ainxt-chat-state/src/compaction_transcript.rs:118-141 | which paths are classified as a segment, both directions |
| SegmentNames.IndexIff | crates/codegen/ainxt-chat-state/src/compaction_transcript.rs:118-141 | which paths are classified as the index, both directions |
| SegmentNames.DirIff | crates/codegen/ainxt-chat-state/src/compaction_transcript.rs:123-130 | which paths are classified as the directory, both directions |
| SegmentTranscript.RenderSegment | crates/codegen/ainxt-chat-state/src/compaction_transcript.rs:484-506 | the document is the preamble, the longest prefix of turns that fits the budget, and the notice with the number of turns left out |
| SegmentTranscript.FittingBlocks | crates/codegen/ainxt-chat-state/src/compaction_transcript.rs:484-495 | the greedy loop stops at the longest fitting prefix |
| SegmentTranscript.GreedyIsLongest | crates/codegen/ainxt-chat-state/src/compaction_transcript.rs:484-495 | stopping at the first turn that does not fit loses no longer prefix |
| SegmentTranscript.NoticeIs | crates/codegen/ainxt-chat-state/src/compaction_transcript.rs:497-505 | the two replacements fill in the cap and the count and nothing else |
| SegmentTranscript.DocumentBytes | crates/codegen/ainxt-chat-state/src/compaction_transcript.rs:477-506 | the exact size of a document, separators and notice included |
| SegmentTranscript.SizeBound | crates/codegen/ainxt-chat-state/src/compaction_transcript.rs:477-506 | a document whose preamble fits has at most the cap plus one byte per turn kept, and keeps to the cap while at most 55 turns are kept (129 without a cut) |
| SegmentTranscript.WithinCapIff | crates/codegen/ainxt-chat-state/src/compaction_transcript.rs:477-506 | exactly when a document keeps to the cap, cut or not, whether or not its preamble fits |
| SegmentTranscript.CapExceeded | crates/codegen/ainxt-chat-state/src/compaction_transcript.rs:392-506 | every segment of at least 22500 user turns shown by signature behind a preamble of at most 16000 bytes exceeds the cap, cut or not |
| SegmentTranscript.NothingFits | crates/codegen/ainxt-chat-state/src/compaction_transcript.rs:477-495 | a preamble that leaves no budget omits every turn |
| SegmentLayout.TurnsLayout | crates/codegen/ainxt-chat-state/src/compaction_transcript.rs:484-506 | every kept turn stands in the document behind the preamble, the turns and the line breaks before it |
| SegmentLayout.TurnsApart | crates/codegen/ainxt-chat-state/src/compaction_transcript.rs:484-506 | a line break stands in front of every turn but the first |
| SegmentLayout.DocumentEnds | crates/codegen/ainxt-chat-state/src/compaction_transcript.rs:484-506 | the preamble comes first, the notice last and only if turns were left out, and nothing else follows the turns |
| SegmentLayout.EmptyLayout | crates/codegen/ainxt-chat-state/src/compaction_transcript.rs:484-506 | with every turn left out only the notice follows the preamble |
| SegmentLayout.KeptTurns | crates/codegen/ainxt-chat-state/src/compaction_transcript.rs:477-495 | the number of turns kept, in bytes of preamble, turns, 128 bytes of reserve and 512 KiB |
| SegmentLayout.HeaderNames | crates/codegen/ainxt-chat-state/src/compaction_transcript.rs:466-476 | the header in front of the turns names the level of detail, and there is none without turns |
| SegmentLayout.SignatureTitle | crates/codegen/ainxt-chat-state/src/compaction_transcript.rs:392-429 | a signature line starts with the number of the turn and the role of its item |
| SegmentLayout.CallsConcat | crates/codegen/ainxt-chat-state/src/compaction_transcript.rs:420-425 | the signatures of several calls stand in order, two spaces apart |
| SegmentTranscript.WithThousands | crates/codegen/ainxt-chat-state/src/compaction_transcript.rs:152-164 | the loop writes groups of three digits counted from the right |
| SegmentTranscript.ThousandsRoundTrip | crates/codegen/ainxt-chat-state/src/compaction_transcript.rs:152-164 | without its commas the number parses back, and a comma stands exactly at every fourth place from the right |

## Left out

- Item fields that no modelled pass reads, such as model ids, prompt indices and reasoning efforts.
- The estimate of an item's tokens is an arbitrary function, and the sum of estimates is not bounded by 64 bits.
- The wording of the auto-continue prompt and of the sentence in front of a summary: any text will do.
- The carrier format that puts the summary before the recent messages: the code compiles it out, so recent messages always come first.
- The parts of the state context that hold todos, task summaries and file lists.
- The caches of capacity: `with_capacity`, `shrink_to_fit`, `len` and the lossy getters of the interner.
- The hash function of the interner and the price list of the ledger: both are arbitrary functions. The map of model rows is a list with unique keys.
- The moment at which a task that has sent an error closes its channel: any later turn, where the code closes at once unless the channel was full.
- Wake-ups, task spawning and the dropping of either end of the channel. The byte source may expose any non-empty chunk; an input error is one that lasts.
- The file system, git, YAML and plugin agents behind discovery: directories are lists of parsed files. Lookup goes by file stem, as in the code.
- The text of one rendered turn, except its signature line, and of the header, metadata and statistics of a segment: the renderer is an arbitrary function, so is the signature of one call, and the head an arbitrary text.
- `compute_turn_stats`, `truncate_chars`, the index rows and the keyword search: counters and formatting, which would add only easy members.
- Actors, persistence, the gateway, JSON normalisation, retries and configuration.
- AgentDiscovery.VisibleIffCallable: needs deciding files that are named after their agents; `AgentDiscovery.ResolvesIff` covers every store.
- AgentDiscovery.ShownFor: the same condition on the deciding files.
- AgentDiscovery.CallableIsShown: the same condition on the deciding files.
- Interner.RunRefines: needs strings below 2^16 bytes, and at most 2^32 distinct ones with less than 2^32 bytes in all, where the casts lose nothing. Repeats do not count.
- UsageNesting.TotalsAreColumnSums: needs mild costs, as non-negative gateway figures are; `UsageLimits.ColumnSumsIff` shows that over all orders and spreads nothing less will do. A single ledger with other costs may add up by chance, for example with one model.
- UsageNesting.NestingIsFlattening: needs mild costs; `UsageLimits.NestingIff` shows that over all orders, spreads and divisions nothing less will do.
- UsageNesting.NestedRun: needs mild costs, for the same reason.
- StripOnce.UnbrokenTextsStripOnce: one direction. A text with a broken-off tag can be stripped in one run too, and with several blocks a joint that completes an earlier tag may itself be removed with a later block; the exact condition is given for texts with one block.
- BudgetFit.TailBytes: needs texts below 10^8 bytes, where the marker's count fits its reserve.
- LineReaderRuns.Conservation: needs a source without an oversized line or an input error, since the line that fails is not delivered; `LineReaderRuns.ErrorComesLast` covers the others.
- CompactedHistory.QuerySurvivesIff: stated for recent messages that an extraction produced; others could hold a later real user turn.
