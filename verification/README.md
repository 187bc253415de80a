# Verification of the agent runtime's history layer, run engine and estimators

A Dafny model of the parts of the runtime that rewrite, record and drive an agent conversation, and proofs
of what they promise. The project stands beside the repository; `dafny verify dfyconfig.toml` checks it.

**History.** A chat history is a list of messages made of blocks (`Messages`). `MessageRepair` and
`NormalizeLaws` hold the pairing repairs: the request-boundary pass, the in-place recovery, and exactly when
they agree; `InsertedResults` says what the pass adds. `Folding` and `FoldingLaws` retire calls to tools that
are gone and fold results a newer result replaced; `FoldingMeaning` says which, without the specification's
terms. `ContextPrune` specifies the reducers, `PruneInPlace` runs them in place over one list with the
`before_change` hook, `ContextPruneLaws` and `BackReferences` prove what they keep, `PruneMeaning`,
`ReducerMeaning` and `RequestAttachments` what becomes of each block, and `HistoryReductions` composes all of
them. `Recording` models what memory sees of a conversation that is reduced and compacted while it runs:
messages with identity, watermarks, the queue of summarized but unrecorded messages, and the ledger of
originals; `RecordingSession` is the same bookkeeping as fields updated in place, `RecordingLaws`,
`RecordingArchive` and `RecordingFailures` the theorems over every run. `CompactionPolicy`,
`CompactionPolicyLaws` and `CompactionFailures` add the order of steps of one compaction and the limits on model
summaries, those made in the background included, and show that a turn with any compactions is a run of the
recorded session; `BackgroundSummaries` shows that a swapped-in summary loses nothing said meanwhile.

**Engine.** `EventTaps` (journal and replaying taps), `Steering` (the mid-turn inbox shared by host and turn;
`SteeringLaws` on outcomes, `SteeringWords` on what the model reads), `AgentLoop` (verdicts, terminal statuses,
the in-flight guard, cost) and `RolloutWriter` (the append-only log with retries) are state machines; their laws
quantify over every interleaving, every run, or every pattern of failing operations.

**Algorithms.** `EnvironmentDiff`, `EnvironmentDiffLaws`, `EnvironmentRebuild`, `EnvironmentIgnored` and
`EnvironmentPaths` (the order-keyed deep diff, the rebuild from its entries, what ignored keys hide, and what
its printed paths tell), `Decimals` (printed numbers), `HeadTail` (the bounded output buffer), `TextTokens` (the
token estimate and its cache of recent values) and `TokenCounts` (what a text counts).

Loops and objects that change state are methods and classes, each proved equal to a specification function or
against a stated property; the laws are lemmas about those functions.

Where the code does less than its documentation says, the model follows the code; a lemma gives an input, and
another the exact condition:

- A reused call id hides a dangling call (`NormalizeLaws.ReusedIdHidesACall`); calls are answered later if and
  only if none hides behind a result of a reused id (`NormalizeLaws.NormalizeAnswersCallsLater`).
- Words steered into a clipped result never reach memory (`RecordingLaws.SteeredIntoAClippedResultIsForgotten`); words
  steered into the last message do if and only if that message is still owed to the recorder and
  the ledger of originals holds no copy of it (`RecordingLaws.SteeredWordsAreRecordedWhenOwedAndUnkept`).
- Messages can be lost to memory (`RecordingLaws.OneTooManyIsLost`); a message is lost if and only if a compaction
  overflows the queue of summarized but unrecorded messages (`RecordingLaws.LossesHappenExactlyPastTheCap`).
- A recording that fails half way is repeated (`RecordingFailures.HalfWayRecordingIsRepeated`); a recorded message
  stands in memory more than once if and only if a failed recording had written it
  (`RecordingFailures.MemoryHoldsTheFailedOnesToo`).
- Hard pressure does not exempt a compaction from its plan (`CompactionPolicyLaws.HardPressureCanBeDeclined`); the
  compactor runs if and only if the prune misses the target and the plan does not decline
  (`CompactionPolicyLaws.HardPressureRunsUnlessThePlanDeclines`).
- Soft pressure goes on after two failed summaries when they raised in the background
  (`CompactionFailures.RaisedSummariesDoNotStopSoftPressure`); it goes on if and only if fewer than two failures since
  the last success were booked (`CompactionFailures.SoftPressureStopsAfterTwoBookedFailures`).
- A back-reference can point to a copy that is not shown in full (`BackReferences.ReferredCopyCanBeTrimmed`); the copy
  is shown in full if and only if it is in the protected tail or has nothing to strip or trim
  (`BackReferences.ReferredCopyStandsInFullExactlyWhenUntouched`).
- Different changes of an environment can be reported alike (`EnvironmentPaths.DottedKeyIsAmbiguous`); the reported
  diff determines the other side if and only if the keys are spelt without dots and cannot hold a list position
  (`EnvironmentPaths.ReportsDecideExactlyForClearKeys`).
- A message object can be reported as not delivered although it was (`SteeringLaws.ReofferedMessageCanBeMisreported`),
  if and only if it is offered again after the turn took it (`SteeringLaws.OnlyReoffersCanBeMisreported`).
- A failed setup can strand a suspended state (`AgentLoopLaws.FailedSetupStrandsASuspendedState`); the state can be
  continued again if and only if that run was a new turn on a state that had neither run nor held messages
  (`AgentLoopLaws.FailedSetupLosesTheContinuation`).

## Model

| member | source | states |
|---|---|---|
| `Messages.AllAnswersAreTheAnswered` | src/xgen_agent_runtime/core/message_repair.py:51-62 | the ids collected over a history are exactly the ids some message answers |
| `Messages.WhoCallsAndAnswers` | src/xgen_agent_runtime/core/message_repair.py:35-62 | an id is called in a message if and only if it is an assistant's and a call there has it, answered if and only if a result has it, and only non-empty strings are ids |
| `Messages.DistinctCallsAreAnsweredLater` | src/xgen_agent_runtime/core/message_repair.py:147-154 | with distinct call ids, pairing by id alone already gives every call a result in a later message |
| `Messages.OutlineFixesIds` | src/xgen_agent_runtime/core/message_repair.py:35-62 | calls and answers of a message depend only on its role and on which blocks are calls and results with which ids |
| `Messages.OutlinesKeepPairing` | src/xgen_agent_runtime/core/context_prune.py:16-25 | any rewriting that keeps role, block positions and ids maps well-paired histories to well-paired ones |
| `MessageRepair.SyntheticAnswers` | src/xgen_agent_runtime/core/message_repair.py:76-82 | an inserted user message answers exactly the ids it was made for and calls nothing |
| `MessageRepair.FilterBlocks` | src/xgen_agent_runtime/core/message_repair.py:124-139 | the block loop keeps exactly the non-orphan blocks in order, and its flag is set exactly when something was dropped |
| `MessageRepair.RemoveOrphans` | src/xgen_agent_runtime/core/message_repair.py:103-145 | the first pass equals the specification: orphan results go, a message made only of them goes too |
| `MessageRepair.CollectAnswers` | src/xgen_agent_runtime/core/message_repair.py:147-154 | the loop computes the set of answered ids of the whole history |
| `MessageRepair.CollectGaps` | src/xgen_agent_runtime/core/message_repair.py:156-162 | the recorded gaps are exactly the messages with unanswered calls, in order, each with those ids |
| `MessageRepair.InsertAt` | src/xgen_agent_runtime/core/message_repair.py:164-173 | inserting after one gap, with nothing missing up to the part already done, is inserting right after that message |
| `MessageRepair.ReverseStep` | src/xgen_agent_runtime/core/message_repair.py:164-173 | one insertion, done from the back, extends the answered part of the list to the previous gap |
| `MessageRepair.InsertInReverse` | src/xgen_agent_runtime/core/message_repair.py:164-173 | reverse insertion by recorded index equals putting the missing results right after each calling message |
| `MessageRepair.NormalizeMessagesForRequest` | src/xgen_agent_runtime/core/message_repair.py:85-175 | the whole pass equals its specification for every history |
| `MessageRepair.LastCallerFacts` | src/xgen_agent_runtime/core/message_repair.py:190-197 | the backward scan stops at the one index with a call and no call after it |
| `MessageRepair.Conversation.RepairDanglingToolCalls` | src/xgen_agent_runtime/core/message_repair.py:178-215 | the in-place recovery rewrites the list to the specified one and returns the number of injected results |
| `MessageRepair.StripLeadingOrphanToolResults` | src/xgen_agent_runtime/core/message_repair.py:218-242 | the window is the longest suffix that does not start with a result-only user message |
| `NormalizeLaws.NormalizeIsWellPaired` | src/xgen_agent_runtime/core/message_repair.py:85-175 | for every history the request has no orphan result and no unanswered call |
| `NormalizeLaws.NormalizeFixesExactlyTheWellPaired` | src/xgen_agent_runtime/core/message_repair.py:85-175 | the pass leaves a history alone if and only if it is well paired |
| `NormalizeLaws.NormalizeIsIdempotent` | src/xgen_agent_runtime/core/message_repair.py:100-102 | normalising twice is normalising once, with no condition on ids |
| `NormalizeLaws.NormalizeKeepsTheRecord` | src/xgen_agent_runtime/core/message_repair.py:107-145 | message by message, every text, every non-result block and every result that follows its call survive in order and in a message of their own; only results for unanswered calls are added |
| `NormalizeLaws.NormalizeAnswersCallsLater` | src/xgen_agent_runtime/core/message_repair.py:147-173 | every call of the request has a later result if and only if no call hides behind a result of a reused id |
| `NormalizeLaws.DistinctCallsHideNothing` | src/xgen_agent_runtime/core/message_repair.py:147-173 | with distinct call ids every call of the request has a later result |
| `NormalizeLaws.ReusedIdHidesACall` | src/xgen_agent_runtime/core/message_repair.py:147-162 | a call id used again after its result leaves the second call without a later result |
| `NormalizeLaws.GapBreaksPrefix` | src/xgen_agent_runtime/core/message_repair.py:164-173 | an inserted answer is none of the messages that were there, so any earlier gap shows in the result |
| `NormalizeLaws.RecoveryAgreesWithNormalize` | src/xgen_agent_runtime/core/message_repair.py:178-215 | on orphan-free histories the in-place recovery and the request pass give the same list if and only if only the newest calling message dangles, and only on ids not answered before it |
| `InsertedResults.OnlyInterruptionsAreAdded` | src/xgen_agent_runtime/core/message_repair.py:76-82 | every message of the request is left over from the history (same role, without results it had, never emptied), or stands right behind a calling message and holds, as the user's, exactly one error result with the interruption text for each call made there that no kept message answers |
| `Folding.CollectRetired` | src/xgen_agent_runtime/core/message_repair.py:280-296 | the loops collect exactly the ids of assistant calls to retired tools |
| `Folding.RetireToolCalls` | src/xgen_agent_runtime/core/message_repair.py:266-337 | the copy-on-change loop equals rewriting every block whose id is retired, on both sides of the pair |
| `Folding.CollectToolNames` | src/xgen_agent_runtime/core/message_repair.py:424-437 | the loop computes which tool each call id belongs to, the last call winning |
| `Folding.SeenStep` | src/xgen_agent_runtime/core/message_repair.py:439-488 | walking back over one block keeps the set of key values equal to what the results behind it show |
| `Folding.FoldBlocksOf` | src/xgen_agent_runtime/core/message_repair.py:439-488 | one message of the reverse pass is folded as the quadratic specification says |
| `Folding.FoldSupersededResults` | src/xgen_agent_runtime/core/message_repair.py:396-490 | the single reverse pass equals "fold a result exactly when a later eligible result has the same key and carries a field" |
| `FoldingLaws.RetireShape` | src/xgen_agent_runtime/core/message_repair.py:266-337 | retiring keeps message count, roles and block positions |
| `FoldingLaws.RetireKeepsPairing` | src/xgen_agent_runtime/core/message_repair.py:266-337 | both sides of a retired pair turn into text together, so pairing is kept |
| `FoldingLaws.RetiredExactlyWithACall` | src/xgen_agent_runtime/core/message_repair.py:266-337 | a call or result turns into its text if and only if an assistant's call of a tool that is gone has its id; all else stays, and no assistant's call of such a tool is left |
| `FoldingLaws.FoldedReadsBack` | src/xgen_agent_runtime/core/message_repair.py:439-488 | the rewritten text of a folded result decodes to exactly the rewritten object, label and parts kept |
| `FoldingLaws.FoldTouchesNamedFieldsOnly` | src/xgen_agent_runtime/core/message_repair.py:374-385 | a fold keeps id and error flag, leaves every path apart from the named fields, and every named field reads as the note or as nothing |
| `FoldingLaws.FoldedShowsNothing` | src/xgen_agent_runtime/core/message_repair.py:439-488 | a folded result can neither fold again nor make another result fold |
| `FoldingLaws.FoldKeepsOutlines` | src/xgen_agent_runtime/core/message_repair.py:396-490 | folding keeps every role, block position, call and result id |
| `FoldingLaws.FoldedHistoryHasNoTwins` | src/xgen_agent_runtime/core/message_repair.py:396-490 | after folding no result that still shows something has a later twin |
| `FoldingLaws.FoldIsIdempotent` | src/xgen_agent_runtime/core/message_repair.py:396-490 | folding twice is folding once |
| `FoldingMeaning.ToolNamesAreOfTheLastCalls` | src/xgen_agent_runtime/core/message_repair.py:424-437 | the tool known for a call id is that of the last assistant call with it, by position |
| `FoldingMeaning.PayloadIsTheObject` | src/xgen_agent_runtime/core/message_repair.py:450-469 | a result has a payload if and only if it is one text (whole, its only part, or the part behind the external-data label) that reads as an object, with or without the label in front |
| `FoldingMeaning.FoldedExactlyWhenReplaced` | src/xgen_agent_runtime/core/message_repair.py:439-488 | a block changes if and only if it is a result of an eligible tool, no error, with every key value and a field, and a later such result reads the same at every key; nothing else changes or causes a change |
| `FoldingMeaning.FoldedFieldReadsTheNote` | src/xgen_agent_runtime/core/message_repair.py:374-385 | after a fold a named field that said something reads as the note, and one that said nothing as it did |
| `PruneInPlace.History.Replace` | src/xgen_agent_runtime/core/context_prune.py:114-121 | a block is rewritten in place after the hook saw the message; every original stays readable |
| `PruneInPlace.History.DedupePass` | src/xgen_agent_runtime/core/context_prune.py:464-485 | the backward walk with its seen set leaves exactly the specified deduplicated history, originals kept |
| `PruneInPlace.History.PruneMessages` | src/xgen_agent_runtime/core/context_prune.py:429-513 | both passes together leave the specified history in place, originals kept |
| `PruneInPlace.History.ShrinkToolResults` | src/xgen_agent_runtime/core/context_prune.py:305-342 | every result is shortened in proportion in place as specified, originals kept |
| `PruneInPlace.History.StripCurrentAttachments` | src/xgen_agent_runtime/core/context_prune.py:403-426 | attachments of the request go from its newest message on, at most the limit, with the right count, originals kept |
| `PruneInPlace.VisitedStep` | src/xgen_agent_runtime/core/context_prune.py:472-485 | the seen set holds exactly the digests visited so far, whether the current copy was kept or replaced |
| `ContextPruneLaws.PruneKeepsOutlines` | src/xgen_agent_runtime/core/context_prune.py:16-25 | pruning keeps count, order, roles, block positions and every call and result id |
| `ContextPruneLaws.ShrinkKeepsOutlines` | src/xgen_agent_runtime/core/context_prune.py:305-342 | proportional shrinking keeps the same |
| `ContextPruneLaws.StripCurrentKeepsOutlines` | src/xgen_agent_runtime/core/context_prune.py:403-426 | stripping the request's attachments keeps the same |
| `ContextPruneLaws.StripSomeShape` | src/xgen_agent_runtime/core/context_prune.py:403-426 | each block is as it was or a removed attachment, the limit is respected, and with room left no attachment remains |
| `ContextPruneLaws.PruneProtectsTheTail` | src/xgen_agent_runtime/core/context_prune.py:24-25 | the newest protect_last messages are exactly as they were |
| `ContextPruneLaws.PruneProtectsTheRequest` | src/xgen_agent_runtime/core/context_prune.py:452-454 | however many tool rounds followed, the request being answered keeps its attachments |
| `ContextPruneLaws.DedupeKeepsEveryLargeResult` | src/xgen_agent_runtime/core/context_prune.py:464-485 | after the dedupe pass every large result still stands in full in the same or a later message |
| `ContextPruneLaws.DedupeLeavesOneCopy` | src/xgen_agent_runtime/core/context_prune.py:464-485 | a full copy of a large content outside the protected tail is the only full copy there is |
| `ContextPruneLaws.RepeatedTrimsAreOneView` | src/xgen_agent_runtime/core/context_prune.py:232-265 | after any trims with any keep sizes a text is one head and one tail of the original, the marker counts exactly what is missing, the sum of the returned counts |
| `ContextPruneLaws.TrimPartsConserves` | src/xgen_agent_runtime/core/context_prune.py:266-302 | trimming a result of parts keeps every non-text part in order, fits the text, and its marker counts everything cut so far |
| `BackReferences.ReferenceHasItsCopy` | src/xgen_agent_runtime/core/context_prune.py:464-485 | every back-reference has exactly one copy it refers to, in the same or a later message |
| `BackReferences.ReferredCopyStandsInFullExactlyWhenUntouched` | src/xgen_agent_runtime/core/context_prune.py:82 | after the whole prune the referred copy stands in full if and only if it lies in the protected tail or the stale pass finds nothing in it to strip or to trim |
| `BackReferences.ReferredCopyCanBeTrimmed` | src/xgen_agent_runtime/core/context_prune.py:486-513 | two equal long results outside the protected tail: the back-reference points to a trimmed copy |
| `BackReferences.StrippingShows` | src/xgen_agent_runtime/core/context_prune.py:168-193 | stripping changes a result if and only if it holds a removable image or document at some depth |
| `BackReferences.TrimmingShows` | src/xgen_agent_runtime/core/context_prune.py:232-302 | trimming changes a result if and only if its text is too long, or an emptied part would be tidied away |
| `PruneMeaning.CallsArePrunedByArgument` | src/xgen_agent_runtime/core/context_prune.py:196-219 | a call keeps id, name and keys; an argument is shortened if and only if it is a string longer than input_over in a stale assistant message, to its first input_keep characters and a note of exactly how many are missing |
| `PruneMeaning.NotesTell` | src/xgen_agent_runtime/core/context_prune.py:196-219 | the note determines the count it names |
| `PruneMeaning.WordsAreNotPruned` | src/xgen_agent_runtime/core/context_prune.py:16-25 | texts, plain messages and unknown blocks are left as they are |
| `PruneMeaning.AttachmentsArePruned` | src/xgen_agent_runtime/core/context_prune.py:168-193 | an attachment goes if and only if it is stale, holds its data, may go and is not part of the protected request |
| `PruneMeaning.DedupedExactlyWhenCopied` | src/xgen_agent_runtime/core/context_prune.py:464-485 | a result becomes a back-reference if and only if it is stale, large, and a newer result (or an earlier one of its message) is as large with the same content |
| `PruneMeaning.TextResultsArePruned` | src/xgen_agent_runtime/core/context_prune.py:503-513 | a stale text result is cut if and only if it is longer than trim_over, to trim_keep characters: two thirds of them its head, the rest its end, and the count in between what is missing |
| `ReducerMeaning.RequestsAreWhatThePersonSaid` | src/xgen_agent_runtime/core/context_prune.py:350-377 | a message is a request if and only if it is the user's, not made of results only, and its text does not begin, behind white space, with one of the three runtime notes |
| `ReducerMeaning.TextsAreJoined` | src/xgen_agent_runtime/core/context_prune.py:351-361 | the texts of a message are read with a line break between them, other blocks are skipped |
| `ReducerMeaning.TheRequestIsTheNewestRun` | src/xgen_agent_runtime/core/context_prune.py:380-400 | what is protected is the newest unbroken run of requests |
| `ReducerMeaning.WhichIdsAreNamed` | src/xgen_agent_runtime/core/context_prune.py:99-102 | a trim note names a result if and only if its id is a string with more than white space in it |
| `ReducerMeaning.ResultNotesTell` | src/xgen_agent_runtime/core/context_prune.py:99-102 | the trim note determines the count it names |
| `ReducerMeaning.ResultNotesName` | src/xgen_agent_runtime/core/context_prune.py:99-102 | the result's id stands in its note |
| `ReducerMeaning.SizesCountTheNotes` | src/xgen_agent_runtime/core/context_prune.py:155-165 | the size of a result is the length of all its text as the model reads it, trim notes included |
| `ReducerMeaning.PartsReadInOrder` | src/xgen_agent_runtime/core/context_prune.py:155-165 | a result in parts reads as its text parts one after the other |
| `ReducerMeaning.DuplicatesReadTheSame` | src/xgen_agent_runtime/core/context_prune.py:143-152 | two results are duplicates if and only if their contents are equal, and their ids where a note names them |
| `ReducerMeaning.TrimPartsShowsTheBeginning` | src/xgen_agent_runtime/core/context_prune.py:266-302 | what a trimmed result in parts shows, its marker aside, is the beginning of its text: as much as fits |
| `ReducerMeaning.WhatFitsIsLeft` | src/xgen_agent_runtime/core/context_prune.py:232-302 | a result that fits is left alone and nothing is counted |
| `ReducerMeaning.StripsEachPart` | src/xgen_agent_runtime/core/context_prune.py:168-193 | stripping works part by part |
| `ReducerMeaning.ResultsShrinkToTheirShare` | src/xgen_agent_runtime/core/context_prune.py:305-342 | only results shrink; a text result is cut to its share of the factor, rounded down and at least min_keep, if that is less than the whole |
| `ReducerMeaning.OtherResultsShrinkToTheirShare` | src/xgen_agent_runtime/core/context_prune.py:319-342 | any other result, its images stripped first when asked, is trimmed to the share of its size as the model reads it |
| `RequestAttachments.NewestAttachmentsGoFirst` | src/xgen_agent_runtime/core/context_prune.py:403-426 | of the request's attachments the first `limit` go, or all without a limit, counted from its newest message and in each message from the first block on; nothing else changes |
| `RequestAttachments.AsManyGoAsTheCountSays` | src/xgen_agent_runtime/core/context_prune.py:403-426 | the number returned is the number that went: all the request has, or the limit |
| `HistoryReductions.ReductionsKeepRoles` | src/xgen_agent_runtime/core/context_prune.py:16-25 | any composition of prune, shrink, strip, fold and retire keeps message count and role order |
| `HistoryReductions.ReductionsKeepPairing` | src/xgen_agent_runtime/core/context_prune.py:20-21 | any such composition maps a well-paired history to a well-paired one |
| `HistoryReductions.PairRepairStaysANoOp` | src/xgen_agent_runtime/core/context_prune.py:20-21 | request normalisation is the identity on any reduction of a well-paired history |
| `HistoryReductions.RepairedHistoriesStayRepaired` | src/xgen_agent_runtime/core/message_repair.py:85-175 | a normalised history can be reduced at will and needs no repair afterwards |
| `Recording.KeptSuffixIsCommon` | src/xgen_agent_runtime/core/compaction.py:147-154 | the counted suffix is common to both lists, object by object, and cannot be extended |
| `RecordingLaws.FromAfterMove` | src/xgen_agent_runtime/core/compaction.py:155-188 | what lies ahead of a watermark is what was summarized unseen followed by what lies ahead of the translated one |
| `RecordingLaws.ReconcileKeepsOwed` | src/xgen_agent_runtime/core/compaction.py:130-188 | for any old and new list, queue plus unrecorded messages are unchanged for each recorder, except for what the cap drops from the front |
| `RecordingLaws.SummariesLieBelowTheWatermark` | src/xgen_agent_runtime/core/compaction.py:141-142 | every prepended summary lies below both new watermarks |
| `RecordingLaws.WindowFollowsTheList` | src/xgen_agent_runtime/core/compaction.py:186-188 | the short-term window follows a replaced list: none stays none, one that ended before the kept messages ends where they begin, any other in front of the same messages |
| `RecordingLaws.BothMarksCount` | src/xgen_agent_runtime/core/compaction.py:170 | a message counts as recorded in short-term memory when it lies behind either of its two watermarks |
| `RecordingLaws.KeepOriginalKeepsReadable` | src/xgen_agent_runtime/core/originals.py:70-82 | making room in the ledger never drops the copy of a message that is still to be recorded |
| `RecordingLaws.StepKeepsInv` | src/xgen_agent_runtime/core/originals.py:56-82 | every append, reduction, replacement and recording keeps order, single recording and readable originals |
| `RecordingLaws.RecordIsExactlyOnceAndFaithful` | src/xgen_agent_runtime/core/compaction.py:130-202 | over any run each recorder's outcomes plus what it owes are the real messages in order, each once, steering included, and short-term memory wrote each as it was before any reduction, with the steered words it could still take up |
| `RecordingLaws.LossesHappenExactlyPastTheCap` | src/xgen_agent_runtime/core/compaction.py:163-188 | for each recorder and any run: a message is lost if and only if some compaction of the run summarizes messages it has not seen and, with its queue, they exceed the cap |
| `RecordingLaws.NothingIsForgottenWithinTheCap` | src/xgen_agent_runtime/core/compaction.py:113-127 | after the next recording short-term memory holds the whole real history, each message once, in order and in its words, if and only if no compaction of the run overflowed its queue |
| `RecordingLaws.SteeredWordsAreRecordedWhenOwedAndUnkept` | src/xgen_agent_runtime/core/steer.py:155-173 | words steered into the last message change what the next recording writes if and only if that message is still owed and the ledger holds no copy of it; words that become a message of their own always do |
| `RecordingLaws.SteeredIntoAClippedResultIsForgotten` | src/xgen_agent_runtime/core/originals.py:102-134 | in any session a clipped tool result followed by steered words is recorded without the words |
| `RecordingLaws.OneTooManyIsLost` | src/xgen_agent_runtime/core/compaction.py:125-127 | with one message more than the cap, all summarized before the recorder saw any, the oldest is lost |
| `RecordingFailures.MemoryHoldsTheFailedOnesToo` | src/xgen_agent_runtime/stages/s18_memory/artifact/default/stage.py:247-263 | over any run with recordings that fail half way the session goes on as without them, and a message stands in memory once for its booked recording plus once for every failed recording that had written it |
| `RecordingFailures.HalfWayRecordingIsRepeated` | src/xgen_agent_runtime/stages/s18_memory/artifact/default/stage.py:247-263 | one message, a recording that fails after writing it and the next recording: it is there twice |
| `RecordingArchive.ArchiveWritesWhatWasSaidUnlessAltered` | src/xgen_agent_runtime/host/conversation_archive.py:140-170 | at every archiving of every run the archive writes of a message what was said if and only if it was not clipped and no reduction had left it changed |
| `RecordingArchive.SteeredTells` | src/xgen_agent_runtime/core/steer.py:165-173 | words steered into two different messages leave them different |
| `RecordingSession.Session.ReduceInPlace` | src/xgen_agent_runtime/core/originals.py:70-87 | a message is changed in place after its original was kept |
| `RecordingSession.Session.AppendSteer` | src/xgen_agent_runtime/core/steer.py:155-173 | the words join the last message without a copy when that is the user's, else they are a new message |
| `RecordingSession.CountKept` | src/xgen_agent_runtime/core/compaction.py:147-154 | the backward loop over both lists computes the kept suffix |
| `RecordingSession.MoveRecorder` | src/xgen_agent_runtime/core/compaction.py:163-188 | queue, watermark and losses of one recorder move as specified |
| `RecordingSession.Session.KeepOriginal` | src/xgen_agent_runtime/core/originals.py:70-87 | the first copy wins, and dead entries go when room is made |
| `RecordingSession.Session.AddClippedResults` | src/xgen_agent_runtime/core/originals.py:102-134 | clipped results are in the request while the ledger holds them as the tools returned them |
| `RecordingSession.Session.ReconcileRecordedIndex` | src/xgen_agent_runtime/core/compaction.py:130-188 | all watermarks and both queues follow the new list as specified |
| `RecordingSession.Session.ForgetOriginals` | src/xgen_agent_runtime/core/originals.py:171-179 | exactly the entries of the recorded messages go |
| `RecordingSession.Session.DriveProvider` | src/xgen_agent_runtime/stages/s18_memory/artifact/default/stage.py:229-263 | what is written is the queue, then what is ahead of the watermark, each in its original words, and the session moves as specified |
| `CompactionPolicy.Turn.NoteApiCall` | src/xgen_agent_runtime/core/compaction.py:214-218 | one more call of the turn |
| `CompactionPolicy.Turn.CountAttempt` | src/xgen_agent_runtime/core/compaction.py:823-846 | attempts, failures and the per-request marker are booked as specified |
| `CompactionPolicy.Turn.PruneAndDecide` | src/xgen_agent_runtime/core/compaction.py:464-477 | the prune comes first; then the decision to stop, decline, run, or run without a model call |
| `CompactionPolicy.Turn.RunCompactor` | src/xgen_agent_runtime/core/compaction.py:505-556 | one compactor run is booked, and its list installed with all watermarks when it differs by identity |
| `CompactionPolicy.Turn.RunCompaction` | src/xgen_agent_runtime/core/compaction.py:432-651 | session and counters move as specified and the report is honest: sizes, saving, target, whether the history was replaced, failure only without relief, the target met or not, and when and which reason is given for ending without a summary, each spelled out |
| `CompactionPolicy.Turn.ScheduleBackground` | src/xgen_agent_runtime/stages/s02_context/artifact/default/stage.py:686-769 | a background summary is scheduled when none is in flight, there is history and the gate lets a soft one through; the attempt is booked at once |
| `CompactionPolicy.Turn.CancelBackground` | src/xgen_agent_runtime/stages/s02_context/artifact/default/stage.py:671-684 | a summary in flight is given up, nothing is booked |
| `CompactionPolicy.Turn.CollectBackground` | src/xgen_agent_runtime/stages/s02_context/artifact/default/stage.py:771-823 | a finished background summary is booked in its own turn only, and swapped in if and only if the history still begins with its snapshot and the summary is shorter; what was said since stays behind it |
| `CompactionPolicyLaws.CallsAreGated` | src/xgen_agent_runtime/core/compaction.py:396-429 | an unasked model call happens only below both limits, a soft one only if none was made for this request |
| `CompactionPolicyLaws.AskedForIsNeverDeclined` | src/xgen_agent_runtime/core/compaction.py:403-405 | a compaction the user asked for, or one that needs no model, runs whatever the counters say, unless its prune suffices |
| `CompactionPolicyLaws.SoftPressureIsDeclinedFor` | src/xgen_agent_runtime/core/compaction.py:406-429 | under soft pressure the compactor runs if and only if fewer than six attempts and two failures are booked, none since the last request, none in the background, and the plan agrees; else the first of these is the reason given |
| `CompactionPolicyLaws.ScheduledExactlyWhen` | src/xgen_agent_runtime/stages/s02_context/artifact/default/stage.py:686-769 | a summary is left to the background if and only if none is in flight, there is a history and a soft one may run; it is made of the history as it stands, and counts at once |
| `CompactionPolicyLaws.SummariesAreBounded` | src/xgen_agent_runtime/core/compaction.py:26-28 | over any turn, background summaries included: at most six unasked summary attempts, every attempt booked, and soft pressure at most one between two API calls and never after another attempt |
| `CompactionPolicyLaws.HardPressureRunsUnlessThePlanDeclines` | src/xgen_agent_runtime/core/compaction.py:396-429 | under hard pressure the compactor runs if and only if the prune misses the target and the plan gives no reason not to, once six attempts or the failure limit are reached without a model call, at any point of any turn |
| `CompactionPolicyLaws.HardPressureCanBeDeclined` | src/xgen_agent_runtime/core/compaction.py:422-424 | a plan that finds the region too small leaves hard pressure without relief: nothing changes |
| `CompactionPolicyLaws.CompactionIsARun` | src/xgen_agent_runtime/core/compaction.py:464-560 | one whole compaction is rewrites, at most one replaced list, and rewrites: a run of session steps that appends nothing |
| `CompactionPolicyLaws.TurnIsASessionRun` | src/xgen_agent_runtime/core/compaction.py:432-651 | a turn with any compactions and background summaries in it is a run of the recorded session with the same appended messages |
| `CompactionPolicyLaws.CompactingTurnsKeepTheRecord` | src/xgen_agent_runtime/core/compaction.py:130-142 | whatever a turn compacts, at once or in the background, each recorder's outcomes plus what it owes are what was due before followed by what the turn appended |
| `CompactionFailures.SoftPressureStopsAfterTwoBookedFailures` | src/xgen_agent_runtime/core/compaction.py:411-420 | at any point of any turn with attempts left, soft pressure can have the model asked again if and only if fewer than two failures since the last success were booked |
| `CompactionFailures.RaisedSummariesDoNotStopSoftPressure` | src/xgen_agent_runtime/stages/s02_context/artifact/default/stage.py:782-783 | two background summaries that raise are two failed attempts, and soft pressure asks a third time |
| `CompactionFailures.FailingModelIsAskedMoreThanTwice` | src/xgen_agent_runtime/core/compaction.py:26-28 | at any point of any turn that asked at most twice and has attempts left, a model that only fails can be asked a third time if and only if fewer than two failures are booked |
| `CompactionFailures.FailingModelIsAskedTwice` | src/xgen_agent_runtime/core/compaction.py:26-28 | the upper bound: two attempts in a turn that left no summary to the background; else once more, and once more for each background summary that ended unbooked |
| `CompactionFailures.EventKeepsHonest` | src/xgen_agent_runtime/stages/s02_context/artifact/default/stage.py:789-796 | the failure counter is the number of booked failures since the last success, and the request marker never runs ahead |
| `BackgroundSummaries.CollectingKeepsWhatWasSaidSince` | src/xgen_agent_runtime/stages/s02_context/artifact/default/stage.py:797-823 | after a swap the conversation is the head followed by every message that stood behind the snapshot, in order, and of that length; without one it is as it was |
| `BackgroundSummaries.WhatWasSaidMeanwhileStays` | src/xgen_agent_runtime/stages/s02_context/artifact/default/stage.py:771-823 | whatever a turn appends while the summary is made stands, in order, behind what the collection installs |
| `BackgroundSummaries.SwapCountsForThisRequest` | src/xgen_agent_runtime/stages/s02_context/artifact/default/stage.py:823-825 | a summary that is swapped in keeps soft pressure from summarizing again before the next request |
| `EventTaps.EventStream.RecordEvent` | src/xgen_agent_runtime/core/pipeline.py:2817-2829 | the event is numbered, journaled within the bound and put into every live tap's queue |
| `EventTaps.EventStream.OpenTap` | src/xgen_agent_runtime/core/pipeline.py:2791-2796 | a new tap registers its queue, unless the pipeline is closed |
| `EventTaps.EventStream.SnapshotJournal` | src/xgen_agent_runtime/core/pipeline.py:2797-2801 | the replay is the journal as it stands, or nothing for a live-only tap |
| `EventTaps.EventStream.NextEvent` | src/xgen_agent_runtime/core/pipeline.py:2801-2812 | the two loops yield the next event past the cursor, from the replay and then from the queue |
| `EventTaps.EventStream.DetachTap` | src/xgen_agent_runtime/core/pipeline.py:2813-2815 | a consumer that closes takes its queue out of the live ones; no other tap changes |
| `EventTaps.EventStream.CloseStream` | src/xgen_agent_runtime/core/pipeline.py:1142-1148 | every live tap gets the close sentinel |
| `EventTapsLaws.PullKeepsTap` | src/xgen_agent_runtime/core/pipeline.py:2797-2812 | a pull keeps the tap in order, and when it finds nothing everything so far was yielded |
| `EventTapsLaws.TapsYieldTheStream` | src/xgen_agent_runtime/core/pipeline.py:2772-2786 | over every interleaving each tap yields one gapless stretch of the log with contiguous numbers, and all of it whenever it has to wait |
| `EventTapsLaws.TapsStartAtTheirCursor` | src/xgen_agent_runtime/core/pipeline.py:2774-2781 | a cursor of 0 or more starts at the oldest event past it that the journal still holds; a negative one where it stood, with everything queued since |
| `EventTapsLaws.LiveTapsStartAtTheirOpening` | src/xgen_agent_runtime/core/pipeline.py:2774-2781 | a tap opened with a negative cursor yields, over any run, exactly a gapless stretch of what is recorded from its opening on |
| `EventTapsLaws.StartStays` | src/xgen_agent_runtime/core/pipeline.py:2797-2812 | once set, where a tap starts never moves |
| `EventTapsLaws.YieldsWhenPulled` | src/xgen_agent_runtime/core/pipeline.py:2801-2815 | a tap yields what its pull returns and nothing at any other time; a closed generator never again |
| `EventTapsLaws.ConsumersAreIndependent` | src/xgen_agent_runtime/core/pipeline.py:2791-2815 | what one consumer does changes neither the stream nor another tap |
| `EventTapsLaws.OneTapSeesOneEvent` | src/xgen_agent_runtime/core/pipeline.py:2791-2829 | a tap on a new stream, one event, one pull: the tap has it |
| `EventTapsLaws.TapsEndExactlyWhenClosed` | src/xgen_agent_runtime/core/pipeline.py:2784-2790 | a tap that finds nothing waits on while the pipeline is open, and ends when it is closed |
| `EventTapsLaws.TeardownLosesNothing` | src/xgen_agent_runtime/core/pipeline.py:1142-1148 | a tap live at the teardown yields everything recorded up to then, however late it is pulled, then ends; nothing recorded later reaches it |
| `Steering.Inbox.Offer` | src/xgen_agent_runtime/core/steer.py:86-104 | a message is accepted exactly when it is not blank and the inbox is open |
| `Steering.Inbox.TakeOrClose` | src/xgen_agent_runtime/core/steer.py:113-123 | one locked step either takes everything queued or closes |
| `Steering.Inbox.Close` | src/xgen_agent_runtime/core/steer.py:125-133 | the inbox closes and everything queued is rejected, each once |
| `Steering.Inbox.Resolve` | src/xgen_agent_runtime/core/steer.py:135-146 | an outcome is recorded and told once |
| `Steering.Turn.AppendSteer` | src/xgen_agent_runtime/core/steer.py:155-173 | the text joins the last message when that is the user's, else it is a new user message |
| `Steering.Turn.TakeSteer` | src/xgen_agent_runtime/core/pipeline.py:3044-3089 | the check at the loop boundary does to inbox, conversation and verdict what the specified step does, all outcomes told |
| `SteeringLaws.SteeringLosesNothing` | src/xgen_agent_runtime/core/steer.py:15-25 | over every interleaving a closed inbox is empty, accepted is delivered then rejected then queued in offer order, and nobody is told two outcomes |
| `SteeringLaws.CompleteMeansClosedAndResolved` | src/xgen_agent_runtime/core/pipeline.py:3049-3051 | when the check leaves the verdict at "complete" the inbox is closed and every accepted message has its outcome or is in the hands of a host close in progress |
| `SteeringLaws.EveryMessageGetsItsOutcome` | src/xgen_agent_runtime/core/steer.py:15-20 | once closed and told on both sides, every accepted message has an outcome |
| `SteeringLaws.OutcomesTellTheTruth` | src/xgen_agent_runtime/core/steer.py:17-20 | in every run whose host never offers again what the turn took, "delivered" means in the conversation and not refused, "not delivered" means refused and not in the conversation |
| `SteeringLaws.OnlyReoffersCanBeMisreported` | src/xgen_agent_runtime/core/steer.py:86-104 | after any such run one more accepted offer makes a false outcome reachable if and only if the object is in the conversation already |
| `SteeringLaws.StaysTrueWhileApart` | src/xgen_agent_runtime/core/steer.py:135-146 | from any reachable state outcomes stay true, however a careful host goes on, if and only if no object in the conversation is queued or refused |
| `SteeringLaws.ReofferedMessageCanBeMisreported` | src/xgen_agent_runtime/core/steer.py:86-104 | an object offered again after it was taken can be told "not delivered" although its words are in the conversation |
| `SteeringLaws.TellingInOneGo` | src/xgen_agent_runtime/core/pipeline.py:3075-3089 | telling all outcomes in one method is a run of single telling steps |
| `SteeringWords.WordsStand` | src/xgen_agent_runtime/core/steer.py:149-152 | the words of every message that is not blank stand in the body at its own offset |
| `SteeringWords.WordsStandInOrder` | src/xgen_agent_runtime/core/steer.py:149-152 | the offsets follow offer order, with room for a blank line between the words of two messages |
| `SteeringWords.LastWordsEndTheBody` | src/xgen_agent_runtime/core/steer.py:149-152 | the body ends with the last message's words |
| `SteeringWords.OnlyLineBreaksBetween` | src/xgen_agent_runtime/core/steer.py:149-152 | every character of the body that is no line break belongs to the words of some message |
| `SteeringWords.WordsAreTrimmed` | src/xgen_agent_runtime/core/steer.py:149-152 | a message's words are its text without the white space around it, and nothing else is left out |
| `SteeringWords.TakenWordsEndTheConversation` | src/xgen_agent_runtime/core/pipeline.py:3044-3089 | at every check of every run: either the queue is taken and the user's last words end with a text holding every taken message in offer order, nothing else changed; or neither conversation nor deliveries change |
| `SteeringWords.SteeringKeepsTheConversation` | src/xgen_agent_runtime/core/steer.py:155-163 | the words are a new user message, or join the user's last one as a block of their own or behind a blank line; nothing else changes, and no two user messages become neighbours |
| `SteeringWords.CheckAfterAPass` | src/xgen_agent_runtime/core/pipeline.py:3044-3089 | one pass and its check, from every reachable state: single-pass or stopping turns close and refuse what is queued; else what is queued is taken and the loop goes on, and only "complete" with nothing queued closes the inbox |
| `SteeringWords.DeliveredInOfferOrder` | src/xgen_agent_runtime/core/steer.py:15-25 | over every run the accepted messages are, in offer order, what was queued at the checks that changed the conversation, batch by batch, then the refused, then the queued |
| `AgentLoop.PipelineState.SetStatus` | src/xgen_agent_runtime/core/state.py:577-615 | a mark sets status, reason and resumability together |
| `AgentLoop.PipelineState.BeginTurn` | src/xgen_agent_runtime/core/state.py:348-388 | a new turn resets the slice and the turn's cost |
| `AgentLoop.PipelineState.ResetSlice` | src/xgen_agent_runtime/core/state.py:460-481 | a continuation slice resets the slice and keeps the turn's cost |
| `AgentLoop.PipelineState.InitState` | src/xgen_agent_runtime/core/pipeline.py:3266-3296 | a run is refused while another is in flight, a continuation unless suspended; refusal changes nothing |
| `AgentLoop.PipelineState.EndTurn` | src/xgen_agent_runtime/core/pipeline.py:3405-3423 | exactly the cost not yet accounted is folded into the session, and the guard is released |
| `AgentLoop.PipelineState.FinishPass` | src/xgen_agent_runtime/core/pipeline.py:3131-3215 | verdict adjustments, steering, iteration and budget guards and the status mapping of one pass |
| `AgentLoop.PipelineState.RunLoop` | src/xgen_agent_runtime/core/pipeline.py:3126-3215 | the while loop terminates and leaves the specified state after the specified number of passes |
| `AgentLoopLaws.LoopEndsHonestly` | src/xgen_agent_runtime/core/pipeline.py:3126-3215 | whatever stages and steering decide: at most max(1, max_iterations) passes, exactly one in single-pass runs, never "running" afterwards, resumable exactly when suspended |
| `AgentLoopLaws.StatusTellsWhyTheLoopEnded` | src/xgen_agent_runtime/core/pipeline.py:3197-3215 | without explicit marks each status holds if and only if the last pass, or the named guard, is the reason |
| `AgentLoopLaws.ExplicitMarksWin` | src/xgen_agent_runtime/core/state.py:577-615 | the last status a stage marks stands, whatever the verdict, unless a guard ends the loop |
| `AgentLoopLaws.EveryRunHasItsPasses` | src/xgen_agent_runtime/core/pipeline.py:3157-3196 | in every life of a state a run counts its own passes: one that asks for more is followed by another until this run made max(1, max_iterations) of them and is suspended, or the cost reached the budget and it is blocked |
| `AgentLoopLaws.LastPassEndsTheRun` | src/xgen_agent_runtime/core/pipeline.py:3131-3158 | a pass that does not ask for more ends the run and is not counted against the limit |
| `AgentLoopLaws.RunsBeginFresh` | src/xgen_agent_runtime/core/state.py:348-388 | a run that is let in starts with no passes made and nothing of the last verdict, status or reason; a new turn without cost, a continuation with the cost so far |
| `AgentLoopLaws.EveryStateIsHonest` | src/xgen_agent_runtime/core/state.py:577-615 | in every reachable state, mid-run included, resumable means suspended, no finished loop is "running", and the pass bound holds |
| `AgentLoopLaws.ContinuationsFollowSuspension` | src/xgen_agent_runtime/core/pipeline.py:3272-3292 | a continuation is taken if and only if the state is resumable and at rest; a refused run changes nothing |
| `AgentLoopLaws.CostIsConserved` | src/xgen_agent_runtime/core/pipeline.py:3416-3419 | session total plus the unaccounted part of the turn plus what new turns dropped equals the sum of all charges |
| `AgentLoopLaws.SessionCountsEveryChargeOnce` | src/xgen_agent_runtime/core/pipeline.py:3416-3419 | when runs do the charging, the session total at rest is the sum of all charges |
| `AgentLoopLaws.FailedSetupLosesTheContinuation` | src/xgen_agent_runtime/core/pipeline.py:3286-3296 | after a run whose setup fails a suspended state can still be continued if and only if the run was a new turn on a state that had neither run nor held messages; else it is left "running" at rest |
| `AgentLoopLaws.FailedSetupStrandsASuspendedState` | src/xgen_agent_runtime/core/pipeline.py:3286-3296 | a turn that suspends, then a continuation whose setup fails: the next continuation is refused |
| `AgentLoopLaws.LoopIsPasses` | src/xgen_agent_runtime/core/pipeline.py:3126-3215 | one run of the loop is that many passes in the life of the state |
| `RolloutWriter.WriterState.EnsureOpen` | src/xgen_agent_runtime/core/rollout_recorder.py:93-110 | opening finishes an unfinished last line once and leaves a file fit for appending; only a failed operation makes it fail |
| `RolloutWriter.WriterState.WriteLines` | src/xgen_agent_runtime/core/rollout_recorder.py:78-91 | written lines leave the pending list even when a later operation fails; written then pending never changes as a whole |
| `RolloutWriter.WriterState.WritePendingOnce` | src/xgen_agent_runtime/core/rollout_recorder.py:68-91 | success leaves nothing pending, and with the barrier everything in the file durable, also when only the barrier was missing |
| `RolloutWriter.WriterState.WritePending` | src/xgen_agent_runtime/core/rollout_recorder.py:60-66 | one failure is absorbed by the retry: failure means two failed operations |
| `RolloutWriter.WriterState.WriterLoop` | src/xgen_agent_runtime/core/rollout_recorder.py:254-287 | over any commands and any failures: file then pending is everything accepted, each barrier is answered in order; a successful one holds every line accepted before it, durably and for good; a failed one had two failed operations of its own; the first successful shutdown ends the loop |
| `RolloutWriter.BarrierCovers` | src/xgen_agent_runtime/core/rollout_recorder.py:122-126 | a barrier that leaves nothing pending covers every line accepted before it |
| `RolloutWriter.AcceptedHoldsEachLine` | src/xgen_agent_runtime/core/rollout_recorder.py:260-266 | the lines of each add stand together among the accepted ones, behind those of earlier commands |
| `RolloutWriter.AcceptedHoldsNothingElse` | src/xgen_agent_runtime/core/rollout_recorder.py:260-266 | every accepted line is one of them |
| `RolloutWriter.BarriersAreTheOthers` | src/xgen_agent_runtime/core/rollout_recorder.py:267-275 | the commands that get an answer are exactly the flushes and shutdowns, in order |
| `RolloutWriter.CoveredFileReadsBack` | src/xgen_agent_runtime/core/rollout_recorder.py:85-91 | what a barrier covers reads back line by line as the old lines followed by exactly the accepted ones |
| `Decimals.DigitsReadBack` | src/xgen_agent_runtime/core/diff.py:155 | a number is printed by its digits, without leading zeros |
| `Decimals.DecimalTellsNumbers` | src/xgen_agent_runtime/core/diff.py:155 | numbers that print alike are equal |
| `EnvironmentDiff.SortedIsAscending` | src/xgen_agent_runtime/core/diff.py:127 | keys are visited in ascending order |
| `EnvironmentDiff.OrderKeyed` | src/xgen_agent_runtime/core/diff.py:9-32 | a list qualifies if and only if it is non-empty and its entries have distinct orders, and then each order maps to its entry |
| `EnvironmentDiff.Compute` | src/xgen_agent_runtime/core/diff.py:112-188 | the recursive loops over sorted keys report the specified comparison, each path printed as one string and matched as such against the ignored keys |
| `EnvironmentDiff.ComputeLists` | src/xgen_agent_runtime/core/diff.py:143-184 | order-keyed, positional and opaque lists are told apart and reported as specified |
| `EnvironmentDiffLaws.EmptyExactlyWhenSame` | src/xgen_agent_runtime/core/diff.py:111-188 | with no ignored keys there is no entry if and only if both sides are equal up to the order of order-keyed lists |
| `EnvironmentDiffLaws.NoDifferenceIsAnEquivalence` | src/xgen_agent_runtime/core/diff.py:111-188 | having no difference is reflexive, symmetric and transitive |
| `EnvironmentDiffLaws.ReorderingIsNoChange` | src/xgen_agent_runtime/core/diff.py:145-153 | writing a list of dictionaries with distinct numbers under "order" in another order produces no entry |
| `EnvironmentDiffLaws.CompareMirrors` | src/xgen_agent_runtime/core/diff.py:111-188 | comparing the other way round gives the mirror image entry by entry, whatever keys are ignored |
| `EnvironmentRebuild.ThroughKids` | src/xgen_agent_runtime/core/diff.py:129-188 | the entries about one part, found by the segments of their path before it is printed, are exactly that part's |
| `EnvironmentRebuild.SameItemsSameList` | src/xgen_agent_runtime/core/diff.py:171-179 | lists with the same entries position by position are the same, order-keyed or not |
| `EnvironmentRebuild.EntriesAreInOrder` | src/xgen_agent_runtime/core/diff.py:127-165 | entries are listed by key, order or position, ascending |
| `EnvironmentRebuild.RebuildsTheOther` | src/xgen_agent_runtime/core/diff.py:111-188 | one side and the entries, with the segments of their paths, give back the other side, up to the order of order-keyed lists |
| `EnvironmentIgnored.IgnoredKeysOnlyHide` | src/xgen_agent_runtime/core/diff.py:129-133 | for every set of ignored paths the comparison is the one that ignores nothing, without exactly the entries at or below a key, past the starting path, that prints as an ignored path |
| `EnvironmentIgnored.NothingVisible` | src/xgen_agent_runtime/core/diff.py:104-109 | no entry is left if and only if every difference is at or below an ignored key |
| `EnvironmentPaths.PrintTellsPaths` | src/xgen_agent_runtime/core/diff.py:130-178 | spelt with a clear alphabet (no dot, and not both brackets and a digit), different paths print differently |
| `EnvironmentPaths.ReportsRebuildTheOther` | src/xgen_agent_runtime/core/diff.py:111-188 | for environments with such keys the reported diff determines the other side, up to the order of order-keyed lists |
| `EnvironmentPaths.ReportsDecideExactlyForClearKeys` | src/xgen_agent_runtime/core/diff.py:130-178 | for every alphabet: the reported diff always determines the other side, for non-empty keys over it, if and only if the alphabet is clear |
| `EnvironmentPaths.JoinedKeyCollides` | src/xgen_agent_runtime/core/diff.py:130 | every key that reads like a key behind another (p.q) has environments that differ and are reported alike |
| `EnvironmentPaths.BracketedKeyCollides` | src/xgen_agent_runtime/core/diff.py:178 | so has every key that reads like a list position behind another key |
| `EnvironmentPaths.DottedKeyIsAmbiguous` | src/xgen_agent_runtime/core/diff.py:130 | with the keys "a.b" and "a" holding "b", either change is reported as a change of "a.b" |
| `HeadTail.Buffer.PushChunk` | src/xgen_agent_runtime/core/_head_tail_buffer.py:47-59 | whatever the chunk, the buffer shows the longer stream |
| `HeadTail.Buffer.PushTail` | src/xgen_agent_runtime/core/_head_tail_buffer.py:61-81 | the tail becomes the end of the longer rest and what falls out is counted |
| `HeadTail.Buffer.ToBytes` | src/xgen_agent_runtime/core/_head_tail_buffer.py:83-86 | the retained bytes; the whole stream when it fits the budget |
| `HeadTail.StreamGrows` | src/xgen_agent_runtime/core/_head_tail_buffer.py:54-59 | a longer stream fills the head first and then goes behind the rest |
| `HeadTail.BufferKeepsBothEnds` | src/xgen_agent_runtime/core/_head_tail_buffer.py:1-7 | head is a prefix, tail a suffix, every byte is retained or counted, and nothing is lost within the budget |
| `HeadTail.Collect` | src/xgen_agent_runtime/core/_head_tail_buffer.py:17-86 | for every chunking the buffer and its counts depend on the stream alone |
| `TextTokens.EstimateTokens` | src/xgen_agent_runtime/core/text_tokens.py:95-139 | the nested loops compute the specified estimate |
| `TextTokens.NearlyAdditive` | src/xgen_agent_runtime/core/text_tokens.py:112-137 | for every split the unrounded estimates differ by at least -1 and at most 0.25 |
| `TextTokens.EstimateIsBounded` | src/xgen_agent_runtime/core/text_tokens.py:139 | a non-empty text counts at least one token and at most two per character |
| `TextTokens.TimesIsTheProduct` | src/xgen_agent_runtime/core/text_tokens.py:125-126 | the price of a Hangul run is its length times the factor |
| `TokenCounts.KindsAreDisjoint` | src/xgen_agent_runtime/core/text_tokens.py:40-92 | each character is of exactly the kind whose range it lies in |
| `TokenCounts.OneKindCounts` | src/xgen_agent_runtime/core/text_tokens.py:116-135 | what a text of n letters, digits, Hangul, ideographs, spaces, line breaks, marks or symbols counts |
| `TokenCounts.KindsAdd` | src/xgen_agent_runtime/core/text_tokens.py:108-137 | a text put together where the kind changes counts what its parts count together |
| `TokenCounts.EstimateRounds` | src/xgen_agent_runtime/core/text_tokens.py:139 | the estimate is the count rounded to the nearest integer, a half upwards, and at least 1 |
| `TextTokens.WindowTouch` | src/xgen_agent_runtime/core/text_tokens.py:188-197 | moving a hit to the end, appending a miss and dropping the oldest is what use does to the newest entries |
| `TextTokens.RecentIsByLastUse` | src/xgen_agent_runtime/core/text_tokens.py:169-173 | entries stand in the order of their last use |
| `TextTokens.TokenCache.EstimateCached` | src/xgen_agent_runtime/core/text_tokens.py:179-198 | the cached value is the plain one when no two texts of one length hash alike, and always that of some text in the same slot; the cache holds the at most 16,384 slots used most recently |

## Left out

- Whole-pass idempotence of the prune: not a property of the code, because stripping or trimming can make two results equal and the next pass dedupes them. Trimming one text result any number of times is covered instead.
- Prune metrics, events and the wording of notes beyond their length: they only report.
- The regular expression that finds a trim marker: a cut result is a head, a count and a tail, and a text part's marker is a field of its own. Text that happens to look like a marker is plain text here.
- JSON text, SHA-1 and `str()` conversions: JSON is a codec with a read-back law, digests compare contents, and non-dictionary messages are messages of another role.
- The clipped wording of retired calls and results: an arbitrary function of the block.
- The bridge prefix of tool names and the retired-by-name entry point: a predicate on names.
- Negative keep sizes and negative `protect_last`: sizes are natural numbers.
- One message object placed twice in a pruned list: the in-place reducers work on an array of message values.
- Hash-based identity of messages after their memory is reused: identities are never reused.
- `original_tool_result`: a read-only search through the ledger.
- What recorders write around a message (dehydration of payloads, the archive's role and text filter): the archive is modelled as writing each message as it stands when archived.
- The provider-driven memory strategy (`src/xgen_agent_runtime/memory/strategy.py:111-129`): it swallows the failure of a single record and still moves the watermark, so there a message is lost rather than repeated.
- The context strategies that shorten the message list without moving the watermarks (`src/xgen_agent_runtime/stages/s02_context/artifact/default/strategies.py:70-73` and `:134`): no run of the model contains such a step.
- RecordingLaws.RecordIsExactlyOnceAndFaithful: words steered into a message count as said when memory can still take them up, that is while the message is owed and unkept; recording a batch is one step of a run, so it holds as long as no recording fails half way (`RecordingFailures` says what then happens); it takes a rehydrated start with watermarks inside the list and distinct message objects.
- A compactor that replaces the list and then raises: a raising compactor leaves the list as it was.
- The summary text, the plan, token estimates, the background-summary clock (whether it still runs at a check) and the relief under hard pressure: arbitrary functions of the session.
- CompactionPolicyLaws.SummariesAreBounded: a background summary counts as an attempt when it is scheduled, as the code books it, whether or not it then calls the model; assumes, as the request contract says, that a compactor told `digest_only` makes no model call and that one not backed by a model makes none.
- FoldingLaws.FoldIsIdempotent: assumes JSON objects read back as written and never start with the external-data label.
- The rollout recording done inside event stamping, events emitted on the raw bus, and what is put behind a close sentinel: no tap reads it.
- EventTapsLaws.TapsStartAtTheirCursor: registering a queue and taking the snapshot are two steps here, so it also covers events that arrive in between.
- The wait handle and callbacks of a steered message: telling the host is one step.
- Stage code, hooks, checkpoints and the text of completion details: stages are arbitrary verdicts, marks and costs, and the five verdicts are the only ones.
- Token accounting and auxiliary usage: only cost is modelled, as exact numbers.
- A cancelled run: it is a run that ends without a mark.
- Operating-system buffering and torn writes: a write that returns has appended its line, as the recorder itself assumes.
- The bounded command queue and its backpressure error, and cancellation of a shutdown: commands arrive as one sequence.
- EnvironmentDiff.Compute: scalars are classes of equal values with an arbitrary conversion to integers for `order`, keys compare by the numbers of their characters, and the prefix is carried as segments and printed where it is reported or matched.
- Diff filters, summaries and serialization: comprehensions over the entries.
- The omission marker text of the output buffer and input validation in its constructor.
- TextTokens.EstimateIsBounded: for Hangul prices from 0 to 2, which covers both constants of the code.
- Floating-point rounding in the token estimate and in costs: exact arithmetic.
- TextTokens.TokenCache.EstimateCached: one call at a time; two threads that miss the same text at once are not modelled.
- Provider factors and `chars_for_tokens`: constant tables and one multiplication.
- Model clients, MCP, credentials, tool registration, manifests, channels, gateway, audio, images and the event catalogue: plumbing and I/O.
- Mutation batches, environment building and the cron runner: branch lists over untyped dictionaries or code that depends on an outside library.
