# Verified models of the desktop conversation client

This project models the parts of the desktop renderer that decide what a user sees and what
is sent: the diff review, the activity of threads, the event log and session of a
conversation, the content of the composer, two derived views, and the row selection of the
evaluation tools. Each model is proved, for every input or every run, to do what the code
and its documentation promise. Where a promise does not hold as stated, a lemma gives an
input that breaks it and another lemma says exactly when it does hold.

Code that computes a value is a function with lemmas about it. Code that loops or updates
an object is a method or a class; its contract ties it to a function, and the lemmas are
about that function.

| module | component |
|---|---|
| `DiffModel`, `DiffBlocks`, `DiffRuns`, `DiffReading`, `DiffAlignment` | folding hunks and untouched gaps into blocks, what each run of changes becomes, and what a reader of the blocks sees |
| `DiffText`, `DiffParser`, `DiffRoundTrip`, `DiffPatches`, `DiffReview` | parsing a unified diff, its printer, the texts of the patches, and edits in texts as hunks |
| `WordDiff`, `DiffSpans`, `TokenKinds`, `DiffSpanEdges`, `DiffRows`, `DiffRowIds`, `DiffMarks`, `DiffViews` | changed words of a line, its tokens and spans, the rows of both views with their ids and marks, and all of it from text to rows |
| `ThreadRun`, `ActivityStore`, `ActivityReplay`, `ActivityWake`, `ActivityLive`, `ActivityTurns`, `ThreadActivityStore` | run state and activity record of a thread, where events, snapshots and sends take it, replays, live snapshots, and the store object |
| `EventMerge`, `EventRuns`, `EventRedelivery`, `SessionProtocol`, `SessionProgress`, `SessionController` | merging event batches, which events are joined, delivering events again, and the connect, load and stream protocol with what it gets done and its controller object |
| `Composer`, `ComposerContents`, `ComposerHistory`, `ComposerCuts`, `ComposerSeams`, `ComposerLineEnds`, `ComposerCarets`, `ComposerDrafts` | content in normal form and as tokens, undo and deletion clean-up, what joining texts does to their tokens, carets, reading stored drafts |
| `EventProjection`, `ProjectionAnswers`, `CacheDiagnostics`, `CacheReasons` | the one-pass view of a log and what it answers, the search for a cache break, and every reason given for one |
| `RoundRobin` | the selection of evaluation rows |
| `Prelude`, `Strings`, `StableSort` | shared definitions |

Every lemma carries `{:induction false}`: its proof is its body.

## Findings

- A hunk with an empty range is numbered by the line *before* it (POSIX.1-2008, utility
  `diff`, section "Diff -u or -U Output Format"), but `buildDiffBlocks` takes the number as
  that of a first line. `InsertionWithoutContextIsMisread` shows a file that is then shown
  wrongly; `BlocksReadBothFiles` gives the exact condition on the hunk headers.
- `reconcileCancellation` with a turn that is no longer active brings that turn back into a
  finished record. `LateCancellationRevivesATurn` shows a run;
  `ReconcileCancellationKeepsOkExactly` gives the exact condition.
- After compaction an event of a delta run must not be delivered to the merge again:
  `CompactedDeltasMustNotComeBack` shows text being doubled and text being lost.
  `RedeliveryIsHarmlessExactly` gives the exact condition on the log and the event.
- The clean-up after a deleted reference is not idempotent when the gap it closes lies
  between a carriage return and a line feed: `JoinedLineEndIsLost`. `CleanUpTwice` proves
  that this is the only case, for every segmentation that follows the line end rules of
  Unicode Standard Annex #29 (GB3, GB4 and GB5), whatever it does with other characters.
- The caret of an undo entry can stand behind the end of the entry when a piece reaches over
  the place of the insertion: `CaretBehindTheEnd`. `PlainCaretExactly` gives the exact
  condition where pieces join at a seam or do not; `PlainCaretAtAnySeam` gives it for every
  segmentation that reads from left to right, by the pieces that the two seams lose.
- A changed range that begins behind the line can give the line an empty span, and one that
  ends before it can show a character twice: `EmptySpanBehindTheLine`, `CharacterShownTwice`.
  `SpansAtTheEdge` gives the exact condition for every list of ranges.
- An event that is stale for the activity store comes to life again when its record is
  dropped, and only then: `ResetWakesAnEvent`, `InertAfterExactly`.
- An empty previous trace before one with segments is reported as an insertion although it
  is a prefix: `EmptyTraceIsABreak`, `NoBreakpointExactly`.
- The projection ignores events whose turn id is empty, while the scan for one turn does
  not: `EmptyTurnIsNotShown`, `ShownExactly`.

## Model

| member | source | states |
|---|---|---|
| `DiffBlocks.PushGap` | apps/desktop/src/diffReview.ts:427-456 | a gap is expanded exactly when it is chosen, the new file is loaded and holds all its lines; otherwise it stays a gap |
| `DiffBlocks.SettleChange` | apps/desktop/src/diffReview.ts:505-541 | with white space ignored, leading pairs that differ in white space only become context with the new text, and the rest stays a change; `DiffRuns.RunIsDemoted` tells it from the lines alone |
| `DiffBlocks.SplitHunkLines` | apps/desktop/src/diffReview.ts:458-503 | the loop over a body produces the blocks of the buffer machine fed line by line |
| `DiffBlocks.BuildDiffBlocks` | apps/desktop/src/diffReview.ts:379-425 | the loop over the hunks produces the recursively defined block list, tail gap included; `DiffRuns` and `DiffAlignment` say what these blocks are |
| `DiffBlocks.OntoIsFrom` | apps/desktop/src/diffReview.ts:379-425 | folding onto blocks already made is the same as folding from scratch and joining |
| `DiffReading.SettledReads` | apps/desktop/src/diffReview.ts:505-541 | settling a change does not alter what either side reads, up to white space where that is ignored |
| `DiffReading.BodyReads` | apps/desktop/src/diffReview.ts:458-503 | the blocks of a hunk body read, on each side, as the lines of the body in their order |
| `DiffRuns.CollapseIs` | apps/desktop/src/diffReview.ts:543-545 | comparing without white space compares the other characters, all of them and in their order |
| `DiffRuns.BodyRunByRun` | apps/desktop/src/diffReview.ts:458-503 | a body is folded run by run: context, then removed, then added lines; a removed line behind an added one begins another run |
| `DiffRuns.RunIsDemoted` | apps/desktop/src/diffReview.ts:505-541 | a run whose first k pairs, and not the next, differ in white space only becomes one context block of k lines with the new texts and both numbers, followed by the rest as one change; without ignoring white space it is one change |
| `DiffRuns.NoBlankPairIsLeft` | apps/desktop/src/diffReview.ts:505-541 | with white space ignored no change of a file begins with two lines that differ in white space only |
| `DiffRuns.GapIsExpandedExactly` | apps/desktop/src/diffReview.ts:427-456 | a gap is expanded exactly when the reader has chosen it and its lines are loaded, to these lines with both numbers |
| `DiffRuns.GapsAreFoldedRightly` | apps/desktop/src/diffReview.ts:379-456 | every gap left in the blocks of a file is not empty, and not chosen or not loaded |
| `DiffAlignment.BlocksReadBothFiles` | apps/desktop/src/diffReview.ts:379-541 | for hunks that turn one file into another, with all gaps expanded, the blocks read exactly both files, line by line and number by number, if and only if the hunk positions are aligned |
| `DiffAlignment.NonEmptySidesAlign` | apps/desktop/src/diffReview.ts:379-425 | positions are aligned whenever no hunk has an empty side |
| `DiffAlignment.ContextDiffsReadBothFiles` | apps/desktop/src/diffReview.ts:379-541 | so for hunks with a line on each side both files are read exactly |
| `DiffAlignment.InsertionWithoutContextIsMisread` | apps/desktop/src/diffReview.ts:392-408 | a hunk `@@ -1,0 +2 @@` turns one file into another and the blocks do not read both |
| `DiffAlignment.ExpandingTheRest` | apps/desktop/src/diffReview.ts:427-456 | whichever gaps are expanded so far, expanding the others gives the fully expanded blocks |
| `DiffText.HeaderRoundTrip` | apps/desktop/src/diffReview.ts:57-62 | a printed hunk header, with counts of one left out or not, scans to its ranges |
| `DiffText.NormalizeJoin` | apps/desktop/src/diffReview.ts:64-70 | whichever line end each line has, normalising and splitting sees the same lines |
| `DiffParser.HunkBuffer.ConsumeHunkLine` | apps/desktop/src/diffReview.ts:196-240 | the in-place update of an open hunk is the function `Consume`: numbers from the remaining counts, refusal when a side is used up |
| `DiffParser.LineIsConsumedExactly` | apps/desktop/src/diffReview.ts:196-240 | a line belongs to an open hunk exactly when it is a note or each file it is a line of has lines left, a context line with its blank cut off included; kind, text, numbers and counts follow from its marker |
| `DiffParser.ParseUnifiedDiff` | apps/desktop/src/diffReview.ts:64-136 | the loop with its open file and hunk computes the parser machine's result |
| `DiffRoundTrip.ParsePrinted` | apps/desktop/src/diffReview.ts:64-240 | printing sections whose counts match their bodies and parsing gives back every hunk, line, kind and number, whatever the body text looks like |
| `DiffRoundTrip.ParsePrintedLines` | apps/desktop/src/diffReview.ts:64-240 | the same for any choice of line ends |
| `DiffPatches.PatchesAreTheText` | apps/desktop/src/diffReview.ts:64-136 | the patches of the files, joined, are the text from the first file header on |
| `DiffPatches.PatchesAreAllOfTheText` | apps/desktop/src/diffReview.ts:64-136 | they are the whole text when it has no carriage returns at line ends and its first line opens a file |
| `DiffPatches.ParsedHunksAreNumbered` | apps/desktop/src/diffReview.ts:196-240 | in whatever text, the lines of a parsed hunk are numbered consecutively on both sides and never exceed the counts of the header |
| `DiffViews.EveryFileIsShown` | apps/desktop/src/diffReview.ts:64-710 | a printed diff of any number of files, parsed, folded and laid out: either view shows both versions of a file, line by line and number by number, if and only if its parsed positions are aligned |
| `WordDiff.LcsTable` | apps/desktop/src/diffReview.ts:787-800 | every cell is the length of the longest common subsequence of the two suffixes |
| `WordDiff.LcsIsMaximum` | apps/desktop/src/diffReview.ts:787-800 | that length is reached by a common subsequence and exceeded by none |
| `WordDiff.MatchedWords` | apps/desktop/src/diffReview.ts:750-772 | the two-index walk over the table matches the words of the walk |
| `WordDiff.WalkIsLongest` | apps/desktop/src/diffReview.ts:756-772 | the walk matches equal words, in order on both sides, as many as any common subsequence has |
| `WordDiff.TokenizeWords` | apps/desktop/src/diffReview.ts:734-748 | the words are the runs of one class, computed by the loop |
| `WordDiff.WordsTile` | apps/desktop/src/diffReview.ts:734-748 | the words are non-empty, adjacent and make up the text |
| `WordDiff.ChangedRanges` | apps/desktop/src/diffReview.ts:750-785 | the loops compute the ranges of the unmatched words |
| `WordDiff.ChangedIsExact` | apps/desktop/src/diffReview.ts:750-785 | the ranges are sorted, disjoint and do not touch, and cover exactly the words that are unmatched and not dropped as white space |
| `DiffMarks.WordsAreWhole` | apps/desktop/src/diffReview.ts:736-744 | every word is a longest run of white space, a longest run of word characters, or one other character |
| `DiffMarks.MarksAre` | apps/desktop/src/diffReview.ts:750-785 | a position is marked exactly when its word is left over by a longest pairing of equal words and is not white space beside other words |
| `DiffSpans.FindStringEnd` | apps/desktop/src/diffReview.ts:1038-1049 | the end lies directly behind the first quote in front of which an even number of backslashes stands, or is the end of the line if there is no such quote |
| `DiffSpans.StringEndIs` | apps/desktop/src/diffReview.ts:1038-1049 | the same of the end that the tokenizer uses |
| `DiffSpans.TokenizeLine` | apps/desktop/src/diffReview.ts:963-1036 | the scan terminates with the tokens of its turns; `TokenKinds.KindsAreRight` says which tokens these are |
| `DiffSpans.TokensAreInOrder` | apps/desktop/src/diffReview.ts:963-1036 | tokens are non-empty, sorted, disjoint and in bounds, and what none covers is white space or part of a plain identifier |
| `TokenKinds.KindsAreRight` | apps/desktop/src/diffReview.ts:963-1053 | every token has the kind and the end that the text at its start calls for, in the order of precedence: line comment, block comment up to the first closing mark, string up to its first quote that is not escaped, number with a radix or longest decimal number, keyword, type name, single mark |
| `TokenKinds.TheRestIsPlain` | apps/desktop/src/diffReview.ts:963-1036 | a character in no token is white space or stands in a longest word that is neither keyword nor type name |
| `DiffSpans.BuildSpans` | apps/desktop/src/diffReview.ts:1055-1090 | for any ranges the spans of the pieces between the points; for ranges that touch the line, as promised below |
| `DiffSpans.BoundariesAre` | apps/desktop/src/diffReview.ts:1062-1072 | the points are exactly the ends of the line, of its tokens and of the clipped ranges, in order |
| `DiffSpans.SpansShowTheLine` | apps/desktop/src/diffReview.ts:1055-1090 | the spans are non-empty, no two neighbours share both attributes, and together they show the line: each character with the class of the token around it, marked exactly when a changed range covers it |
| `DiffSpanEdges.SpansAtTheEdge` | apps/desktop/src/diffReview.ts:1055-1090 | for every list of ranges the promise below holds if and only if the line is empty, or the pieces before the text show nothing and look like its first character, and those behind it look like its last |
| `DiffSpanEdges.EmptySpanBehindTheLine` | apps/desktop/src/diffReview.ts:1067-1088 | a line and two ranges that give an empty span |
| `DiffSpanEdges.CharacterShownTwice` | apps/desktop/src/diffReview.ts:1067-1088 | a line and two ranges that end before it, with which `slice` counts from the end and the first character is shown twice |
| `DiffSpans.SpansAreUnique` | apps/desktop/src/diffReview.ts:1055-1090 | these promises leave only one list of spans |
| `DiffRows.BuildSplitRows` | apps/desktop/src/diffReview.ts:603-647 | with a limit, exactly that many of the first unlimited rows |
| `DiffRows.BuildUnifiedRows` | apps/desktop/src/diffReview.ts:649-710 | the same for the unified view |
| `DiffRows.RowsAreCounted` | apps/desktop/src/diffReview.ts:587-601 | the count is the number of rows of each builder, and with a limit the smaller of the two |
| `DiffRowIds.SplitIdsAreDistinct` | apps/desktop/src/diffReview.ts:603-647 | no two lines of the split view have the same id |
| `DiffRowIds.UnifiedIdsAreDistinct` | apps/desktop/src/diffReview.ts:649-710 | nor have two of the unified view |
| `DiffMarks.SplitRowMarks` | apps/desktop/src/diffReview.ts:603-730 | a row of a change marks each side against the other, word by word when that is asked for; context is not marked |
| `DiffMarks.UnifiedRowMarks` | apps/desktop/src/diffReview.ts:649-730 | so does the unified view, with the counterpart in another row |
| `DiffRows.SplitRowsRead` | apps/desktop/src/diffReview.ts:603-647 | each column of the split view reads as the blocks do |
| `DiffRows.BlocksAreSorted` | apps/desktop/src/diffReview.ts:458-541 | every change block made from hunks has its removed lines apart from its added lines, and every context block holds context |
| `DiffViews.UnifiedRowsRead` | apps/desktop/src/diffReview.ts:649-710 | read for one image, the unified view reads as the blocks do |
| `ActivityStore.StepKeepsOk` | apps/desktop/src/threadActivityStore.ts:131-414 | every operation keeps the record invariant, given that cancellations are reconciled with no turn or the active one |
| `ActivityStore.EveryReachableRecordIsOk` | apps/desktop/src/threadActivityStore.ts:131-414 | in every reachable record an active turn means a live phase and is the record's turn, cancelling is cancellation requested, live is not unread, and optimistic is processing without a turn |
| `ActivityStore.ReconcileCancellationKeepsOkExactly` | apps/desktop/src/threadActivityStore.ts:197-212 | for any turn passed, the invariant survives if and only if the turn is none or the turn of a live record |
| `ActivityStore.LateCancellationRevivesATurn` | apps/desktop/src/threadRunState.ts:87-104 | a late reconciliation gives a finished record an active turn |
| `ActivityTurns.EventIsTakenExactly` | apps/desktop/src/threadActivityStore.ts:233-283 | for every store: an event that names a phase, is new and may speak for its thread leads to the phase of its kind, its time, its turn and its number, unread exactly for an end that was not read since; any other event changes nothing |
| `ActivityTurns.LiveEventLeadsTo` | apps/desktop/src/threadActivityStatus.ts:60-83 | a later event of the live turn that does not end it leaves it live: processed after a start, waiting for an approval or for the user after a request, and shown so |
| `ActivityTurns.EndEventLeadsTo` | apps/desktop/src/threadActivityStatus.ts:60-83 | a later event that ends the live turn leads to succeeded, failed or cancelled, and is shown as that unless it is cancelled or the thread was read since |
| `ActivityTurns.IndexShows` | apps/desktop/src/threadActivityStore.ts:429-445 | the index of visible statuses shows for a thread what its record calls for |
| `ActivityTurns.EventRunIs` | apps/desktop/src/threadRunState.ts:106-132 | a start makes the turn active and ends the sending; an event after which nothing runs leaves no turn active and no cancellation; a request of a running turn leaves the run alone |
| `ActivityTurns.FeedbackWaits` | apps/desktop/src/threadRunState.ts:184-202 | a message waits for its turn exactly until an event about it comes: of its turn, of a turn that it started, or of one that moves after it was sent |
| `ActivityTurns.ForeignEventIsIgnored` | apps/desktop/src/threadActivityStore.ts:245-262 | while a turn is live, events of other turns change nothing, except starts and errors without a turn |
| `ActivityTurns.TurnIsTakenOver` | apps/desktop/src/threadActivityStore.ts:233-283 | a start makes its turn the live and active one, and an error without a turn fails the one that is live |
| `ActivityTurns.StatusIsTakenExactly` | apps/desktop/src/threadActivityStore.ts:293-355 | a status snapshot is taken over exactly when it has news, by turn, liveness and time; then turn, phase, time, unread flag and active turn are as it says |
| `ActivityTurns.StatusRunIs` | apps/desktop/src/threadRunState.ts:134-158 | after a snapshot a cancellation is under way exactly when it reports one or keeps running the turn it was asked for, and the message of that turn waits no more |
| `ActivityTurns.SnapshotsAreTakenEach` | apps/desktop/src/threadActivityStore.ts:357-363 | each snapshot of a list has the effect on its thread that it has alone |
| `ActivityTurns.SendBegins` | apps/desktop/src/threadActivityStore.ts:131-150 | a send shows the thread as live, unread no more and sending; a live turn goes on, and another thread is processed optimistically |
| `ActivityTurns.SendThatFails` | apps/desktop/src/threadActivityStore.ts:131-186 | a send that fails leaves a live turn as it was, without waiting messages, and no record of another thread |
| `ActivityTurns.SendIsConfirmed` | apps/desktop/src/threadActivityStore.ts:152-175 | the answer to a send ends the sending, makes its turn active if it names one, and lets the message wait; a live thread keeps its phase |
| `ActivityTurns.ReadingIsRemembered` | apps/desktop/src/threadActivityStore.ts:223-231 | a thread that is read is not unread, nor does an event from before that make it so |
| `ActivityTurns.CancellationIsUnderWay` | apps/desktop/src/threadRunState.ts:67-104 | a cancellation asked for is under way until it fails, the status is resolved, or neither a turn, a send nor a message is left |
| `ActivityTurns.OnlyKnownThreadsStay` | apps/desktop/src/threadActivityStore.ts:398-414 | retaining known threads keeps exactly their records, and a reset keeps none |
| `ActivityReplay.DeliveredIsInert` | apps/desktop/src/threadActivityStore.ts:233-283 | an event of an already delivered log changes nothing |
| `ActivityReplay.ReplaysAreHarmless` | apps/desktop/src/threadActivityStore.ts:233-291 | from any store, any schedule that delivers a log in order, with any replays in between, ends like one delivery of what it reached |
| `ActivityWake.StepRemembers` | apps/desktop/src/threadActivityStore.ts:131-414 | no operation makes a record forget an event, other than by dropping the record |
| `ActivityWake.InertAfterExactly` | apps/desktop/src/threadActivityStore.ts:131-427 | after any operation a stale event changes nothing if and only if its record is still there or it is of a kind the store ignores |
| `ActivityWake.StaysStale` | apps/desktop/src/threadActivityStore.ts:416-427 | over any run that does not drop the record, a stale event stays stale |
| `ActivityWake.ResetWakesAnEvent` | apps/desktop/src/threadActivityStore.ts:404-414 | after a reset the start of a turn counts again |
| `ActivityReplay.TwoDeliveriesAreOne` | apps/desktop/src/conversationSessionController.ts:566-573 | any interleaving of two in-order deliveries of the log ends like one |
| `ActivityLive.StepsAreNewer` | apps/desktop/src/threadActivityStore.ts:429-444 | after any operations a slot is the one captured or has a later identity |
| `ActivityLive.SnapshotRespectsNews` | apps/desktop/src/threadActivityStore.ts:365-396 | for any operations after the capture, a live snapshot removes a record exactly when it is missing from the snapshot, live, not sending and untouched since, and leaves every other missing one as it is |
| `ActivityLive.NoStaleThreadStaysLive` | apps/desktop/src/threadActivityStore.ts:374-396 | a live record missing from the snapshot is sending or newer than the capture |
| `ThreadActivityStore.Activity.SetRecord` | apps/desktop/src/threadActivityStore.ts:429-444 | stores the record unless it is equal, keeps the visible index exact and queues or sends the notice |
| `ThreadActivityStore.Activity.DeleteRecord` | apps/desktop/src/threadActivityStore.ts:446-456 | removes the record, keeps the visible index exact and queues or sends the notice |
| `ThreadActivityStore.Activity.EndBatch` | apps/desktop/src/threadActivityStore.ts:458-499 | at the end of the outer batch the subscribers hold exact copies again |
| `ThreadActivityStore.Activity.ApplyEvents` | apps/desktop/src/threadActivityStore.ts:285-291 | sorts and applies in a batch; afterwards the index of visible statuses and the subscriber's copy are exact |
| `ThreadActivityStore.Activity.ApplyEvent` | apps/desktop/src/threadActivityStore.ts:233-283 | takes the step of the specification, with index and copies exact; `ActivityTurns.EventIsTakenExactly` says where that takes a thread |
| `ThreadActivityStore.Activity.ReconcileTurnStatus` | apps/desktop/src/threadActivityStore.ts:293-355 | takes the step of the specification, keeping index and copies |
| `ThreadActivityStore.Activity.ReconcileLiveTurnStatuses` | apps/desktop/src/threadActivityStore.ts:374-396 | drops and reconciles in one batch, with index and copies exact at the end |
| `ThreadActivityStore.Activity.RetainKnownThreads` | apps/desktop/src/threadActivityStore.ts:398-402 | keeps exactly the known threads, with index and copies exact |
| `ThreadActivityStore.Activity.Reset` | apps/desktop/src/threadActivityStore.ts:404-414 | leaves no record and no visible status, and the subscriber's copy is empty |
| `ThreadActivityStore.SetPendingApplies` | apps/desktop/src/threadActivityStore.ts:468-478 | replacing a queued notice and applying the queue gives the same copy as applying one more notice |
| `EventMerge.AppendCompactedEvent` | apps/desktop/src/conversationMerge.ts:45-70 | joins a delta to the last event of the same attempt, or appends; `EventRuns.AppendIs` tells it from the fields |
| `EventMerge.MergeConversationEvents` | apps/desktop/src/conversationMerge.ts:17-43 | the two paths with their loops compute `Merge`; `EventRuns` says which events it joins |
| `EventRuns.AppendIs` | apps/desktop/src/conversationMerge.ts:45-88 | an event joins the last one exactly when both are deltas of equal thread, turn and provider attempt; it keeps all it has, with its text behind the other |
| `EventRuns.NoRunIsLeftApart` | apps/desktop/src/conversationMerge.ts:17-88 | from a log without neighbouring deltas of one thread, turn and attempt, a merge never makes one that has some |
| `EventRuns.TwoBecomeOneExactly` | apps/desktop/src/conversationMerge.ts:17-88 | two events in order become one exactly when these fields agree and both are deltas |
| `EventRuns.CompactRunByRun` | apps/desktop/src/conversationMerge.ts:45-88 | a run of such deltas that does not go on becomes its last event with all texts in order, and what follows is compacted by itself |
| `EventMerge.FastPathIsSlowPath` | apps/desktop/src/conversationMerge.ts:17-43 | for fresh ids both paths give the compacted, stably sorted union |
| `EventMerge.MergeKeepsLogOk` | apps/desktop/src/conversationMerge.ts:17-70 | for any events whose equal ids have equal sequence numbers, new or delivered again, the log stays sorted, compacted and without equal ids, and every entry stems from an event given |
| `EventMerge.TwoBatchesAreOne` | apps/desktop/src/conversationMerge.ts:17-70 | two batches of an in-order stream merge like one, even behind events of a higher number |
| `EventMerge.EverySplitGivesTheSameLog` | apps/desktop/src/conversationMerge.ts:17-70 | so does any split of the stream into batches |
| `EventMerge.RunTextIsConserved` | apps/desktop/src/conversationMerge.ts:45-88 | the text of every run after a merge is its text before and the text that came in, in order |
| `EventMerge.PresentEventsChangeNothing` | apps/desktop/src/conversationMerge.ts:17-43 | events that are in the log as they are change nothing |
| `EventRedelivery.RedeliveryIsHarmlessExactly` | apps/desktop/src/conversationMerge.ts:17-70 | delivering an event leaves the log as it is if and only if the log holds that very event, or it is an empty delta of an unknown id that joins the first entry with a higher number |
| `EventMerge.CompactedDeltasMustNotComeBack` | apps/desktop/src/conversationMerge.ts:30-70 | a delta that was compacted away is doubled when it comes back, and the last one of a run replaces the run |
| `SessionProtocol.StepKeepsOk` | apps/desktop/src/conversationSessionController.ts:351-489 | every step keeps the stream, load and event invariants |
| `SessionProtocol.EveryInterleavingIsOk` | apps/desktop/src/conversationSessionController.ts:93-112 | in every interleaving: at most one stream is open, none is open or loading when nothing retains the session, no load acts after a disconnect that superseded it, and reduced followed by pending events are the accepted ones in order |
| `SessionProtocol.ReleaseKeepsOk` | apps/desktop/src/conversationSessionController.ts:93-107 | the last release leaves every accepted event reduced |
| `SessionProtocol.DisposeKeepsOk` | apps/desktop/src/conversationSessionController.ts:344-349 | so does disposing |
| `SessionProtocol.EveryInterleavingKeepsTheWindow` | apps/desktop/src/conversationSessionController.ts:491-496 | the remembered ids are the latest ones, up to the bound |
| `SessionProtocol.RepeatsAreFarApart` | apps/desktop/src/conversationSessionController.ts:457-496 | in every interleaving, an id is accepted again only after more ids than the memory holds were remembered in between |
| `SessionProtocol.NoEventIsAcceptedTwice` | apps/desktop/src/conversationSessionController.ts:457-480 | no event is accepted twice as long as no id has left the bounded memory |
| `SessionProtocol.StepKeepsValid` | apps/desktop/src/conversationSessionController.ts:93-489 | every step keeps a session valid: streams, loads, events and remembered ids |
| `SessionProgress.FirstRetainLoads` | apps/desktop/src/conversationSessionController.ts:93-100 | the first retain starts a new load that the session holds, unpublished, not aborted and of the current generation |
| `SessionProgress.RetryLoads` | apps/desktop/src/conversationSessionController.ts:109-112 | every retry of a retained session closes its stream and starts such a load |
| `SessionProgress.RetryWithoutRetain` | apps/desktop/src/conversationSessionController.ts:109-112 | a retry of a session that nothing retains only lets go of everything |
| `SessionProgress.LoadOpensAStream` | apps/desktop/src/conversationSessionController.ts:351-431 | in every run without a disconnect and without the failure of the load, a load whose result has come opens a stream, the only one |
| `SessionProgress.RetainLeadsToAStream` | apps/desktop/src/conversationSessionController.ts:93-431 | so a first retain leads to a stream |
| `SessionProgress.LoadIsReportedExactly` | apps/desktop/src/conversationSessionController.ts:391-430 | a load reports its result or its failure exactly while the session holds it, and once it has failed it opens no stream |
| `SessionProgress.EventIsAcceptedExactly` | apps/desktop/src/conversationSessionController.ts:457-480 | an event is accepted exactly when it is of the thread and its id is not remembered; then its id is, and a tool start leaves nothing pending |
| `SessionProgress.TimerHandsOn` | apps/desktop/src/conversationSessionController.ts:457-489 | the timer hands on everything that was accepted |
| `SessionProgress.CatchUpIsAccepted` | apps/desktop/src/conversationSessionController.ts:308-331 | for every event of the thread that a catch-up brings with an unknown id, one with this id is accepted |
| `SessionProgress.TerminalEventIsCaughtUp` | apps/desktop/src/conversationSessionController.ts:308-331 | an event that ends a turn is accepted and followed by a catch-up, which supersedes one that is running |
| `SessionProgress.LoadedIdsAreRemembered` | apps/desktop/src/conversationSessionController.ts:391-395 | all ids of a load that is published are remembered |
| `SessionController.ConversationSessionController.constructor` | apps/desktop/src/conversationSessionController.ts:66-78 | a fresh, valid session |
| `SessionController.ConversationSessionController.RetainSession` | apps/desktop/src/conversationSessionController.ts:93-95 | takes the retaining step and leaves the session valid: the stream known is the open one, nothing is open or loading unless retained, reduced and pending events are the accepted ones; `SessionProgress.FirstRetainLoads` and `RetainLeadsToAStream` say what comes of it |
| `SessionController.ConversationSessionController.ReleaseSession` | apps/desktop/src/conversationSessionController.ts:96-107 | takes the releasing step and keeps the session valid; after the last release nothing is open or loading and every accepted event is reduced |
| `SessionController.ConversationSessionController.RetrySession` | apps/desktop/src/conversationSessionController.ts:109-112 | takes the retrying step and keeps the session valid; `SessionProgress.RetryLoads` says what comes of it |
| `SessionController.ConversationSessionController.DisposeSession` | apps/desktop/src/conversationSessionController.ts:344-349 | keeps the session valid and leaves nothing open, loading or unreduced |
| `SessionController.ConversationSessionController.ConnectNow` | apps/desktop/src/conversationSessionController.ts:351-357 | starts a load of a new generation unless a stream or load is there; `SessionProgress.FirstRetainLoads` and `RetryLoads` say what that leaves |
| `SessionController.ConversationSessionController.DisconnectNow` | apps/desktop/src/conversationSessionController.ts:433-444 | aborts, closes and drains |
| `SessionController.ConversationSessionController.LoadIsReady` | apps/desktop/src/conversationSessionController.ts:389-409 | publishes only while the load is current, and keeps the session valid |
| `SessionController.ConversationSessionController.OpenLoadedStream` | apps/desktop/src/conversationSessionController.ts:410-420 | opens the stream only while the load is current and the session is retained, and keeps the session valid |
| `SessionController.ConversationSessionController.FailLoad` | apps/desktop/src/conversationSessionController.ts:421-428 | reports a failure, before publishing or while opening the stream, only while the load is current, and keeps the session valid |
| `SessionController.ConversationSessionController.ReceiveEvent` | apps/desktop/src/conversationSessionController.ts:457-480 | takes the receiving step: foreign and known events are dropped; keeps the session valid |
| `SessionController.ConversationSessionController.FlushPendingEvents` | apps/desktop/src/conversationSessionController.ts:482-489 | hands all pending events on, in order |
| `Composer.NormalizeComposerContentParts` | apps/desktop/src/composerContent.ts:412-428 | the loop computes the normal form |
| `Composer.NormalizeIsNormal` | apps/desktop/src/composerContent.ts:412-428 | no caret marker, no empty text, no two texts side by side |
| `Composer.NormalizeTwice` | apps/desktop/src/composerContent.ts:412-428 | normalising is idempotent |
| `ComposerContents.NormalizeKeepsContent` | apps/desktop/src/composerContent.ts:412-428 | normalising keeps every reference and every character but the caret markers, in their order |
| `ComposerContents.NormalFormIsUnique` | apps/desktop/src/composerContent.ts:412-428 | and content has one normal form |
| `Composer.ComposerContentTokens` | apps/desktop/src/composerContent.ts:145-162 | the loop cuts the normal form into tokens |
| `Composer.ComposerPartsFromTokens` | apps/desktop/src/composerContent.ts:164-178 | the loop joins neighbouring texts |
| `Composer.TokensRoundTrip` | apps/desktop/src/composerContent.ts:145-178 | for every segmentation, parts to tokens to parts is normalisation |
| `Composer.CommonAffixes` | apps/desktop/src/composerContent.ts:224-243 | the two loops find the longest common prefix and the longest common suffix clear of it |
| `Composer.AffixesCover` | apps/desktop/src/composerContent.ts:283-302 | if one sequence is a beginning and an end of the other, the affixes found cover all of it |
| `ComposerHistory.ComposerPlainText` | apps/desktop/src/composerContent.ts:403-410 | the text of content without references, none otherwise |
| `ComposerHistory.ComposerUndoEntries` | apps/desktop/src/composerContent.ts:272-382 | both ways through the function compute the undo entries |
| `ComposerHistory.NothingToUndo` | apps/desktop/src/composerContent.ts:272-382 | there are no entries if and only if the contents are equal, for every segmentation |
| `ComposerHistory.FirstEntryIsBefore` | apps/desktop/src/composerContent.ts:319-332 | the first entry is the content before the change |
| `ComposerHistory.PlainInsertionUnfolds` | apps/desktop/src/composerContent.ts:283-332 | text inserted into text: one entry per piece, the k-th with the first k pieces, none of them before and all of them after, the caret behind the k-th |
| `ComposerHistory.PlainStateStep` | apps/desktop/src/composerContent.ts:319-332 | each text is the one before with one more piece put in |
| `ComposerHistory.PlainChainsAreInsertions` | apps/desktop/src/composerContent.ts:302-314 | more than one entry only for such an insertion |
| `ComposerHistory.TokenInsertionUnfolds` | apps/desktop/src/composerContent.ts:335-381 | content inserted into content with references: one entry per token, each with one token more than the one before, the caret behind it, from before to after |
| `ComposerHistory.TokenChainsAreInsertions` | apps/desktop/src/composerContent.ts:358-366 | more than one entry if and only if two tokens or more were inserted and nothing else changed |
| `ComposerHistory.NormalizeComposerImageDeletionSnapshot` | apps/desktop/src/composerContent.ts:209-270 | the clean-up with its early exit computes `CleanUp` |
| `ComposerHistory.ShortcutIsSound` | apps/desktop/src/composerContent.ts:213-220 | without a reference there is nothing to clean up |
| `ComposerHistory.CleanUpOmitsARange` | apps/desktop/src/composerContent.ts:209-270 | the result is the content before without one contiguous range that holds a reference, and the content after without one range of line breaks, with the caret at the gap; or the content after, unchanged |
| `ComposerHistory.CleanUpKeeps` | apps/desktop/src/composerContent.ts:253-261 | content is left alone if and only if there is no scaffolding in it |
| `ComposerHistory.CleanUpTwiceIsOnce` | apps/desktop/src/composerContent.ts:209-270 | for every segmentation a second clean-up changes nothing when the result is cut into the tokens that were kept |
| `ComposerLineEnds.CleanUpTwice` | apps/desktop/src/composerContent.ts:209-270 | a second clean-up changes nothing if and only if the first removed nothing or the gap does not lie between a `\r` and a `\n` |
| `ComposerLineEnds.JoinedLineEndIsLost` | apps/desktop/src/composerContent.ts:256-269 | a second clean-up removes a line end that the first one joined |
| `ComposerLineEnds.LineEndPiecesCut` | apps/desktop/src/composerContent.ts:130-136 | a segmentation that joins `\r\n` and nothing else follows the line end rules |
| `ComposerSeams.LooseSeamHolds` | apps/desktop/src/composerContent.ts:145-178 | tokens on both sides of a line end are cut as they are by themselves |
| `ComposerCarets.CleanUpCaretFits` | apps/desktop/src/composerContent.ts:263-269 | after a clean-up the caret stands within the tokens of the result, for every segmentation that reads forward |
| `ComposerCarets.CleanUpCaretIs` | apps/desktop/src/composerContent.ts:263-269 | it stands in the gap, behind as many tokens as the contents share at their beginning |
| `ComposerCarets.TokenCaretFits` | apps/desktop/src/composerContent.ts:370-381 | so it does in every undo entry of content with references |
| `ComposerCarets.PlainCaretFits` | apps/desktop/src/composerContent.ts:316-332 | and in those of plain text, unless a piece reaches over the place of the insertion |
| `ComposerCarets.PlainCaretExactly` | apps/desktop/src/composerContent.ts:316-332 | where pieces join at a seam or do not, the caret stands behind the end if and only if the inserted text joins the text before it, and no text follows or a single piece that joins too |
| `ComposerCarets.PlainCaretAtAnySeam` | apps/desktop/src/composerContent.ts:316-332 | for any seams the caret stands within the entry if and only if the two seams lose at most as many pieces as the text behind has |
| `ComposerCarets.CaretBehindTheEnd` | apps/desktop/src/composerContent.ts:316-332 | an accent that joins the letter before it leaves an entry whose caret is behind its end |
| `ComposerDrafts.UnambiguousReferences` | apps/desktop/src/composerDrafts.ts:81-100 | the references are exactly the sources that their marker names without doubt |
| `ComposerDrafts.ComposerDraftContentPartsFromLegacyText` | apps/desktop/src/composerDrafts.ts:76-137 | the cursor loop terminates with the parse, for any order of the references |
| `ComposerDrafts.NextIsBest` | apps/desktop/src/composerDrafts.ts:108-121 | the match taken begins first and is the longest of those that do |
| `ComposerDrafts.ParseByMembers` | apps/desktop/src/composerDrafts.ts:94-121 | the parse does not depend on the order of the references |
| `ComposerDrafts.ParseReadsAll` | apps/desktop/src/composerDrafts.ts:105-136 | every reference read is one of the sources, and no text holds a marker |
| `ComposerDrafts.LegacyTextIsShownAgain` | apps/desktop/src/composerContent.ts:483-493 | the parse is shown as the stored text if and only if no caret marker is left in a text, in particular if the stored text has none |
| `ComposerDrafts.ParsedReferencesSurvive` | apps/desktop/src/composerDrafts.ts:139-150 | every reference passes the filter by the sources, however paths are compared, and without caret markers the parse is left as it is |
| `ComposerDrafts.KeptAreActive` | apps/desktop/src/composerContent.ts:389-401 | what passes the filter is a subsequence in which every reference has an active source |
| `ComposerDrafts.ShownPartsAreReadBack` | apps/desktop/src/composerDrafts.ts:76-137 | parts without stray brackets are read back from their text as they were |
| `EventProjection.ProjectConversationEvents` | apps/desktop/src/conversationEventProjection.ts:17-120 | the one pass gives, for every log and every previous projection, what a scan per field gives |
| `EventProjection.ScanningIsScanned` | apps/desktop/src/conversationEventProjection.ts:32-68 | each event keeps what was collected equal to the scans of the log so far |
| `EventProjection.ShownByMembership` | apps/desktop/src/turnChangeOwnership.ts:56-67 | the scan for one turn is membership in three sets |
| `EventProjection.ShownExactly` | apps/desktop/src/conversationEventProjection.ts:70-79 | a turn's changes are shown if and only if it has some on record and the scan of its events says so, and they are those recorded last |
| `EventProjection.EmptyTurnIsNotShown` | apps/desktop/src/conversationEventProjection.ts:34-48 | events with an empty turn id for which the scan and the projection differ |
| `EventProjection.LastRecordedIsLast` | apps/desktop/src/conversationEventProjection.ts:45-48 | the change set shown is that of the last record of the turn |
| `EventProjection.TurnEventsAre` | apps/desktop/src/conversationEventProjection.ts:34-38 | the events of a turn are the subsequence of the log with that turn |
| `EventProjection.EventsByTurnAre` | apps/desktop/src/conversationEventProjection.ts:34-38 | a turn is listed if and only if it has events, with exactly those |
| `EventProjection.TurnsForAre` | apps/desktop/src/conversationEventProjection.ts:122-130 | the turns of a message are listed once, in the order of their first tie |
| `EventProjection.OrphanContextIs` | apps/desktop/src/conversationEventProjection.ts:81-99 | the orphan activities are the turns with activity that no message started, once each, by their first event |
| `EventProjection.StabilizeArrayMap` | apps/desktop/src/conversationEventProjection.ts:132-141 | exactly the arrays with unchanged contents are those of the previous projection |
| `EventProjection.ReuseKeepsContents` | apps/desktop/src/conversationEventProjection.ts:132-152 | whatever projection came before, the contents are those of a first projection |
| `EventProjection.UntouchedTurnsKeepTheirArray` | apps/desktop/src/conversationEventProjection.ts:101-102 | when the log grows, a turn keeps the very array it had if and only if no new event is its own |
| `ProjectionAnswers.SettledTurnsAre` | apps/desktop/src/conversationEventProjection.ts:52-57 | the settled turns are those with an event that finished, cancelled or failed them |
| `ProjectionAnswers.CardTurnsAre` | apps/desktop/src/conversationEventProjection.ts:115-118 | the turns with a card are those with an answer |
| `ProjectionAnswers.RevertedTurnsAre` | apps/desktop/src/conversationEventProjection.ts:45-51 | the reverted turns are those recorded as reverted and those that an undo names |
| `ProjectionAnswers.UserMessageTurnsAre` | apps/desktop/src/conversationEventProjection.ts:39-41 | a user message is listed with the turns it has started, each once, and only if there are any |
| `ProjectionAnswers.AnswerTurnsAre` | apps/desktop/src/conversationEventProjection.ts:42-44 | an answer is listed with its turns in the same way |
| `ProjectionAnswers.ChangesAreShownExactly` | apps/desktop/src/conversationEventProjection.ts:70-79 | recorded changes are shown exactly when the turn has ended and has written, or was neither cancelled nor failed; shown are the last |
| `ProjectionAnswers.OnlyRecordedChangesAreShown` | apps/desktop/src/conversationEventProjection.ts:70-79 | no other turn shows changes |
| `ProjectionAnswers.OrphanErrorsAre` | apps/desktop/src/conversationEventProjection.ts:84-89 | the orphan errors are all errors of the log that belong to no turn started by a message, as often as the log has them and in its order |
| `CacheDiagnostics.FindProviderBreakpoint` | apps/desktop/src/usageCacheDiagnostics.ts:318-415 | the searches compute `ProviderBreakpoint` |
| `CacheDiagnostics.NoBreakpointExactly` | apps/desktop/src/usageCacheDiagnostics.ts:318-353 | there is no breakpoint if and only if the previous segments begin the current ones, save for an empty trace before a non-empty one |
| `CacheDiagnostics.EmptyTraceIsABreak` | apps/desktop/src/usageCacheDiagnostics.ts:322-333 | a prefix that is reported as a break |
| `CacheDiagnostics.BreakpointIs` | apps/desktop/src/usageCacheDiagnostics.ts:355-415 | the offset is the token sum of the longest common prefix, an inserted or removed count is the distance to the nearest re-match, and a change means that there is none |
| `CacheDiagnostics.InsertionRepairs` | apps/desktop/src/usageCacheDiagnostics.ts:372-388 | without the segments reported as inserted the traces agree further |
| `CacheDiagnostics.RemovalRepairs` | apps/desktop/src/usageCacheDiagnostics.ts:390-404 | without the segments reported as removed they agree further, or to the end |
| `CacheDiagnostics.FindConfigurationChange` | apps/desktop/src/usageCacheDiagnostics.ts:454-488 | the loop over the sorted names computes `ConfigurationChange` |
| `CacheDiagnostics.ConfigurationChangeIs` | apps/desktop/src/usageCacheDiagnostics.ts:454-488 | no change if and only if the values are the same; otherwise the first differing name, with the side on which it is missing |
| `CacheDiagnostics.FindContextBreakpoint` | apps/desktop/src/usageCacheDiagnostics.ts:490-551 | the search computes `ContextBreakpoint` |
| `CacheDiagnostics.NoContextBreakpointExactly` | apps/desktop/src/usageCacheDiagnostics.ts:490-503 | no content change if and only if the previous items begin the current ones or there are no current ones |
| `CacheDiagnostics.ContextBreakpointIs` | apps/desktop/src/usageCacheDiagnostics.ts:505-551 | the offset is the token sum of the longest common prefix, and the kind says exactly whether the next item on either side matches again |
| `CacheDiagnostics.LossIsBounded` | apps/desktop/src/usageCacheDiagnostics.ts:129-146 | the loss lies between nothing and what was cached, and is positive exactly when the state is degraded or broken |
| `CacheDiagnostics.WirePrefixExactly` | apps/desktop/src/usageCacheDiagnostics.ts:148-229 | the wire prefix is blamed if and only if the segments part and nothing before them changed |
| `CacheDiagnostics.OperationalMissExactly` | apps/desktop/src/usageCacheDiagnostics.ts:146-316 | an operational miss of medium confidence means that nothing comparable explains the loss, and conversely |
| `CacheDiagnostics.BreakpointsAreDifferences` | apps/desktop/src/usageCacheDiagnostics.ts:93-316 | a breakpoint is named if and only if the reason is a difference |
| `CacheReasons.HarmlessReasonsExactly` | apps/desktop/src/usageCacheDiagnostics.ts:112-146 | unreported, no baseline and cache hit are given exactly when usage is missing, nothing was or is cached, or nothing was lost |
| `CacheReasons.LossIs` | apps/desktop/src/usageCacheDiagnostics.ts:128-146 | the loss is what is missing for all that was cached before, or for all of a shorter request |
| `CacheReasons.PlaceReasonsExactly` | apps/desktop/src/usageCacheDiagnostics.ts:148-176 | input below the minimum, a changed provider and a changed model are given exactly in this order, with their place |
| `CacheReasons.WireReasonsExactly` | apps/desktop/src/usageCacheDiagnostics.ts:178-260 | a changed cache key, tool catalog or configuration is given exactly when the traces show it, or without them the client has seen it |
| `CacheReasons.ObservedReasonsExactly` | apps/desktop/src/usageCacheDiagnostics.ts:231-316 | changed content, a changed system prompt, stateful context, missing data and an operational miss are given exactly when nothing before them explains the loss |
| `CacheReasons.SegmentsAddUp` | apps/desktop/src/usageCacheDiagnostics.ts:318-415 | the offset of a wire breakpoint is the sum of the estimates before it |
| `CacheReasons.ItemsAddUp` | apps/desktop/src/usageCacheDiagnostics.ts:490-551 | so is that of a content breakpoint |
| `RoundRobin.SelectInTurns` | evaluation/tools/select-swebench-verified.py:47-61 | the nested loop with its early exits terminates with the first `count` rows of the round-by-round order, or all |
| `RoundRobin.SelectVerified` | evaluation/tools/select-swebench-verified.py:32-63 | grouping, sorting and selecting, with the two failures |
| `RoundRobin.OrderMember` | evaluation/tools/select-swebench-verified.py:49-61 | the order visits exactly the positions of the groups |
| `RoundRobin.OrderIsByRounds` | evaluation/tools/select-swebench-verified.py:49-61 | rows are taken round by round, and in every round group by group |
| `RoundRobin.GroupsAreRanked` | evaluation/tools/select-swebench-verified.py:29-61 | the groups stand in the order of their ranks, and so do the rows of each |
| `RoundRobin.SelectionLength` | evaluation/tools/select-swebench-verified.py:47-63 | as many rows as asked for or as there are, so that the selection fails exactly when there are too few |
| `RoundRobin.SelectionIsDistinct` | evaluation/tools/select-swebench-verified.py:47-61 | only rows given, none of them twice |
| `RoundRobin.SmallerIsPrefix` | evaluation/tools/select-swebench-verified.py:47-61 | a smaller selection is a beginning of a larger one |
| `RoundRobin.RepositoriesAreBalanced` | evaluation/tools/select-swebench-verified.py:47-61 | a repository has at most one row more than another, unless all rows of the other are taken |

## Left out

- Interpretation of file header lines (paths, quoting, renames, modes) and of the parsed status: the parser model keeps the header lines as they are.
- Keyword, extension and language tables of the tokenizer: they are parameters of the model.
- The difference between UTF-16 units and characters: a string is a sequence of characters, and positions count those.
- Grapheme rules: the segmentation is any function that cuts a text into non-empty pieces.
- `localeCompare`, `sort()` of names and digests: an order is given by integer ranks.
- Invalid dates: times are integers and always comparable.
- Row limits that are not integers.
- `fileAdditions`, `fileDeletions`, the file tree, path queries and the git apply command: one-line counts, tables and text.
- Listeners that call back into the activity store, and its listeners per thread.
- The server's replies to a cancellation, sending, approvals and user input in the session controller; the effect of a cancellation on the run state is modelled.
- Loading older messages, merging messages, and the history loader behind a load.
- The registry of sessions with its cache limit; its double delivery of events is covered by the replay theorems.
- Storage, timers and pruning of drafts; reading and filtering one draft is modelled.
- Identity of arrays as heap objects in the projection: an array is its contents with the number of the projection that made it.
- In-place growth of one array and aliasing of its contents: methods that build a list do so on sequence values.
- ActivityReplay.ReplaysAreHarmless: speaks of persisted events in increasing order, because the code recognises a replay by its sequence number and gives local events none.
- DiffParser.ParseUnifiedDiff: keeps the header lines of a file as they are, without the paths, status and binary flag that the code reads from them.
- EventMerge.PresentEventsChangeNothing: is the direction for whole batches; the exact condition is stated for one event.
- ComposerHistory.CleanUpTwiceIsOnce: is one direction, for segmentations of any kind; the exact condition needs the line end rules.
- ComposerCarets.PlainCaretFits: is one direction, for text behind the insertion that joins in any way; `PlainCaretExactly` and `PlainCaretAtAnySeam` are exact.
- EventMerge.RunTextIsConserved: asks that the deltas of the run are in sequence order, because the code sorts them.
- SessionProtocol.NoEventIsAcceptedTwice: holds within the bounded memory of ids that the code keeps; `RepeatsAreFarApart` covers longer runs.
- ComposerDrafts.ShownPartsAreReadBack: asks for names and texts without brackets, because a bracketed text that spells a marker is read as a reference.
