# Verified models of a desktop git client

The repository is a desktop git client in Python. This project models seven of its cores in Dafny
and proves what their documentation and tests promise. `dafny verify dfyconfig.toml` checks all of
it.

1. **Partial staging** (`Patch`, `PatchSynthesis`, `PatchApply`, `PatchReading`, `PatchReport`,
   `PatchEof`, `PatchGuard`). From a diff and a set of picked lines a patch is made and applied to
   the index, when staging on the old side of the diff, when unstaging on its new side. `PatchSynthesis` follows
   the source with counters and growing lists and is proved equal to the functions of `Patch`.
   `PatchApply` defines a diff between two files, strict application without fuzz, and the result
   the user asked for, each without mention of the synthesis, and proves that the emitted hunks give
   that result. `PatchReading` adds an independent reader of the unified format, so the result is
   about the emitted text and the bytes of the file. `PatchReport` says what the file header holds and which patches and
   selections are refused, `PatchEof` exactly when lines without a newline spoil the written file,
   `PatchGuard` exactly when the guard does what it is for.
2. **The commit graph** (`Graph`, `GraphAllocator`, `GraphStep`, `GraphRun`, `GraphLanes`, `GraphColors`). The lane
   allocator is an object updated in place, proved equal to the step function of `Graph`; `GraphRun`
   proves for every stream of distinct commits that the picture is the parent relation, `GraphLanes`
   which lane each commit and parent takes, `GraphColors` exactly when a line keeps its color.
3. **The rebase driver** (`Sequencer`) against git as an environment that may answer in any way the
   repository documents, including that it drops commits where the driver does not take care.
4. **Cancelling a remote operation** (`Cancellation`): two threads, two engines, interleaved steps.
5. **The write queue** (`WriteQueue`): one job at a time, with handlers that re-enter the queue.
6. **Conflict-marker files** (`ConflictText`): a parser proved to be the inverse of a printer, and
   the composition of chosen sides.
7. **Smaller ones**: what a failed clone removes (`CloneCleanup`), the rows of the diff view
   (`DiffModel`), the byte stream that identifies a patch (`Fingerprint`).

A line of a file is a string that ends in `"\n"`, or, for the last line, may lack it. `Text` holds
lines, texts and decimal numbers; `Wrappers` holds `Option` and `Result`.

## Where the code and its promises differ

- An emitted hunk whose result range is empty is always numbered 0. POSIX.1-2017 (IEEE Std
  1003.1-2017), in the section "Diff -u or -U Output Format" of the `diff` utility, numbers the line
  before the range. The two agree exactly when every such hunk is at the top of the result
  (`EmittedPatchApplies`, `EmptyRangeBelowTop`). It takes a diff without context to differ
  (`ContextAgreesWithPosix`), and the program never asks for one: no call sets `context_lines`.
- A kept last line without a newline in front of a selected addition is written without a line end
  between them (`ResultIsReadBackIff`, `OpenLineIsKept`).
- A path is written into the patch header as it is, with a line break that a POSIX file name may
  hold. A reader of the format then does not find the hunks, unless the file is deleted and no line of
  the path looks like the last header line (`TextReadsBackIff`, `BrokenPathIsNotReadBack`).
- The guard against ambiguous selections counts positions, so an end-of-file marker in front of an
  addition makes it look at the wrong lines (`GuardIsExactIff`), and it does not look at the
  direction (`GuardProtectsReverseIff`).
- A line changes its color where it reaches a commit whose first parent was drawn above, exactly
  when the other parents use up the lanes merged there and the free lanes left of it, and the next
  color in turn is another one (`ColorsJoinIff`, `ColorMayBreakBelowAParent`). With children before
  parents it never does (`ColorsJoin`).
- `cancel()` is documented to discard the result (`src/gitclient/application/remote_workers.py:135`).
  The worker reads the flag and reports in two steps without the lock, so it reports in spite of a
  cancel exactly when it had read the flag before (`CancelledReportsIff`, `CancelledMayReport`).
- A conflict without any conflicted file is announced as impossible in
  `src/gitclient/domain/models.py:674-676`. Each call may return it exactly in the states that
  `EmptyConflictListIff` lists; a hook that rejects a commit is enough (`EmptyConflictListHappens`).
- The question whether to drop the commit that would be empty is documented as being about the
  commit that is stopped (`src/gitclient/domain/models.py:679-687`). It always is, unless git was
  killed by the time limit or refused to go on after the commit of an empty change
  (`WouldBeEmptyNamesACommit`); after either, continuing may ask about no commit
  (`ContinueAsksAboutNothingIff`, `NothingMayBeStopped`).
- The commits upstream has already are never reported when the first command of the rebase hits the
  time limit, and always otherwise (`AppliedAreReportedIff`, `AppliedMayGoUnreported`).

## Model

| member | source | states |
|---|---|---|
| PatchSynthesis.HunkBuild.EmitLine | src/gitclient/domain/patch.py:390-428 | one line becomes context, deletion, addition or nothing by its side and the selection, the counters move with it, and an unknown origin is an error that changes nothing |
| PatchSynthesis.ChangeBlocks | src/gitclient/domain/patch.py:345-375 | the blocks are the maximal runs of changes and markers, with their deletions and additions in order |
| PatchSynthesis.RejectAmbiguousSelection | src/gitclient/domain/patch.py:312-342 | rejects exactly when some block of two or more deletions has, at the counted positions, an unselected deletion and a selected addition |
| PatchSynthesis.BuildHunk | src/gitclient/domain/patch.py:275-302 | the line loop with its pending marker builds the body and the counts of the index-wise definition, where a marker is emitted if and only if the line right before it is |
| PatchSynthesis.RenderHunks | src/gitclient/domain/patch.py:488-510 | the running offset gives each emitted hunk the numbers that the placement function gives it, and the texts follow in order |
| PatchSynthesis.SynthesizePatch | src/gitclient/domain/patch.py:241-309 | returns the rendered text of the synthesis, or the first of its errors in the order of the source |
| PatchReport.OriginsAre | src/gitclient/domain/patch.py:44-83 | which of the six origin characters is context, a change, or a marker |
| PatchReport.FileHeaderSays | src/gitclient/domain/patch.py:437-479 | the header, character by character: mode and no source exactly if the flags say that the index side has no file, mode and no target exactly if they say that the other side has none and the result has no line, both sides and no mode otherwise |
| PatchReport.RangeOmitsOne | src/gitclient/domain/patch.py:210-221 | a count is written exactly when it is not 1 |
| PatchReport.RefusalsAre | src/gitclient/domain/patch.py:259-307 | for every patch and selection: binary and renamed files and empty patches are refused, then the first hunk that the guard rejects or that has an unknown origin, with the first such origin, then a selection without a change; all others give a patch |
| PatchApply.BodySides | src/gitclient/domain/patch.py:390-428 | for every selection, accepted or not, the old side of the body is the index side of the diff, its new side the chosen lines, and both counts are exact |
| PatchApply.EmittedIffSelected | src/gitclient/domain/patch.py:229-238 | a hunk has a change exactly when one of its change lines is selected |
| PatchApply.EmittedPatchApplies | src/gitclient/domain/patch.py:488-512 | for every diff and accepted selection, in both directions, the emitted hunks apply strictly at their stated positions and give context, unselected index lines and selected other lines, with everything else unchanged; with POSIX numbers for empty ranges they give the same if those are at the top, and fail otherwise |
| PatchApply.EmptyRangeBelowTop | src/gitclient/domain/patch.py:501-503 | a two-line file where the emitted number of an empty range is not the one POSIX asks for, so that the application with those numbers fails |
| PatchApply.ContextAgreesWithPosix | src/gitclient/domain/patch.py:493-503 | for a diff with context in every hunk that does not start the index, every emitted patch applies with the numbers of POSIX too and gives the chosen result |
| PatchApply.SynthesisSucceedsIff | src/gitclient/domain/patch.py:259-309 | for a diff, success exactly when the guard accepts and some change is selected; otherwise which of the two failed |
| PatchApply.SelectingAllGivesOther | src/gitclient/domain/patch.py:13-31 | selecting every change turns the index into the other file |
| PatchApply.DiffMirrors | src/gitclient/domain/patch.py:13-31 | a diff read backwards is a diff in the other direction |
| PatchApply.DirectionsMirror | src/gitclient/domain/patch.py:405-428 | guard or no guard, the hunks emitted for a selection on the old file and those for its complement backwards on the new file both apply and give the same file, also for everything and nothing |
| PatchApply.StageAllThenUnstageAll | src/gitclient/domain/patch.py:13-31 | both patches are emitted and apply, and the second undoes the first |
| PatchApply.DeletionHeaderIff | src/gitclient/domain/patch.py:455-479 | for a whole-file deletion, or an addition read backwards, the deletion header and the null target are emitted exactly when the result has no line, also when hunks were dropped |
| PatchReading.HeaderReadsBack | src/gitclient/domain/patch.py:210-222 | a hunk header is read back as its four numbers, with the omitted count as 1 |
| PatchReading.BodyReadsBack | src/gitclient/domain/patch.py:273-302 | a body is recovered from its lines by the two counts alone, with each marker at its line, whatever follows |
| PatchReading.BodyIsShaped | src/gitclient/domain/patch.py:278-302 | in every emitted body each entry is one line, and a marker follows exactly the lines without a newline |
| PatchReading.TextReadsBack | src/gitclient/domain/patch.py:431-512 | the rendered text, with names without line breaks, is read back as the hunks it was made of |
| PatchReading.TextReadsBackIff | src/gitclient/domain/patch.py:447-479 | whatever the names, the rendered text is read back if and only if its file header alone is read to its end |
| PatchReading.BrokenPathIsNotReadBack | src/gitclient/domain/patch.py:473-479 | with a line break in the path, the text of a patch that does not delete its file is never read back |
| PatchReading.EmittedTextApplies | src/gitclient/domain/patch.py:241-512 | for every diff between two texts and accepted selection the emitted text is read back if and only if its file header is, then it applies to the index text and writes the chosen result; names without line breaks always are |
| PatchReading.TextRoundTrip | src/gitclient/domain/patch.py:13-31 | staging everything writes the other text and unstaging everything writes the first one back, character for character |
| PatchEof.OpenInsideIff | src/gitclient/domain/patch.py:278-302 | the result has a line without a newline before its end exactly when such a line is chosen and a later line of the diff is chosen too |
| PatchEof.ResultIsReadBackIff | src/gitclient/domain/patch.py:278-302 | the written result is read back as the chosen lines exactly when no chosen line without a newline has a chosen line after it |
| PatchEof.OpenLineIsKept | src/gitclient/domain/patch.py:312-342 | a replaced last line of which only the addition is selected is accepted by the guard and breaks that |
| PatchGuard.GuardRejectsIff | src/gitclient/domain/patch.py:312-375 | the loop over the list of blocks is a statement about every block of the hunk |
| PatchGuard.BlockGuardIsExact | src/gitclient/domain/patch.py:312-342 | with its markers last, a block of two or more deletions is rejected exactly when a kept deletion and a chosen addition would stand together |
| PatchGuard.GuardIsExactIff | src/gitclient/domain/patch.py:312-375 | the guard rejects exactly the mixing selections, for every selection, if and only if no marker stands before an addition of such a block |
| PatchGuard.DriftedAdditionPasses | src/gitclient/domain/patch.py:330-332 | for every block with such a marker, a selection that mixes and is accepted |
| PatchGuard.GuardProtectsReverseIff | src/gitclient/domain/patch.py:276 | when unstaging, accepted selections never mix in a block of two or more deletions if and only if no such block has an addition |
| PatchGuard.GuardProtectsAdditionsIff | src/gitclient/domain/patch.py:276 | when unstaging, accepted selections never mix in a block of two or more additions if and only if no such block has a deletion |
| Fingerprint.PointReadsBack | src/gitclient/domain/patch.py:138-141 | the bytes of every code point, surrogates included, tell their number and the code point |
| Fingerprint.FramesAreInjective | src/gitclient/domain/patch.py:138-141 | a list of texts is told by the bytes of its length-prefixed frames |
| Fingerprint.FeedPatch | src/gitclient/domain/patch.py:135-153 | the loops feed exactly the specified stream, or fail when a length does not fit four bytes |
| Fingerprint.StreamIsInjective | src/gitclient/domain/patch.py:121-153 | patches with equal streams have equal paths, hunk numbers, origins and contents |
| Fingerprint.StreamIsExact | src/gitclient/domain/patch.py:121-153 | and equal paths, hunk numbers, origins and contents give equal streams: nothing else is fed |
| Fingerprint.StreamIff | src/gitclient/domain/patch.py:138-141 | there is a stream exactly when no path, line or hunk header takes four gibibytes or more |
| Fingerprint.SameStreamSameHunks | src/gitclient/domain/patch.py:121-153 | so a selection of coordinates is refused for the same reason or gives the same hunks, whatever the line numbers of the lines |
| DiffModel.IterDisplayRows | src/gitclient/domain/patch.py:166-207 | the rows are the file header, then for each hunk its header and its lines without the markers, with coordinates on the changes |
| DiffModel.RowsAre | src/gitclient/domain/patch.py:166-207 | row by row: the title, the header of each hunk, and below it one row for each line that is no marker, in order, with its kind, its text without line ends, its line numbers, and a coordinate exactly if it is a change; and how many rows there are |
| DiffModel.DiffView.MapRowsToHunks | src/gitclient/viewmodel/diff_model.py:49-57 | each row gets the last hunk whose header is not below it |
| DiffModel.DiffView.SetLines | src/gitclient/viewmodel/diff_model.py:35-46 | replaces all four fields; without coordinates every row has none |
| DiffModel.ShownCoordinatesAgree | src/gitclient/viewmodel/diff_model.py:59-89 | each change has exactly one row, which shows its text, answers with its coordinate and with the hunk of that coordinate, and the positions collected for a hunk are exactly its changes |
| DiffModel.HunkIsNeverRejected | src/gitclient/domain/patch.py:312-342 | the selection collected for a hunk passes the guard of every hunk |
| DiffModel.HunkIsStagedAlone | src/gitclient/viewmodel/diff_model.py:83-89 | staging what was collected for a hunk is accepted, and gives the other file inside that hunk and the index everywhere else |
| GraphAllocator.LaneAllocator.PushCommit | src/gitclient/domain/graph.py:95-121 | the object after a push, and the row, are those of the step function |
| GraphAllocator.LaneAllocator.ClaimLane | src/gitclient/domain/graph.py:123-139 | the leftmost waiting lane, the others closed and handed on; without one, the leftmost free lane or a new one |
| GraphAllocator.LaneAllocator.AssignParents | src/gitclient/domain/graph.py:141-182 | lanes for the parents in order: the own lane first, then a lane waiting already, a merged one, a new one |
| GraphAllocator.LaneAllocator.BuildEdges | src/gitclient/domain/graph.py:184-228 | the lines entering the row, coming in or passing, and the lines to the parents |
| GraphAllocator.LaneAllocator.TrimTrailingEmptyLanes | src/gitclient/domain/graph.py:252-256 | the free lanes at the right end are gone, and only those |
| GraphStep.PushSteps | src/gitclient/domain/graph.py:95-256 | one commit: live lanes not waiting for it keep their target, each unseen parent is served in order, new live lanes are only those, and a wider frontier has no free lane |
| GraphRun.Layout | src/gitclient/domain/graph.py:259-266 | the rows of a list of commits are those of the state machine |
| GraphRun.PrefixIsSound | src/gitclient/domain/graph.py:123-182 | after every prefix no lane waits for a drawn commit and the last lane is live |
| GraphRun.LiveLaneGoesOn | src/gitclient/domain/graph.py:184-216 | a live lane passes a row, or comes in at the row of exactly the commit it waits for, and is never overwritten |
| GraphRun.OneLinePerParent | src/gitclient/domain/graph.py:141-182 | the lines leaving a commit are its parents not yet drawn, one for one and in order |
| GraphLanes.RowTakesLane | src/gitclient/domain/graph.py:123-139 | a commit stands on the leftmost lane that waits for it, or else on the leftmost free one, or on a new one |
| GraphLanes.FirstParentKeepsLane | src/gitclient/domain/graph.py:159-165 | the first parent, when it is below, goes on in the commit's lane, also when another lane waits for it |
| GraphLanes.LaterParentJoins | src/gitclient/domain/graph.py:167-180 | a later parent is drawn to the leftmost lane that waits for it below the row |
| GraphLanes.LanesAreGivenInOrder | src/gitclient/domain/graph.py:167-180 | the distinct new parents take the merged lanes, then the free ones from the left, then new ones, in order; no other lane gets a target, and each lane opened takes the next color |
| GraphLanes.NodeIs | src/gitclient/domain/graph.py:104-118 | the node has the commit's name and the color of the lines on its lane, a new tip the next color in turn, and merges are marked |
| GraphRun.DrawingIsFaithful | src/gitclient/domain/graph.py:95-228 | each such line passes every row until that of its parent and comes in there; without that parent it passes to the end |
| GraphRun.LineEndsAtItsParent | src/gitclient/domain/graph.py:95-228 | where a line stops passing it comes in, at the row of the parent it left for |
| GraphRun.IncomingLineLeftAChild | src/gitclient/domain/graph.py:197-206 | each line coming in started at a commit that names this one as a parent, as the line for it, and ends at the node |
| GraphRun.RowsJoin | src/gitclient/domain/graph.py:184-256 | the lanes leaving a row at the bottom are those entering the next one at the top, through reuse, merging and trimming |
| GraphColors.RestPaints | src/gitclient/domain/graph.py:167-180 | the color a free lane ends with is told by the number of new parents, the merged lanes, the free lanes left of it and the next color |
| GraphColors.KeepsColorsIff | src/gitclient/domain/graph.py:95-121 | one commit keeps the color of every live lane, if and only if it does not give its own closed lane away in another color |
| GraphColors.ColorsJoinIff | src/gitclient/domain/graph.py:123-182 | between two rows no line changes its color, if and only if the lower commit does not give its own closed lane away in another color, a condition on the lanes before it |
| GraphColors.ColorsJoin | src/gitclient/domain/graph.py:247-250 | with children before parents no line ever changes its color |
| GraphColors.ColorMayBreakBelowAParent | src/gitclient/domain/graph.py:230-235 | three commits, a parent above its child, where a line does |
| GraphRun.FrontierIs | src/gitclient/domain/graph.py:123-182 | after every prefix the awaited commits are the parents named minus the commits drawn |
| GraphRun.ClosedHistoryEndsEmpty | src/gitclient/domain/graph.py:252-256 | a history that holds all its parents, in any order, ends without lanes |
| GraphRun.LanesAreNeeded | src/gitclient/domain/graph.py:230-239 | there are never more lanes than were once live together |
| GraphRun.RowFits | src/gitclient/domain/graph.py:109-118 | the node and every edge lie below the lane count, which is at most one more than that |
| GraphLanes.RowIsTight | src/gitclient/domain/graph.py:109-118 | the node or a line touches the last lane of the row, so the width is not larger than needed |
| Sequencer.LocalEngine.Sequence | src/gitclient/infrastructure/local_engine.py:2532-2588 | whatever git's exit code, the outcome is a stop exactly when an operation is in progress afterwards, with the conflicts of the repository, unless the time limit strikes |
| Sequencer.LocalEngine.RebaseOnto | src/gitclient/infrastructure/local_engine.py:2219-2239 | nothing is done over another operation or on another branch; a rebase is only started with the option that stops at empty commits, its plan is accounted for, and completion leaves nothing and reports the applied commits |
| Sequencer.LocalEngine.ContinueOperation | src/gitclient/infrastructure/local_engine.py:2352-2385 | nothing is done while conflicts are left or the staged tree equals HEAD; otherwise the command is given to git, the stopped commit and later ones are replayed, none is lost, and what was settled stays |
| Sequencer.LocalEngine.KeepEmptyOperation | src/gitclient/infrastructure/local_engine.py:2387-2434 | nothing is done when something would be committed; otherwise the stopped commit is kept as an empty one when git commits, and none is lost by the continuation; a cherry-pick or a revert is over with the commit, or it is an error, and no other command follows |
| Sequencer.LocalEngine.SkipOperation | src/gitclient/infrastructure/local_engine.py:2450-2461 | the stopped commit is skipped, no other one is, and none is lost |
| Sequencer.LocalEngine.AbortOperation | src/gitclient/infrastructure/local_engine.py:2463-2495 | a merge is taken back without a command, a rebase, a cherry-pick or a revert by one; a reported abort leaves nothing in progress, and without one, unless the time limit strikes, nothing changes |
| Sequencer.Drive | src/gitclient/infrastructure/local_engine.py:2219-2495 | any sequence of calls on the object, with the user at work in between, leaves the repository and the commands of the run, so the ledger holds and no continue command is blind |
| Sequencer.ContinueGoesOn | src/gitclient/infrastructure/local_engine.py:2381-2385 | without conflicts and with something to commit the continue command is given to git whatever it answers, and when git gets through, the call says so and every stopped and remaining commit is replayed |
| Sequencer.SkipGoesOn | src/gitclient/infrastructure/local_engine.py:2456-2461 | the same for skip, with the stopped commit skipped |
| Sequencer.KeepEmptyGoesOn | src/gitclient/infrastructure/local_engine.py:2410-2434 | the empty commit comes first, a rebase is continued by itself, and then the stopped commit is kept empty and the rest replayed |
| Sequencer.RebaseGoesOn | src/gitclient/infrastructure/local_engine.py:2229-2239 | a rebase from rest is given to git with the option, and one that nothing stops replays the plan but what upstream has, and reports that |
| Sequencer.AbortGoesOn | src/gitclient/infrastructure/local_engine.py:2470-2486 | an abort is given to git, and one that git or the merge accepts is reported and ends the operation |
| Sequencer.StopIsReported | src/gitclient/infrastructure/local_engine.py:2552-2575 | a stop on the way is reported as a conflict with its files or as a commit that would be empty, with what was picked before replayed |
| Sequencer.EmptyIsReported | src/gitclient/infrastructure/local_engine.py:2231-2236 | with the option the first commit that brings nothing is the one that is asked about |
| Sequencer.FailureIsReported | src/gitclient/infrastructure/local_engine.py:2552-2582 | the time limit is an error, a refusal is one exactly if nothing is in progress, and otherwise the stop is reported as it was |
| Sequencer.RefusedCalls | src/gitclient/infrastructure/local_engine.py:2367-2409 | where the driver does not go on, it says why and neither issues a command nor changes anything |
| Sequencer.NoCommitIsLost | src/gitclient/infrastructure/local_engine.py:2352-2461 | every run of calls, answers of git and work of the user keeps the ledger, and the continue command never meets a stopped commit whose staged tree equals HEAD |
| Sequencer.LedgerIsAPartition | src/gitclient/infrastructure/local_engine.py:2219-2239 | under the ledger the plan is the disjoint union of replayed, kept empty, already applied, skipped, stopped and remaining commits |
| Sequencer.EveryPlanIsAccountedFor | src/gitclient/infrastructure/local_engine.py:2219-2461 | both of these in every run from a repository at rest |
| Sequencer.CompletedIsComplete | src/gitclient/infrastructure/local_engine.py:2583-2588 | a call that reports completion leaves nothing stopped and nothing remaining |
| Sequencer.OnlySkipSkips | src/gitclient/infrastructure/local_engine.py:2450-2461 | only the skip call skips, only the commit that was stopped, and no call rewrites what was settled |
| Sequencer.AppliedAreReportedIff | src/gitclient/infrastructure/local_engine.py:2552-2588 | in every run, at every point of a rebase that was not aborted, the outcomes have reported exactly the already applied commits, if and only if there are none or its first command was not killed by the time limit |
| Sequencer.AppliedMayGoUnreported | src/gitclient/infrastructure/local_engine.py:2547-2549 | a rebase killed right after its first effect has an applied commit and no report |
| Sequencer.EmptyConflictListIff | src/gitclient/infrastructure/local_engine.py:2552-2575 | for each call, by the repository before it: it may return a conflict with an empty list if and only if, when starting, there is something to pick; when continuing, an operation without conflicts has something to commit; when skipping, an operation has no conflicts or more commits; when keeping an empty commit, a rebase without conflicts has nothing to commit |
| Sequencer.EmptyConflictListHappens | src/gitclient/domain/models.py:671-676 | such a call, in a run from a repository at rest |
| Sequencer.WouldBeEmptyNamesACommit | src/gitclient/domain/models.py:679-687 | in every run without an interruption by the time limit or by a refused continuation, the question whether to drop a commit is about the stopped one |
| Sequencer.ContinueAsksAboutNothingIff | src/gitclient/infrastructure/local_engine.py:2375-2380 | continuing asks about no commit, without a command, exactly when a rebase stands between two commits without conflicts or staged changes |
| Sequencer.NothingMayBeStopped | src/gitclient/infrastructure/local_engine.py:2375-2380 | two runs, one for each interruption, after which it does |
| Sequencer.GitAloneLosesCommits | tests/integration/test_empty_commit_choice.py:1-16 | the environment does drop a commit where the driver stops before the command |
| Sequencer.OptionIsNeeded | src/gitclient/infrastructure/local_engine.py:2231-2236 | for every plan with something to pick, git without the option may drop all of it and report success; with it the ledger holds |
| Cancellation.RunKeepsInv | src/gitclient/application/remote_workers.py:134-152 | the protocol invariant holds in every interleaving of both threads and of processes that end |
| Cancellation.NoProcessEscapes | src/gitclient/infrastructure/remote_engine.py:1050-1085 | after the first return of cancel, in every state, each live process is handed to a kill or in the window before it, in both engines and for every later command |
| Cancellation.WindowCloses | src/gitclient/infrastructure/remote_engine.py:1055-1060 | the next two steps of the worker hand that process over, whatever they choose |
| Cancellation.AbortIsForGood | src/gitclient/infrastructure/remote_engine.py:505-514 | no step takes an abort back |
| Cancellation.SignalsAreOrdered | src/gitclient/application/remote_workers.py:169-229 | at most one of finished and failed, and retired once and last, when the worker is gone |
| Cancellation.UncancelledReports | src/gitclient/application/remote_workers.py:205-229 | a worker that nobody cancelled reports finished or failed before it retires |
| Cancellation.OperationIsReported | src/gitclient/application/remote_workers.py:194-221 | without a cancel an operation that went well is reported as finished, one that failed as failed |
| Cancellation.CancelledReportsIff | src/gitclient/application/remote_workers.py:205-221 | a cancelled worker reports exactly if it had read the flag before the cancel, and never reads it as clear afterwards |
| Cancellation.CancelledMayReport | src/gitclient/application/remote_workers.py:205-207 | a run where cancel returns between the reading and the report |
| Cancellation.CancelReturns | src/gitclient/application/remote_workers.py:134-152 | a call of cancel sets the flag at once, and each of its steps brings it nearer to its return, whatever the worker does |
| Cancellation.CommandIsLaunched | src/gitclient/infrastructure/remote_engine.py:1050-1053 | a command becomes a live process, which an engine that is not aborted holds |
| WriteQueue.Dispatcher.SubmitWork | src/gitclient/application/write_queue.py:110-116 | the submission step of the state machine, with the next number |
| WriteQueue.Dispatcher.OnDone | src/gitclient/application/write_queue.py:137-165 | the handler, with whatever its two signals nest inside it, is the nested step of the state machine |
| WriteQueue.EveryRunIsValid | src/gitclient/application/write_queue.py:110-165 | in every run, with any nesting: one active job, jobs started and reported once in submission order, idle only when all is done, waiting work never without a handler, an idle after every busy period |
| WriteQueue.ReportIsTheActiveJobs | src/gitclient/application/write_queue.py:145-146 | a report that arrives is the active job's, so the defensive check drops none |
| WriteQueue.NothingIsStuck | src/gitclient/application/write_queue.py:163-165 | with no handler in progress a job runs, or all jobs have reported and idle was emitted since |
| WriteQueue.QueueDrains | src/gitclient/application/write_queue.py:118-165 | whatever is waiting, once each started job reports, all jobs have started and reported in the order of submission, and the queue is idle and has said so |
| WriteQueue.ReportGoesOn | src/gitclient/application/write_queue.py:137-153 | the report of the active job is passed on, as the success or the failure it is, and frees the queue |
| WriteQueue.SubmitGoesOn | src/gitclient/application/write_queue.py:110-135 | a job submitted to a queue at rest starts at once, otherwise it waits behind the others |
| WriteQueue.DeliveryIsARun | src/gitclient/application/write_queue.py:155-165 | a handler nested in another is a run of the state machine and leaves the handlers below it alone |
| WriteQueue.NestedSlotsKeepTheQueue | src/gitclient/application/write_queue.py:137-165 | so after any tree of slots the queue is valid and not stuck |
| ConflictText.ParseConflicted | src/gitclient/domain/conflict_text.py:37-88 | the loop is the specified parser, with its four errors |
| ConflictText.MarkersLook | src/gitclient/domain/conflict_text.py:120-122 | a line is a marker exactly if it is the seven characters, then nothing or a space and any label, then any line ends, for each of the four |
| ConflictText.LabelledConflictIsParsed | src/gitclient/domain/conflict_text.py:59-81 | a conflict with any labels is one hunk with its two sides |
| ConflictText.CollectUntil | src/gitclient/domain/conflict_text.py:125-135 | the lines up to the first stop are added; a nested opening is an error |
| ConflictText.GrammarIsAccepted | src/gitclient/domain/conflict_text.py:37-88 | what the printer prints is parsed to the segments it was printed from, for every grammatical file with labels and base sections |
| ConflictText.AcceptedIsGrammar | src/gitclient/domain/conflict_text.py:37-88 | every accepted file is the print of grammatical pieces with the parsed segments: each line has one role, in order |
| ConflictText.ParserAcceptsExactly | src/gitclient/domain/conflict_text.py:37-88 | the parser accepts exactly the marker grammar, with different lines allowed in common text, ours, base and theirs |
| ConflictText.ParsePrintParse | src/gitclient/domain/conflict_text.py:37-88 | printing the parse gives the file without labels and base sections, and parsing that gives the same segments |
| ConflictText.ComposeText | src/gitclient/domain/conflict_text.py:95-117 | the joined text of the composition by one choice for each hunk in order, or one of the two errors |
| ConflictText.ComposeRefuses | src/gitclient/domain/conflict_text.py:97-104 | a wrong number of choices is refused first, then a choice that is none of the three |
| ConflictText.OneHunkComposes | src/gitclient/domain/conflict_text.py:112-116 | one hunk gives our side, their side, or ours in front of theirs |
| ConflictText.AssembleSplits | src/gitclient/domain/conflict_text.py:106-117 | composing is a homomorphism, each part with its own choices |
| ConflictText.LinesAreConserved | src/gitclient/domain/conflict_text.py:106-117 | for every list of choices the result holds the common lines and, hunk by hunk, the lines of the chosen side or sides, each as often |
| ConflictText.BothIsOursAndTheirs | src/gitclient/domain/conflict_text.py:113-116 | so both sides everywhere are ours everywhere and theirs everywhere, the common text counted once less |
| ConflictText.ComposedHasNoHunk | src/gitclient/domain/conflict_text.py:61-117 | the result has no opening marker, never parses to a hunk, and is accepted exactly when no other marker line was chosen |
| ConflictText.ComposedTextHasNoHunk | src/gitclient/domain/conflict_text.py:95-117 | the same for the text that is written and split into lines again |
| ConflictText.MarkerFreeIsUnchanged | src/gitclient/domain/conflict_text.py:95-117 | a file without hunks is its own composition |
| CloneCleanup.CloneWorker.constructor | src/gitclient/application/remote_workers.py:357-378 | the decision on cleaning up is taken once, on the tree before the clone |
| CloneCleanup.CloneWorker.CleanPartialClone | src/gitclient/application/remote_workers.py:511-551 | only paths below the destination go, and the destination itself only if the worker made it; everything there goes when deletions work |
| CloneCleanup.CloneWorker.FinishRun | src/gitclient/application/remote_workers.py:457-468 | nothing goes after success, without permission, or when refs were written |
| CloneCleanup.CloneOnce | src/gitclient/application/remote_workers.py:357-551 | every path present before survives every outcome; a failed clone without refs leaves the destination absent or empty as it was; with refs everything stays |
| CloneCleanup.PolicyMeansNothingBelow | src/gitclient/application/remote_workers.py:396-421 | where cleaning up is allowed, the user has nothing below the destination |
| CloneCleanup.CleanableIs | src/gitclient/application/remote_workers.py:396-421 | cleaning up is allowed exactly for a destination that is absent or an empty directory |
| CloneCleanup.CompleteIs | src/gitclient/application/remote_workers.py:479-509 | a repository counts as complete exactly if something lies below its branches or its packed references are not empty |
| CloneCleanup.FailedClone | src/gitclient/application/remote_workers.py:457-551 | in plain terms: a clone that fails before references are written leaves nothing where nothing was, and an empty directory where one was |

## Left out

- Widgets, dialogs, the main window, and the pygit2 part of the local engine: interface code and library behaviour that the files do not show.
- Progress, trace and error-text parsing, credentials, URL masking, the statistics database, translations and the wording of messages.
- PatchReading.EmittedTextApplies: each line of the diff is one line with its marker behind it, as libgit2 delivers them; a diff with a line that breaks this is not covered.
- PatchApply.DeletionHeaderIff: for a patch that is not marked as a new and a deleted file at once.
- PatchGuard.GuardIsExactIff: for hunks where deletions come before additions in each run, as git writes them.
- DiffModel.HunkIsNeverRejected: for hunks where deletions come first and no marker stands between two deletions, as git writes them.
- DiffModel.IterDisplayRows: the text of the row for a binary file is a constant.
- Fingerprint.StreamIsInjective: origins are single characters, and strings of the model hold no lone surrogates, though the encoding of single code points covers them; the hash of the stream is not modelled, and the stream says nothing about modes and flags of the file.
- ConflictText.ParseConflicted: which of the four messages an unacceptable file gets is not stated apart from the parser, since the source raises one kind of error; a file is split at line feeds; the further separators of Python's `splitlines` are not separators here.
- Sequencer.NoCommitIsLost: for rebases started by this driver; a rebase started outside it may lack the option that stops at empty commits, and squash or fixup plans follow other rules of git; of a cherry-pick and a revert only how the calls end is modelled.
- Sequencer.LocalEngine.AbortOperation: what taking back a merge does to files is left out; a failure leaves the merge as it was.
- Sequencer.LocalEngine.KeepEmptyOperation: messages, the summary of the stopped commit and the parsing of git's warnings are part of the answer of the environment.
- Cancellation.NoProcessEscapes: a command started through `_run_input` cannot be aborted in the source and is outside the claim; threads, signals, pipes and time limits are steps with a free choice, and progress signals are not modelled.
- WriteQueue.EveryRunIsValid: each started job reports once, as the runnable of the source does; what a job does, its name, and the value or error it reports are not modelled.
- CloneCleanup.CloneOnce: between construction and the end of the run only git writes, and only below the destination; permissions, read errors while looking at the tree, and links inside git's own files are not modelled; a deletion that fails is a parameter.
- GraphRun.DrawingIsFaithful: for streams of distinct commits, none its own parent, as a walk delivers them.
