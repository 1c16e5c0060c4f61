# Verification of the board, intake, notification and rollup logic

These Dafny modules model the parts of the application that hold real state: the optimistic board, the forms and
dialogs that resend requests, the notification worker, the self-saving cell editors and the calendar arithmetic.
Handlers that mutate refs and state are classes with those fields; code that maps values is functions; properties that
span calls, rows or whole histories are lemmas.

`dafny verify dfyconfig.toml` checks everything.

| file | what it models |
|---|---|
| `Lists.dfy` | the array methods used everywhere |
| `RowMoves.dfy`, `RowMoveLaws.dfy`, `RowDrops.dfy` | the optimistic row-move reducer; what it conserves; drops and key presses through a filter |
| `GroupOrder.dfy` | moving a group past folded groups |
| `CellOverlay.dfy` | saved cells laid over server snapshots, against a log of saves and snapshots |
| `Retries.dfy` | the request-id discipline shared by several clients, and a server that keeps one effect per id |
| `RowMoveRequests.dfy`, `SummarySettings.dfy` | two clients of that discipline |
| `ContractIntake.dfy` | the start-work form: existing-company starts, new-company requests, lost answers |
| `BulkDialogs.dfy`, `NoteRequests.dfy`, `DuplicateIntent.dfy` | retry and undo bookkeeping, note request ids, the duplicate intent key |
| `DeliveryPolicy.dfy`, `NotifyWorker.dfy` | quiet hours, bundling, and the queue handler |
| `AutosaveEditor.dfy` | the ref-based state machine of the credit-score and founding-date cells |
| `Gregorian.dfy`, `DateTexts.dfy`, `TextOrder.dfy` | the calendar, ISO 8601 text, and the order of ISO texts |
| `ShiftDateTime.dfy`, `Rollup.dfy` | shifting dates by days; the daily metrics rollup |

## How to read it

A class method is proved equal to a step function (`Next`, `Step`, `Reduce`, `Moved`, `Plan`, ...), and the lemmas are
about runs of that function: `IsRun` is a list of states and events in which every event was possible. Where an
independent meaning exists it is written separately and the two are proved equal: the cell overlay and the autosave
editor against functions of the bare event log, the drop on the full list against the drop on the filtered list, the
batch map against grouping by key, day numbers against the calendar rule for the next day.

The server is modelled only by what clients rely on. `Retries.Serve` creates one effect for each new request id,
replays an id that comes with the same content and refuses one that comes with another; any request may be lost on the
way, and any answer on the way back.

## Findings

Places where the code does something else than the rule one would expect. Each names the lemma that says exactly when,
and the example beside it where there is one.

- A key press in the ungrouped block always asks for the top of the block: the block lookup compares
  `block.group?.id` (undefined) with `null`, finds nothing and converts the index on an empty list
  (`BoardWorkspace.tsx:1568`). The optimistic order is right exactly when the anchor is the first other row
  (`RowDrops.UngroupedMoveLandsRightIff`).
- A new-company key can carry two contents: after a rejected or conflicting answer the key is kept while its remembered
  content is not refreshed (`ContractWorkIntakeForm.tsx:668-677`). Keys carry one content exactly when no edited
  resubmission happened, told by what was sent and answered (`ContractIntake.OneContentIffNoneChanged`, example in
  `EditedResubmissionTrace`); and while the result is unknown, resubmitting the same content passes exactly when the
  remembered content is the one submitted (`RetryOfUnknownPassesIff`).
- The two flows of that form can come to wait for each other. No guard keeps a start back while a new-company
  submission is unanswered: once the answer to an overlapping submission has cleared the uncertainty, a start goes out
  beside the one still open. The flows wait for each other exactly after an answer without an outcome to a submission with an unresolved start
  beside it, until an answer with an outcome releases one of them (`ContractIntake.LockedIff`, step by step
  `LockStepIff`). With the guard it never happens (`GuardedStartsNeverLock`), nor without overlapping submissions
  (`NeverBothUnresolved` with `OverlappedIff`). With no answer left to come nothing is ever sent again
  (`DeadStaysDead`, example in `OverlapCanLockBothFlows`).
- The comment at `ContractWorkIntakeForm.tsx:963` says the retry form keeps the request id it was given; the handler
  overwrites it (`:323-324`). The model follows the handler. That form also asks no confirmation: it starts under a new
  key exactly when nothing is unresolved (`ContractIntake.RetryFormStartsIff`).
- The summary intent key is not injective for arbitrary metric ids (`SummarySettings.AddKeysCollideIff`, example in
  `CollidingKeys`); for the ids the popover offers it is (`OfferedKeysAreDistinct`).
- A save that fails without a message locks the autosave editor exactly until Enter is pressed on a value the browser
  refuses (`AutosaveEditor.SilentFailureLocks`).
- A started row that is not itself waiting makes no copy of its own exactly when another row waits and this one was
  answered ok under the current key (`DuplicateIntent.SwallowedOnlyBesideWaiting`, example in `SecondCopySwallowed`).
- `shiftBulkDateTime` prints years unpadded, so shifting twice equals shifting by the sum exactly when the year in
  between has four digits (`ShiftDateTime.ShiftsAddUpIff`), and shifting back restores the value exactly when both
  years have four digits (`ShiftBackRestoresIff`).
- The batch key joins its parts with NUL, so two users share a batch exactly when one user id goes on after the other
  with a piece of NUL and event (`DeliveryPolicy.KeysCollideIff`, example in `NulMergesUsers`); ids without NUL, such as
  UUIDs, never do (`KeyIsTriple`).
- Delivery times are compared as text. For a clock in year 0 or later the chosen time is the latest of all exactly when
  the members' years all have four digits or none has (`DeliveryPolicy.LatestIsMaximumIff`); as soon as one has, it is
  the latest of those that have (`LatestOfFourDigits`).

## Model

| member | source | states |
|---|---|---|
| RowMoves.SortSorts | app/src/components/board/BoardWorkspace.tsx:321-323 | Sorting siblings by position yields a sorted permutation. |
| RowMoves.SortIsStable | app/src/components/board/BoardWorkspace.tsx:321-323 | Rows with equal positions keep their array order. |
| RowMoves.MoveBlocks | app/src/components/board/BoardWorkspace.tsx:311-333 | After a move, every block as drawn: the target is its old siblings with the row spliced in and renumbered, every other block only loses the row. |
| RowMoveLaws.MoveKeepsContents | app/src/components/board/BoardWorkspace.tsx:311-333 | Every row after a move is a row from before up to the moved row's group and the target group's positions. |
| RowMoveLaws.MoveConservesRows | app/src/components/board/BoardWorkspace.tsx:311-333 | A move loses no row and makes none. |
| RowMoveLaws.MoveNumbersTarget | app/src/components/board/BoardWorkspace.tsx:325-329 | The target block gets positions 0..n-1, the moved row at the clamped index, the others in their order. |
| RowMoveLaws.MoveIsIdempotent | app/src/components/board/BoardWorkspace.tsx:311-333 | The same move twice equals the move once. |
| RowMoveLaws.RestAfterMove | app/src/components/board/BoardWorkspace.tsx:311-333 | Without the moved row, every block keeps the order it had. |
| RowMoveLaws.LaterMoveSupersedes | app/src/components/board/BoardWorkspace.tsx:311-333 | Of two moves of one row the later alone decides the order of every block. |
| RowMoveLaws.PatchChangesOneValue | app/src/components/board/BoardWorkspace.tsx:312-316 | A value patch changes one column of one row and nothing else. |
| RowMoveLaws.UnknownRowMovesNothing | app/src/components/board/BoardWorkspace.tsx:317-318 | A move of a row that is not on the board changes nothing. |
| RowMoveLaws.MoveClampsItsIndex | app/src/components/board/BoardWorkspace.tsx:325 | An index before the first place means the first, one behind the last means the last. |
| RowDrops.DropLandsBeforeAnchor | app/src/components/board/BoardWorkspace.tsx:1413-1424 | A drop puts the row directly before its anchor in the full order of the group, hidden rows included, or at the end without an anchor. |
| RowDrops.DropCommutesWithFilter | app/src/components/board/BoardWorkspace.tsx:1543-1558 | In every block, dropping through the index translation and then filtering shows what filtering and then dropping shows. |
| RowDrops.DropVisibleOrder | app/src/components/board/BoardWorkspace.tsx:1543-1558 | Among the visible rows of the target the row comes directly before its anchor. |
| RowDrops.KeyboardSwapsNeighbours | app/src/components/board/BoardWorkspace.tsx:1560-1569 | In a real group a key press moves the row exactly when it has a visible neighbour, and then swaps the two on screen. |
| RowDrops.KeyboardUndo | app/src/components/board/BoardWorkspace.tsx:1560-1569 | Up then down, or down then up, restores the visible order of a real group. |
| RowDrops.UngroupedMoveJumpsToTop | app/src/components/board/BoardWorkspace.tsx:1567-1569 | In the ungrouped block every key press puts the row on top of the optimistic order. |
| RowDrops.UngroupedMoveLandsRightIff | app/src/components/board/BoardWorkspace.tsx:1567-1569 | That is before the row's anchor exactly when the anchor is the first other row. |
| GroupOrder.FindTarget | app/src/components/board/BoardWorkspace.tsx:836-839 | The loop over folded groups stops at the first position that shows a group or leaves the list. |
| GroupOrder.GroupList.MoveGroup | app/src/components/board/BoardWorkspace.tsx:835-843 | The handler stores and persists the specified order, and does nothing when there is no shown neighbour. |
| GroupOrder.MovePermutes | app/src/components/board/BoardWorkspace.tsx:841-842 | A move permutes the groups. |
| GroupOrder.MoveSwapsShownNeighbour | app/src/components/board/BoardWorkspace.tsx:835-843 | A shown group moves exactly when it has a shown neighbour in that direction, and the order on screen then swaps exactly these two. |
| GroupOrder.MoveDownOnScreen | app/src/components/board/BoardWorkspace.tsx:835-843 | The order on screen before and after a move down; folded groups keep their relative order. |
| GroupOrder.MoveUpOnScreen | app/src/components/board/BoardWorkspace.tsx:835-843 | The same for a move up. |
| GroupOrder.MoveBackRestoresScreen | app/src/components/board/BoardWorkspace.tsx:835-843 | A possible move can be taken back and the order on screen is restored. |
| GroupOrder.FoldedMoveIsInvisible | app/src/components/board/BoardWorkspace.tsx:835-843 | Moving a group that is itself folded changes nothing on screen. |
| CellOverlay.CellSaves.SaveSucceeded | app/src/components/board/BoardWorkspace.tsx:696-707 | A confirmed save appends itself to the history the overlay is determined by. |
| CellOverlay.CellSaves.SaveFailed | app/src/components/board/BoardWorkspace.tsx:709-715 | So does a failed save, with the version of the row the user was looking at. |
| CellOverlay.CellSaves.ReceiveRows | app/src/components/board/BoardWorkspace.tsx:648-653 | So do new rows from the server. |
| CellOverlay.CellSaves.Show | app/src/components/board/BoardWorkspace.tsx:658-661 | The rows drawn and the note under a cell are functions of that history alone, and each drawn row is the server's with the saved item that still shows laid over it. |
| CellOverlay.OutlivesSnoc | app/src/components/board/BoardWorkspace.tsx:273-277 | The step rule for one more snapshot is the rule over all snapshots since the save: none, or one with a known, strictly older version. |
| CellOverlay.FailureStandsSnoc | app/src/components/board/BoardWorkspace.tsx:286-289 | A failure note stands while every snapshot since carries a known version no newer than the one it was made on. |
| CellOverlay.ReplayMatchesLog | app/src/components/board/BoardWorkspace.tsx:271-298 | After any history the incremental overlay equals the one specified from the log: saved rows, counters and notes. |
| CellOverlay.ShownMatchesLog | app/src/components/board/BoardWorkspace.tsx:251-264 | A row shows its last saved version exactly when no snapshot came since and the server has not caught up, or exactly one came with a known, strictly older version; else the server's row. |
| CellOverlay.SavedValuesShow | app/src/lib/boards/cell-save-result.ts:20-39 | Over every history the drawn rows are the current server rows that stay on the board, in order; where a saved item shows, its columns, place and statuses are drawn, every other column and field is the server's. |
| CellOverlay.SaveShowsAtOnce | app/src/components/board/BoardWorkspace.tsx:696-707 | Right after a confirmed save its item shows exactly unless the server has that version already. |
| CellOverlay.VersionIsTheRows | app/src/components/board/BoardWorkspace.tsx:257 | For rows with distinct ids the version looked up is the row's own. |
| CellOverlay.TwoSnapshotsEmptyTheOverlay | app/src/components/board/BoardWorkspace.tsx:266-298 | Two snapshots without a save between them leave the server's rows and only failure notes. |
| Retries.SendKeepsDiscipline | app/src/components/board/BoardWorkspace.tsx:1515-1521 | Reusing the id only for the same ask while it is unsettled keeps: two calls share an id exactly when they are one run of retries, and then carry one content. |
| Retries.AnswerKeepsDiscipline | app/src/components/board/BoardWorkspace.tsx:1530-1537 | Learning an answer keeps it too. |
| Retries.OneEffectPerId | supabase/migrations/117_bbe237_company_start_work.sql:83-93 | If every id carries one content, the server refuses nothing and keeps exactly one effect for each id that arrived, with the content sent. |
| Retries.DisciplinedNeverDuplicates | app/src/components/board/ContractWorkIntakeForm.tsx:532-545 | A disciplined client never causes a refusal or a second effect, whatever is lost. |
| RowMoveRequests.RowMover.ReceiveVersion | app/src/components/board/BoardWorkspace.tsx:635-639 | A new order version is taken over at once unless a move is in flight. |
| RowMoveRequests.RowMover.Begin | app/src/components/board/BoardWorkspace.tsx:1515-1521 | At most one move is in flight; the same move asked again while unsettled repeats id and expected version, any other gets a fresh id and the held version. |
| RowMoveRequests.RowMover.Finish | app/src/components/board/BoardWorkspace.tsx:1530-1538 | Afterwards the held version is at least the latest prop and any returned version; the id is released by success or staleness only. |
| SummarySettings.SummaryEditor.Submit | app/src/components/board/BoardSummarySettingsPopover.tsx:54-66 | A change goes out only when editing is allowed and nothing is running; the retained request is sent again exactly for the same key. |
| SummarySettings.SummaryEditor.Finish | app/src/components/board/BoardSummarySettingsPopover.tsx:68-85 | Only an ok answer to this very request forgets it. |
| SummarySettings.OfferedKeysAreDistinct | app/src/components/board/BoardSummarySettingsPopover.tsx:18-22 | For the changes the popover offers, equal keys mean equal changes. |
| SummarySettings.AddKeysCollideIff | app/src/components/board/BoardSummarySettingsPopover.tsx:18-22 | For arbitrary ids, exactly when two added metrics share a key. |
| SummarySettings.CollidingKeys | app/src/components/board/BoardSummarySettingsPopover.tsx:18-22 | Such a pair. |
| ContractIntake.IntakeForm.GuardExistingStart | app/src/components/board/ContractWorkIntakeForm.tsx:343-360 | The guard takes the specified step: it consumes the confirmation, asks first, or hands on. |
| ContractIntake.IntakeForm.StampExistingRequest | app/src/components/board/ContractWorkIntakeForm.tsx:307-328 | An existing-company start goes out only when nothing else is unresolved, under the id of the request it repeats. |
| ContractIntake.IntakeForm.ExistingAction | app/src/components/board/ContractWorkIntakeForm.tsx:292-305 | Success and rejection release the id; any other end keeps it; results are numbered as they end. |
| ContractIntake.IntakeForm.StampNewRequest | app/src/components/board/ContractWorkIntakeForm.tsx:659-679 | A new-company submission passes exactly when no start is unresolved and an uncertain request has the same content; what goes out is recorded with its id. |
| ContractIntake.IntakeForm.NewCompanyAction | app/src/components/board/ContractWorkIntakeForm.tsx:363-384 | The answer settles or keeps the uncertainty and a confirmed request remembers what was sent. |
| ContractIntake.EveryRunKeeps | app/src/components/board/ContractWorkIntakeForm.tsx:292-384 | The invariants of both flows and of the result numbers hold in every state of every run. |
| ContractIntake.StartsNeverDuplicate | app/src/components/board/ContractWorkIntakeForm.tsx:292-328 | Over every run a new key leaves exactly when the previous one was answered ok or rejected, each key carries one content, and the server creates at most one row per key and never refuses. |
| ContractIntake.NewKeysCarryOneContentIff | app/src/components/board/ContractWorkIntakeForm.tsx:659-679 | New-company keys carry one content exactly when no submission changed the content of a kept key; then the server never refuses. |
| ContractIntake.EditedIff | app/src/components/board/ContractWorkIntakeForm.tsx:668-676 | Exactly which submissions of a run change the content of a kept request. |
| ContractIntake.RunMatchesLog | app/src/components/board/ContractWorkIntakeForm.tsx:362-384 | Over every run the kept request is the one told by what was sent and answered: the last key, whether it was answered ok, and the content it stands for. |
| ContractIntake.FreshKeyIff | app/src/components/board/ContractWorkIntakeForm.tsx:673-677 | A submission that goes out carries a fresh key exactly when nothing was sent before, or the last key was answered ok and the content differs from the confirmed one; otherwise it carries the last key. |
| ContractIntake.OneContentIffNoneChanged | app/src/components/board/ContractWorkIntakeForm.tsx:659-679 | Each key carries one content exactly when no submission that went out changed the content of a key no answer had confirmed. |
| ContractIntake.UncertainIff | app/src/components/board/ContractWorkIntakeForm.tsx:363-384 | The result of a new company is uncertain exactly since it was sent or answered without an outcome, until an answer with one. |
| ContractIntake.NewGoesOutIff | app/src/components/board/ContractWorkIntakeForm.tsx:659-672 | A new-company submission goes out exactly when no start is unresolved and, while the result is uncertain, it has the content the last key stands for. |
| ContractIntake.StartGoesOutIff | app/src/components/board/ContractWorkIntakeForm.tsx:307-360 | Exactly when a start goes out, under which key, and what becomes of the confirmation: a company that is not on the tab is never asked about. |
| ContractIntake.UnresolvedIff | app/src/components/board/ContractWorkIntakeForm.tsx:292-301 | A start is unresolved exactly since it went out, until an answer that is ok or rejected. |
| ContractIntake.ConfirmedIff | app/src/components/board/ContractWorkIntakeForm.tsx:343-360 | A company is confirmed exactly since the user said so, until another confirmation or the next picked submission. |
| ContractIntake.OverlappedIff | app/src/components/board/ContractWorkIntakeForm.tsx:659-679 | Exactly which submissions of a run go out while another is unanswered. |
| ContractIntake.LockStepIff | app/src/components/board/ContractWorkIntakeForm.tsx:307-384 | In one step the flows come to wait for each other exactly by an answer without an outcome to a submission with an unresolved start beside it; and a start comes to stand beside a submission exactly when it is let through while one is unanswered. |
| ContractIntake.LockedIff | app/src/components/board/ContractWorkIntakeForm.tsx:307-384 | Over every run the flows wait for each other exactly when such an answer came and none since released either. |
| ContractIntake.GuardedStartsNeverLock | app/src/components/board/ContractWorkIntakeForm.tsx:312-325 | A run in which no start is let through beside an unanswered submission never gets there. |
| ContractIntake.NeverBothUnresolved | app/src/components/board/ContractWorkIntakeForm.tsx:307-384 | With at most one new-company submission outstanding, no start is let through beside one, and an unresolved start and an uncertain new company never coexist. |
| ContractIntake.DeadStaysDead | app/src/components/board/ContractWorkIntakeForm.tsx:307-384 | Once the flows wait for each other and no answer is to come, nothing is ever sent again. |
| ContractIntake.RetryOfUnknownPassesIff | app/src/components/board/ContractWorkIntakeForm.tsx:667-677 | While a result is unknown the same content passes again exactly when it is the remembered content. |
| ContractIntake.EditedResubmissionTrace | app/src/components/board/ContractWorkIntakeForm.tsx:668-677 | A run in which one key goes out with two contents and only the first then passes. |
| ContractIntake.ReuseIsRefused | supabase/migrations/117_bbe237_company_start_work.sql:83-93 | The server that holds the second content refuses the first under that key. |
| ContractIntake.OverlapCanLockBothFlows | app/src/components/board/ContractWorkIntakeForm.tsx:307-384 | A run that ends there; LockedIff says exactly when. |
| ContractIntake.FurtherStartNeedsConfirmation | app/src/components/board/ContractWorkIntakeForm.tsx:336-360 | Picking a company already on the tab starts it under a new key only right after that company was confirmed; a confirmation serves one submission. |
| ContractIntake.RetryFormStartsIff | app/src/components/board/ContractWorkIntakeForm.tsx:960-966 | The retry form of a result starts under a new key exactly when nothing is unresolved, without asking. |
| ContractIntake.ResultsOnScreen | app/src/components/board/ContractWorkIntakeForm.tsx:447-449 | A success hides every result so far; any other answer is shown and leaves the other flow's result as it was. |
| BulkDialogs.Answer | app/src/app/(app)/boards/bulk-trash-actions.ts:67-106 | The server answers one entry for each distinct non-empty id, in order; refusals and ids past the hundredth fail. |
| BulkDialogs.CleanRequest | app/src/app/(app)/boards/bulk-trash-actions.ts:71 | Distinct non-empty ids are requested as they are. |
| BulkDialogs.BulkDialog.ApplyAnswered | app/src/components/board/BulkActionBar.tsx:806-821 | A retry's results are merged after the rows already ok, with the counts recomputed. |
| BulkDialogs.BulkDialog.UndoAnswered | app/src/components/board/BulkActionBar.tsx:823-834 | The rows restored are appended to the restored ones. |
| BulkDialogs.MergeSplits | app/src/components/board/BulkActionBar.tsx:810-814 | After a retry the moved rows are those before followed by those answered ok, and the waiting rows those answered not ok. |
| BulkDialogs.UndoRestores | app/src/components/board/BulkActionBar.tsx:825-830 | After an undo a row is restored exactly when it was before or was answered ok; the new ones follow in the order of the answers. |
| BulkDialogs.FailedUndoStays | app/src/components/board/BulkActionBar.tsx:801-830 | A row whose undo failed can be undone again, and exactly the rows answered ok no longer can. |
| BulkDialogs.AnswersCover | app/src/app/(app)/boards/bulk-trash-actions.ts:67-106 | Those answers give one entry for each submitted row, for a retry and for an undo. |
| BulkDialogs.EachRowInOnePlace | app/src/components/board/BulkActionBar.tsx:795-834 | Every reviewed row is in exactly one of not moved, moved and restored; applied plus failed is the number reviewed. |
| BulkDialogs.EveryRunBalances | app/src/components/board/BulkActionBar.tsx:795-834 | This balance holds through any mix of retries and undos. |
| BulkDialogs.SettledRowsStaySettled | app/src/components/board/BulkActionBar.tsx:800-834 | A row answered ok is never submitted again; a restored row is neither moved nor restored again. |
| BulkDialogs.SubmittedAlike | app/src/components/board/BulkActionBar.tsx:879-972 | The archive, link and note dialogs, which pick their rows differently, submit the same rows, each once. |
| NoteRequests.NoteDialog.Apply | app/src/components/board/BulkActionBar.tsx:879-896 | A note goes out only with 1 to 2000 characters and rows left; ids are made once for each content and reused. |
| NoteRequests.NoteDialog.IdsWait | app/src/components/board/BulkActionBar.tsx:879 | The rows submitted are the reviewed ones without an ok answer, in the order reviewed, each once. |
| NoteRequests.NoteDialog.Answered | app/src/components/board/BulkActionBar.tsx:897-901 | Answers merge as in the other dialogs. |
| NoteRequests.RecordedHaveOneId | app/src/components/board/BulkActionBar.tsx:888-896 | Two notes sent share a request id exactly when content and row are the same. |
| NoteRequests.EachNoteWrittenOnce | app/src/components/board/BulkActionBar.tsx:880-896 | Whatever is lost and retried, the server writes exactly the distinct (content, row) pairs that arrived. |
| DuplicateIntent.DuplicateBar.OpenDialog | app/src/components/board/BulkActionBar.tsx:1046-1047 | The dialog captures the current intent key. |
| DuplicateIntent.DuplicateBar.CloseDialog | app/src/components/board/BulkActionBar.tsx:1051 | It stays open while a call is in flight. |
| DuplicateIntent.DuplicateBar.Start | app/src/components/board/BulkActionBar.tsx:1053-1057 | A start sends every waiting row under the current key and marks it unresolved; a double click sends nothing. |
| DuplicateIntent.DuplicateBar.Answered | app/src/components/board/BulkActionBar.tsx:1060-1066 | Rows answered ok are resolved; the key rotates exactly when nothing is unresolved. |
| DuplicateIntent.DuplicateBar.Threw | app/src/components/board/BulkActionBar.tsx:1074-1078 | An unknown outcome resolves nothing and keeps the key. |
| DuplicateIntent.SendingWaits | app/src/components/board/BulkActionBar.tsx:1390-1396 | A row is sent under another key only after it was answered ok under the earlier one. |
| DuplicateIntent.CopiesAreConfirmedButOne | app/src/components/board/BulkActionBar.tsx:1389-1396 | Over closing, reopening and retrying, a row has at most one copy that was never confirmed to the user. |
| DuplicateIntent.SwallowedIff | app/src/components/board/BulkActionBar.tsx:1389-1396 | A row confirmed under the current key is copied already; a row that is not waiting is copied under it exactly if so. |
| DuplicateIntent.NothingWaitingNothingSwallowed | app/src/components/board/BulkActionBar.tsx:1394-1395 | With nothing unresolved every started row gets a copy of its own. |
| DuplicateIntent.SwallowedOnlyBesideWaiting | app/src/components/board/BulkActionBar.tsx:1389-1396 | In every reachable state a started row that is not itself waiting makes no copy of its own exactly when another row waits and it was answered ok under the current key. |
| DuplicateIntent.SecondCopySwallowed | app/src/components/board/BulkActionBar.tsx:1389-1396 | A run with two confirmations of a row under one key, hence one copy; SwallowedOnlyBesideWaiting says exactly when. |
| DeliveryPolicy.FindQuietEnd | worker/src/notify/delivery-policy.ts:31-48 | The probing loop computes the first probe in the end hour. |
| DeliveryPolicy.QuietEndIsFound | worker/src/notify/delivery-policy.ts:31-48 | From a quiet instant it finds a result exactly when the end hour is an hour of the day, within 23 hours; every earlier probe is quiet, the result is not and lies in the first minute of the end hour. |
| DeliveryPolicy.HourAtIsLocal | worker/src/notify/delivery-policy.ts:25-29 | The hour counts from local midnight, a full hour each, and starts again after 24. |
| DeliveryPolicy.QuietHoursAreTheArc | worker/src/notify/delivery-policy.ts:37-40 | The quiet hours are those met going from the start hour on, round midnight if need be, before the end hour. |
| DeliveryPolicy.OwnTimeIsEarliest | worker/src/notify/delivery-policy.ts:60-67 | A candidate asks for the earliest instant that is not past, not inside its window and not before the end of the quiet hours that hold it. |
| DeliveryPolicy.PlanNotificationDelivery | worker/src/notify/delivery-policy.ts:51-84 | The loop over candidates with its insertion-ordered map yields grouping by key in order of first appearance. |
| DeliveryPolicy.KeyIsTriple | worker/src/notify/delivery-policy.ts:58-59 | With NUL-free user ids the key is the (user, event, urgency) triple. |
| DeliveryPolicy.KeysCollideIff | worker/src/notify/delivery-policy.ts:58-59 | For arbitrary ids, exactly when two candidates share a key. |
| DeliveryPolicy.NulMergesUsers | worker/src/notify/delivery-policy.ts:58-59 | Two users that do. |
| DeliveryPolicy.LatestIsLastText | worker/src/notify/delivery-policy.ts:67-73 | The text comparisons settle on a member's time whose text no member's exceeds. |
| DeliveryPolicy.LatestOfFourDigits | worker/src/notify/delivery-policy.ts:67-73 | As soon as one member's time has a four-digit year, it is the latest of all that have. |
| DeliveryPolicy.LatestIsMaximumIff | worker/src/notify/delivery-policy.ts:67-73 | For a clock in year 0 or later it is the maximum of all exactly when all years have four digits or none has. |
| DeliveryPolicy.PlanBatchesKeys | worker/src/notify/delivery-policy.ts:51-84 | For any input, each key has exactly one batch, which holds exactly its ids, none twice, at a member's time that no member's text exceeds and no four-digit-year time is later than. |
| DeliveryPolicy.NulFreeKeysAreTriples | worker/src/notify/delivery-policy.ts:58-59 | With NUL-free user ids the keys tell the triples apart. |
| DeliveryPolicy.PlanBatchIsOneTriple | worker/src/notify/delivery-policy.ts:51-84 | When keys tell the triples apart, each batch holds exactly the ids of one triple. |
| DeliveryPolicy.PlanCoversEveryTriple | worker/src/notify/delivery-policy.ts:51-84 | Each triple has exactly one batch. |
| DeliveryPolicy.PlanIgnoresOrder | worker/src/notify/delivery-policy.ts:51-84 | Permuting the candidates changes no batch of the plan: each has its like for the same key, with the same id set and time, and the same user and event when keys tell the triples apart. |
| DeliveryPolicy.UrgentIgnoresQuietHours | worker/src/notify/delivery-policy.ts:60-63 | Urgent candidates never wait for quiet hours. |
| TextOrder.IsoOrderIsTimeOrder | worker/src/notify/delivery-policy.ts:73 | For years 0 to 9999, comparing ISO texts is comparing instants. |
| TextOrder.LongYearSortsFirst | worker/src/notify/delivery-policy.ts:73 | The text of any other year compares below every four-digit year. |
| TextOrder.LongIsoOrderIsTimeOrder | worker/src/notify/delivery-policy.ts:73 | Past the year 9999, up to the last time value, comparing ISO texts is comparing instants too. |
| TextOrder.BeforeIsTotal | worker/src/notify/delivery-policy.ts:73 | Comparing texts is a total order. |
| NotifyWorker.Worker.Enqueue | worker/src/notify/register.ts:34-39 | A job without the policy's fields is refused. |
| NotifyWorker.Worker.ProcessNotifyJob | worker/src/notify/job.ts:56-99 | One job is processed as specified: invalid, missing, unsupported, sent, retried or failed. |
| NotifyWorker.Worker.Handle | worker/src/notify/job.ts:105-119 | A batch is handled in order; deferred jobs are put back unchanged; a throw leaves the rest. |
| NotifyWorker.ProcessingDoes | worker/src/notify/job.ts:62-98 | A queued message goes once to the first provider for its channel and ends sent, queued for a retry, or failed, also without a provider; nothing else changes. |
| NotifyWorker.JobIsPutBackOrHanded | worker/src/notify/job.ts:107-116 | One delivery is put back once, for the earliest instant it is due, or handed over once; without policy, queue or fields it is handed over. |
| NotifyWorker.BatchHandlesJobs | worker/src/notify/job.ts:106-118 | A batch handles its jobs one after the other: all of them, or up to the first that throws. |
| NotifyWorker.NoJobIsDropped | worker/src/notify/job.ts:106-118 | Without a throw every delivery of a batch was put back or handed over, exactly once and in order; with one, those up to the thrower, which was handed over and answered retryable. |
| NotifyWorker.PlanOfOne | worker/src/notify/job.ts:110 | The one-candidate plan is one batch at the candidate's own time. |
| NotifyWorker.EachMessageSentAtMostOnce | worker/src/notify/job.ts:56-119 | Across any batches, redeliveries and deferrals each message has at most one successful send, and its status says whether it had one. |
| NotifyWorker.StatusLeavesQueuedOnce | worker/src/notify/job.ts:80-98 | A status that has left queued never changes again. |
| NotifyWorker.RetryLeavesQueued | worker/src/notify/job.ts:91-95 | A job throws exactly after a retryable answer, and its message stays queued. |
| NotifyWorker.ReadyIff | worker/src/notify/job.ts:108-115 | Exactly when a planned job is handed to the sender. |
| NotifyWorker.NeverSentEarly | worker/src/notify/job.ts:105-119 | Over every history a planned job reaches the sender only after its window and, unless urgent, outside quiet hours. |
| NotifyWorker.DefersIff | worker/src/notify/job.ts:107-116 | A planned delivery goes to the sender exactly when it is ready; otherwise it is put back for the candidate's own time. |
| NotifyWorker.DeferredAtMostTwice | worker/src/notify/job.ts:105-119 | Deliveries of one job, each at exactly the time the one before was deferred to, are at most three, two for an urgent job; the last goes to the sender, whatever changed in between. |
| AutosaveEditor.Editor.ReceiveValue | app/src/components/board/NewLeadCreditScoresCell.tsx:66-70 | A refreshed value becomes the baseline and replaces the draft only when it is not edited. |
| AutosaveEditor.Editor.Change | app/src/components/board/NewLeadFoundedDateCell.tsx:136-143 | Typing sets the draft and the edited flag and dismisses the error. |
| AutosaveEditor.Editor.LeaveField | app/src/components/board/NewLeadCreditScoresCell.tsx:103-109 | Leaving the field submits an edited, valid draft once. |
| AutosaveEditor.Editor.PressEnter | app/src/components/board/NewLeadCreditScoresCell.tsx:116-126 | Enter submits or is refused as specified; a refused value unlocks. |
| AutosaveEditor.Editor.Submit | app/src/components/board/NewLeadFoundedDateCell.tsx:111-121 | Exactly the armed submit, or an edited draft with nothing submitted, goes out with the current draft. |
| AutosaveEditor.Editor.TakeAnswer | app/src/components/board/NewLeadCreditScoresCell.tsx:72-92 | The effect takes each answer in once: running it again changes nothing. |
| AutosaveEditor.Editor.ReceiveAnswer | app/src/components/board/NewLeadFoundedDateCell.tsx:44-50 | An answer moves the editor as specified, with all counters and refs back at rest. |
| AutosaveEditor.EditorMatchesLog | app/src/components/board/NewLeadCreditScoresCell.tsx:38-109 | After any run draft, baseline and edited flag are the stated functions of the event log, so a refresh never replaces an unsaved text; at most one save is open. |
| AutosaveEditor.OnlyTypedTextIsSent | app/src/components/board/NewLeadFoundedDateCell.tsx:84-102 | What goes out is the text typed last, exactly when it is unsaved, idle and valid on leaving or Enter; nothing else is open then. |
| AutosaveEditor.AnswerSettlesTheDraft | app/src/components/board/NewLeadCreditScoresCell.tsx:72-92 | Success makes the value sent the baseline; failure keeps it as the draft, which leaving the field sends again exactly if the failure had a message. |
| AutosaveEditor.SilentFailureLocks | app/src/components/board/NewLeadCreditScoresCell.tsx:88-91 | After a failure without a message nothing is sent until Enter is pressed on a refused value. |
| AutosaveEditor.PhaseIff | app/src/components/board/NewLeadCreditScoresCell.tsx:72-126 | Over every run the editor is locked exactly since a failure without a message, until Enter on a refused value, and saving exactly while an answer is missing. |
| AutosaveEditor.BadValueIff | app/src/components/board/NewLeadCreditScoresCell.tsx:103-109 | It complains of the value exactly since the browser refused it on Enter or on leaving an edited field, until typing, sending or an answer. |
| AutosaveEditor.FailureShownIff | app/src/components/board/NewLeadFoundedDateCell.tsx:51-53 | It shows a failure exactly since it was answered with that message, until typing, sending, an answer or a refusal. |
| Gregorian.YearFrom | app/src/components/board/BulkActionBar.tsx:103-168 | The year of a day number: from its first day to its last. |
| Gregorian.DateOf | app/src/components/board/BulkActionBar.tsx:103-168 | Every day number has a calendar date with that number. |
| Gregorian.DayNumbersDistinguish | app/src/components/board/BulkActionBar.tsx:103-168 | No two dates share a day number. |
| Gregorian.DateOfDayNumber | app/src/components/board/BulkActionBar.tsx:103-168 | Dates and day numbers correspond one to one. |
| Gregorian.NextNumberIsNextDay | worker/src/platform-metrics/rollup.ts:65-69 | Counting one up is the calendar's next day across months, years and leap days. |
| Gregorian.AddingIsWalking | worker/src/platform-metrics/rollup.ts:65-69 | Adding to a day number is walking the calendar day by day. |
| DateTexts.ReadsBack | app/src/components/board/BulkActionBar.tsx:105-118 | Reading a padded date text gives the date back. |
| DateTexts.WritesBack | app/src/components/board/BulkActionBar.tsx:105-118 | Writing a date read from a text gives the text back. |
| DateTexts.PlainYearReads | app/src/components/board/BulkActionBar.tsx:118 | A date written with an unpadded year reads as a date exactly for four-digit years. |
| DateTexts.IsoRoundTrip | app/src/components/board/BulkActionBar.tsx:143-150 | Reading toISOString's text gives the instant back. |
| ShiftDateTime.SetDateMoves | app/src/components/board/BulkActionBar.tsx:117 | Setting the day of the month past its ends moves the instant by whole days. |
| ShiftDateTime.RealDatesPass | app/src/components/board/BulkActionBar.tsx:110-116 | The Date object read back equals the numbers given exactly for real dates of year 100 on. |
| ShiftDateTime.WholeDaysOnly | app/src/components/board/BulkActionBar.tsx:104 | A day count that is not whole is refused whatever the value; a whole one shifts by that many days. |
| ShiftDateTime.LocalShift | app/src/components/board/BulkActionBar.tsx:106-139 | A date or minute value is refused exactly unless its date and time exist from year 100 on; otherwise its date moves by that many days and its time stays. |
| ShiftDateTime.ShiftWalksTheCalendar | app/src/components/board/BulkActionBar.tsx:103-168 | The shifted date is the one reached by walking the calendar, forwards and backwards. |
| ShiftDateTime.ShiftsAddUpIff | app/src/components/board/BulkActionBar.tsx:103-139 | Shifting by a then b equals shifting by a+b exactly when the year in between has four digits. |
| ShiftDateTime.ShiftBackRestoresIff | app/src/components/board/BulkActionBar.tsx:103-139 | n then -n restores the value exactly when both years have four digits. |
| ShiftDateTime.ZonedShift | app/src/components/board/BulkActionBar.tsx:143-150 | A zoned value moves by exactly n days as an instant; out of the range of time values the call throws. |
| ShiftDateTime.ZonedShiftsAddUpIff | app/src/components/board/BulkActionBar.tsx:143-150 | Zoned shifts add up exactly when the year in between is 0 to 9999. |
| ShiftDateTime.SecondsAreDroppedIff | app/src/components/board/BulkActionBar.tsx:151-167 | A local value with seconds shifts as its first sixteen characters do exactly unless its minutes run past 59 on a real date without reaching the next day. |
| ShiftDateTime.HasZoneIff | app/src/components/board/BulkActionBar.tsx:145 | A value has a zone exactly when it ends with Z or a signed offset with or without colon. |
| ShiftDateTime.ZoneMakesZoned | app/src/components/board/BulkActionBar.tsx:142-145 | Whatever follows the T, a value that ends with such a zone is treated as an instant. |
| ShiftDateTime.TrimEndIs | app/src/components/board/BulkActionBar.tsx:145 | Trimming takes exactly the trailing white space. |
| ShiftDateTime.LocalForms | app/src/components/board/BulkActionBar.tsx:106-152 | Dates, minutes, seconds and one to three decimals are read in their forms, for every field. |
| Rollup.KstDay | worker/src/platform-metrics/rollup.ts:47-56 | The day text reads back as the calendar day in Seoul. |
| Rollup.SeoulDayStartsAtFifteen | worker/src/platform-metrics/rollup.ts:47-56 | A day in Seoul runs from 15:00 UTC of the day before. |
| Rollup.CursorIsMidnight | worker/src/platform-metrics/rollup.ts:63-64 | The cursor is that day's midnight. |
| Rollup.RollupDaysLeadToToday | worker/src/platform-metrics/rollup.ts:59-70 | A count is accepted exactly if whole and 1 to 31; the list is then the n days before today, newest first, each walking to today. |
| Rollup.RollupDaysDistinct | worker/src/platform-metrics/rollup.ts:59-70 | No day is listed twice. |
| Rollup.RunDays | worker/src/platform-metrics/rollup.ts:95-109 | The loop computes the failed days and the row total. |
| Rollup.RunRollup | worker/src/platform-metrics/rollup.ts:87-111 | A run reports a bad count, why it is unavailable, or rows and failed days. |
| Rollup.FirstMissingIsNamed | worker/src/platform-metrics/rollup.ts:72-81 | A run goes ahead exactly when it has everything; otherwise it names the first thing missing. |
| Rollup.GoodReceipts | worker/src/platform-metrics/rollup.ts:100-102 | The good receipts are exactly those of the day asked for with a count from 0 to the largest safe integer. |
| Rollup.FailedDaysAreTheBadOnes | worker/src/platform-metrics/rollup.ts:98-108 | The failed days are exactly the days whose call threw or returned a bad receipt. |
| Rollup.FailedDaysInOrder | worker/src/platform-metrics/rollup.ts:98-108 | They come in the order of the list, none twice. |
| Rollup.RowsSumTheOthers | worker/src/platform-metrics/rollup.ts:98-108 | The row total is the sum over the days that did not fail. |
| Rollup.TriesIff | worker/src/platform-metrics/rollup.ts:59-70 | A run tries a calendar day exactly when it lies 1 to n days back, so never the day in progress. |
| Rollup.EveryDayIsTriedNTimes | worker/src/platform-metrics/rollup.ts:59-70 | Running once a day, every past day is tried by exactly n runs, those of the n days after it. |

## Left out

- Rendering, focus, timers, drag events and notices: user interface only; the model keeps the state they change.
- Unmounting a component, which discards its refs: each run is one mounted instance.
- Server actions, RPCs, the queue, providers and the executor: their answers are parameters, any that the types allow.
- Randomness and clocks: fresh ids are parameters required to be unused, times are parameters.
- Time zones with daylight saving: a zone is a fixed offset from UTC.
- Unreadable dates in notification payloads: `createdAt` and `now` are instants already parsed, and a batch keeps its time as an instant that is compared by its text; times past the last time value, for which toISOString throws, are not refused.
- A crash between a successful send and the status write: the model writes the status in the same step.
- The text keys of a cell's note, of a move intent and of a note's content are modelled as pairs; their joining characters cannot occur in ids, or they are JSON.
- `cellSaveMessage`, which picks the note's text: the note is a parameter of a save.
- The optimistic cell patch shown before a save is answered.
- A filter is any predicate that ignores a row's place; sorting views switch dragging off in the source.
- Overlapping autosaves: the input is disabled while one is pending.
- The founding-date cell's own reading of partial dates: the value shown is a parameter.
- Reading of date texts other than toISOString's own form is the engine's: a parameter of the shift, required only where a law needs it.
- Not-a-number and infinite day counts or row counts, and rounding of row totals above 2^53.
- Rollup.KstDay: needs a Seoul year of 1000 to 9999, as do the members built on it; other years print a day text that only the engine's own parser could read.
- Row versions are instants or unreadable; their text is not modelled.
- Text lengths count characters where the source counts UTF-16 units.
- The row versions and keys that archive and link requests also carry: only their rows are modelled.
- The move, status, field and date bulk dialogs, which keep no state over retries: they would only add easy members.
- The dialogs close themselves after a full success; the model leaves the dialog open.
- NewLeadLoanCell.tsx, the accounting, OCR and analytics panels and the routing proxy: thin callers of code outside these files.
- SummarySettings.SummaryEditor.Submit: that the request sent is the very change asked for is stated only for changes the popover offers, because for others the keys can collide.
- NotifyWorker.DeferredAtMostTwice: needs a clock at or after 1970, because a missing quiet end counts as time zero.
