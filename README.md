# Drawing board: board state and undo log

A Dafny model of the board-state engine of the `DrawBoard` React component
(`src/components/DrawBoard.tsx`). The board is an ordered list of shape records
(free-hand strokes, rectangles, circles, lines, triangles, trapezoids, stars).
The undo log is a linear list of board snapshots with a cursor. The pointer
handlers select, drag, restyle and commit shapes and take snapshots at commit
points.

Modules, one file each:

- `Shapes` (shapes.dfy): points, tool modes, shape records, and the
  field-by-field comparison that de-duplicates snapshots. The comparison
  ignores the id.
- `History` (history.dfy): the undo log as a value (`Log`). It has the
  functions `Record` (snapshotHistory), `Undo` and `Redo`, and lemmas about
  them: de-duplication, loss of the redo branch, idempotence, undo/redo round
  trips, and undoing back to the empty board.
- `Selection` (selection.dfy): hit testing behind an uninterpreted `Surface`
  (isPointInPath / isPointInStroke), and the two scan loops. On pointer-down the
  scan overwrites its candidate on every hit, so the *lowest*-index shape under
  the pointer wins. On click and hover the scan returns at the first hit from
  the end, so the *highest*-index shape wins. Both rules are kept, and
  `PrecedenceDisagrees` states that they disagree whenever two shapes overlap.
  In the source, one click therefore starts a drag of the earliest shape and
  then selects the latest one.
- `Mutations` (mutations.dfy): the drag move, the restyle map and the
  committed shape, as pure board transforms.
- `Persistence` (persistence.dfy): the normalisation the restore effect applies
  to an already-parsed saved state.
- `Editor` (editor.dfy): class `DrawBoard` with the component's state as fields.
  Each handler is a method with a field-level `modifies` frame. Its `ensures`
  ties the new log to `History.Record` / `Undo` / `Redo` and the new board to
  the `Mutations` transforms. Every handler keeps the invariant `Valid()`: the
  log is well formed, and the drawn board is the snapshot under the cursor
  (empty at -1). During a drag the board is that snapshot with the selected
  shape moved, so it carries the same ids in the same order; the end of the
  drag records it.

In these places the code does something one might not expect, and the model
follows the code:

- A snapshot of an empty board is never appended, not even as the first entry.
- `redo` at the last entry does not clear the selection.
- Pointer-down selects the earliest-inserted overlapping shape, not the latest.
- Clearing resets the log to no entries with cursor -1.
- Restoring never clamps the cursor. The pop-and-clamp step is dead code after
  the empty-snapshot filter (`TrailingPopUnreachable`).
- A free-hand stroke released without moving has an empty `points` list.

The mount sequence is modelled too: the restore effect, then the initial
`snapshotHistory([])`. It drops every entry after the saved cursor, so after a
reload nothing can be redone (`Mount`, `History.EmptyRecordTruncates`).

## Model

| member | source | states |
|---|---|---|
| `Shapes.SameBoardIffEqualWithoutIds` | src/components/DrawBoard.tsx:220-237 | two boards are a duplicate snapshot exactly when they are equal once ids are erased: same length, and every shape agrees on kind, start, end, stroke, fill, line width and points |
| `Shapes.SameBoardWithSameIdsIsEqual` | src/components/DrawBoard.tsx:220-237 | two boards that the comparison calls the same and that carry the same ids in the same order are equal |
| `Shapes.FindById` | src/components/DrawBoard.tsx:308 | `find` returns the first index carrying the id, or none when no shape carries it |
| `History.Record` | src/components/DrawBoard.tsx:211-250 | a duplicate of the entry under the cursor leaves the log unchanged, and at cursor -1 nothing is a duplicate; otherwise the entries up to the cursor are kept, one entry follows them exactly when the board is non-empty, the cursor ends on the last entry, and the live board is the new board (or the previous one for an empty board) |
| `History.Undo` | src/components/DrawBoard.tsx:253-267 | the cursor steps back by one and floors at -1; the entries are untouched |
| `History.Redo` | src/components/DrawBoard.tsx:270-285 | at the last entry nothing changes; otherwise the cursor steps forward by one; the entries are untouched |
| `History.RecordPreservesWellFormed` | src/components/DrawBoard.tsx:241-249 | recording keeps -1 <= cursor < number of entries and never stores an empty board |
| `History.RecordDiscardsRedoBranch` | src/components/DrawBoard.tsx:241-249 | after a non-duplicate record, redo is a no-op, and everything after the old cursor is just the new board (or nothing) |
| `History.RecordIdempotent` | src/components/DrawBoard.tsx:220-249 | recording the same board twice gives the same log as recording it once |
| `History.RecordLiveIsNoOp` | src/components/DrawBoard.tsx:427-433 | recording the board the cursor already shows (a drag that moved nothing) leaves the log unchanged |
| `History.RedoAfterUndo` | src/components/DrawBoard.tsx:253-285 | with something to undo, redo after undo restores the log, and the undo shows the previous entry or the empty board |
| `History.UndoAfterRecord` | src/components/DrawBoard.tsx:241-266 | undo right after a committed change shows the board from before it, and redo brings the change back |
| `History.UndoTimes` | src/components/DrawBoard.tsx:253-267 | any number of undos keeps the cursor in range and never touches the entries |
| `History.UndoPastOriginEmpties` | src/components/DrawBoard.tsx:253-266 | undoing more times than the cursor value reaches cursor -1 and the empty board |
| `History.CommitAfterUndoDropsBranch` | src/components/DrawBoard.tsx:241-249 | commit A, commit B, undo, commit C: the log is the log after A plus C, C is shown, and redo is a no-op (B is gone) |
| `History.EmptyRecordTruncates` | src/components/DrawBoard.tsx:673 | the snapshot of [] on a well-formed log keeps the entries up to the cursor, drops the rest, and keeps the live board |
| `History.RecordKeepsBoardWithLiveIds` | src/components/DrawBoard.tsx:220-249 | recording a board that carries the live board's ids in order leaves exactly that board under the cursor, whether the record is skipped as a duplicate, stores it, or only truncates (empty board) |
| `History.RecordAppendShowsBoard` | src/components/DrawBoard.tsx:220-249 | recording the live board with one shape appended is never a duplicate and leaves the longer board under the cursor |
| `Selection.FirstHitFrom` | src/components/DrawBoard.tsx:294-304 | the result is a hit index with no hit before it, or none when nothing is hit |
| `Selection.LastHitBelow` | src/components/DrawBoard.tsx:495-508 | the result is a hit index with no hit after it, or none when nothing is hit |
| `Selection.ScanPointerDown` | src/components/DrawBoard.tsx:294-304 | the backward scan that overwrites on every hit returns the id of the lowest-index hit, or null |
| `Selection.ScanTopmost` | src/components/DrawBoard.tsx:516-529 | the backward scan that returns at the first hit returns the id of the highest-index hit, or null |
| `Selection.PrecedenceDisagrees` | src/components/DrawBoard.tsx:294-304 | when shapes j < k both hit, pointer-down picks an index <= j and click/hover pick one >= k, so the two rules never agree |
| `Selection.OverlapSelectsDifferentShapes` | src/components/DrawBoard.tsx:516-529 | with distinct ids and two overlapping hits, click selects a different shape from the one pointer-down selected |
| `Mutations.MoveShape` | src/components/DrawBoard.tsx:347-389 | the moved shape starts at the target, `end - start` is preserved, id, kind and style are kept, and a free-hand stroke's points all shift by `target - old start` |
| `Mutations.MoveComposes` | src/components/DrawBoard.tsx:344-391 | two successive moves equal the last move alone, so a live drag ends where its last sample puts it |
| `Mutations.MoveBackRestores` | src/components/DrawBoard.tsx:344-391 | moving a shape away and back to its old start gives the original shape |
| `Mutations.DragMove` | src/components/DrawBoard.tsx:345-391 | same length; every shape without the selected id is unchanged (all of them when there is no drag offset); the selected one is moved to `pointer - offset` |
| `Mutations.DragKeepsIds` | src/components/DrawBoard.tsx:345-391 | a drag keeps the ids of the board in the same order |
| `Mutations.RestyleKeepsIds` | src/components/DrawBoard.tsx:793-798 | a restyle keeps the ids of the board in the same order |
| `Mutations.ApplyStyle` | src/components/DrawBoard.tsx:796 | an edit replaces exactly one of stroke, fill and line width and keeps every other field |
| `Mutations.RestyleBoard` | src/components/DrawBoard.tsx:793-801 | same length; shapes without the selected id are unchanged; those with it get the edit |
| `Mutations.RestyleIdempotent` | src/components/DrawBoard.tsx:818-826 | applying the same edit twice is applying it once |
| `Mutations.RestyleToCurrentValueIsIdentity` | src/components/DrawBoard.tsx:845-853 | an edit to the value the selected shape already has returns the same board |
| `Mutations.CommittedShape` | src/components/DrawBoard.tsx:441-476 | the new shape has the given id, the armed tool as kind, the anchor as start, the release point as end, and the current style; it carries the accumulated points exactly when it is a free-hand stroke whose path was started |
| `Persistence.NonEmpty` | src/components/DrawBoard.tsx:550-551 | the filter keeps no empty snapshot, keeps every non-empty one, adds nothing, and is the identity on a history without empties |
| `Persistence.NonEmptySingleton` | src/components/DrawBoard.tsx:550-551 | a single snapshot is kept exactly when it is non-empty |
| `Persistence.NonEmptyAppend` | src/components/DrawBoard.tsx:550-551 | filtering a concatenation is concatenating the filtered pieces; with the single-snapshot case this fixes the result as the non-empty snapshots in their saved order |
| `Persistence.NonEmptyCounts` | src/components/DrawBoard.tsx:550-551 | the filter keeps every non-empty snapshot exactly as many times as it was saved and drops every empty one |
| `Persistence.Normalize` | src/components/DrawBoard.tsx:550-582 | the entries are exactly the filtered saved history (an absent history counts as none), so no empty entry survives; the cursor is the saved index or -1; the board is empty below 0, the entry under an in-range cursor, and undefined past the end |
| `Persistence.TrailingPopUnreachable` | src/components/DrawBoard.tsx:561-570 | after the filter the last snapshot is never empty, so the pop-and-clamp branch never runs |
| `Persistence.SaveRestoreRoundTrip` | src/components/DrawBoard.tsx:587-598 | restoring the history and index saved from a well-formed log gives back the same log and its live board |
| `Persistence.EmptySaveRestoresEmpty` | src/components/DrawBoard.tsx:550-559 | a saved history of empty snapshots and no index restores to an empty log, cursor -1 and an empty board |
| `Editor.DrawBoard.constructor` | src/components/DrawBoard.tsx:58-83 | initial state: empty board and log with cursor -1, nothing selected, selection mode, black stroke, white fill, width 2 |
| `Editor.DrawBoard.Snapshot` | src/components/DrawBoard.tsx:211-250 | the new log is `History.Record` of the old one, and the log stays well formed |
| `Editor.DrawBoard.Undo` | src/components/DrawBoard.tsx:253-267 | the log moves as `History.Undo`, the board becomes the live snapshot (empty at -1), the selection is cleared, and `Valid()` is kept |
| `Editor.DrawBoard.Redo` | src/components/DrawBoard.tsx:270-285 | the log moves as `History.Redo`; at the last entry board and selection are kept; otherwise the board becomes the live snapshot and the selection is cleared; `Valid()` is kept |
| `Editor.DrawBoard.ClearCanvas` | src/components/DrawBoard.tsx:533-540 | board empty, selection cleared, log reset to no entries with cursor -1, `Valid()` kept |
| `Editor.DrawBoard.ChooseTool` | src/components/DrawBoard.tsx:683-760 | the toolbar arms the chosen tool or selection mode |
| `Editor.DrawBoard.StartPaint` | src/components/DrawBoard.tsx:288-334 | no surface: nothing changes; a truthy lowest-index hit is selected, dragging starts and the offset is `pointer - start` of that shape (of the first shape with its id); otherwise the selection is cleared and, with a tool armed, painting starts at the pointer; `Valid()` is kept |
| `Editor.DrawBoard.Paint` | src/components/DrawBoard.tsx:337-420 | no surface: nothing changes; while dragging a selected shape the board becomes `DragMove`; while painting free-hand the pointer is appended to the points; otherwise nothing changes; `Valid()` is kept (a drag keeps the ids) |
| `Editor.DrawBoard.ExitPaint` | src/components/DrawBoard.tsx:422-488 | ending a drag clears the flag and records the board, which then is the live snapshot; ending a paint gesture with a tool armed commits it; in any other state nothing changes; `Valid()` is kept |
| `Editor.DrawBoard.CommitGesture` | src/components/DrawBoard.tsx:437-485 | appends exactly one `CommittedShape` at the end, records the new board (which becomes the live snapshot), disarms the tool, forgets the anchor, and resets a free-hand stroke's points |
| `Editor.DrawBoard.EndGesture` | src/components/DrawBoard.tsx:438-485 | after a commit painting is over, no tool is armed and there is no anchor; a started free-hand path is dropped with its points, and otherwise both are kept |
| `Editor.DrawBoard.AppendShape` | src/components/DrawBoard.tsx:453-457 | the board gains one shape on top, the new board is recorded and is the live snapshot, and `Valid()` is kept |
| `Editor.DrawBoard.Restyle` | src/components/DrawBoard.tsx:791-857 | with a shape selected, the board becomes `RestyleBoard` and is recorded once; otherwise only the palette's current style field changes; `Valid()` is kept |
| `Editor.DrawBoard.RestyleSelection` | src/components/DrawBoard.tsx:792-801 | the selected shape gets the edit, the new board is recorded, and the drawn board stays the live snapshot |
| `Editor.DrawBoard.SetPaletteStyle` | src/components/DrawBoard.tsx:802-804 | with nothing selected, the edit sets the current stroke, fill or line width and leaves the other two |
| `Editor.DrawBoard.HandleCanvasHover` | src/components/DrawBoard.tsx:491-509 | no surface: nothing changes; otherwise the hovered id is the highest-index hit or null |
| `Editor.DrawBoard.HandleCanvasClick` | src/components/DrawBoard.tsx:512-530 | no surface: nothing changes; otherwise the selected id is the highest-index hit or null |
| `Editor.DrawBoard.Restore` | src/components/DrawBoard.tsx:543-584 | nothing saved: nothing changes; otherwise the log is the normalised history and cursor and the board is the normalised live board, so `Valid()` holds |
| `Editor.DrawBoard.Mount` | src/components/DrawBoard.tsx:543-673 | restore then the snapshot of []: only the entries up to the saved cursor survive, the board is the restored live board, and `Valid()` holds |
| `Editor.RestyleThenUndoTwice` | src/components/DrawBoard.tsx:843-857 | draw a shape, change its line width, undo: the old width is back; undo again: the board is empty |

## Left out

- Geometry (`buildPath`) and hit testing: isPointInPath / isPointInStroke are canvas calls. They are the two uninterpreted predicates of `Selection.Surface`; only the "stroke only for free-hand, fill or stroke otherwise" rule is modelled.
- The cached Path2D (`path`): not modelled, so stripping it before a snapshot is the identity.
- Rendering (`drawShape`, `drawAll`, the id -1 preview, cursor styles): canvas side effects only. The preview branch of `Paint` changes no state.
- Floating point: coordinates and line widths are exact reals. `Mutations.MoveShape`'s "`end - start` is preserved" and `Mutations.MoveBackRestores` hold exactly only in real arithmetic, not in IEEE doubles.
- `JSON.stringify` comparison of points is modelled as equality of the point lists; the two differ only for values such as -0 and NaN.
- localStorage, `JSON.parse` and `JSON.stringify` I/O, and the `shapes` mirror in the saved value, which restore never reads. `Persistence` starts from an already-parsed value. A parse failure throws in the source and is not modelled.
- `Editor.DrawBoard.Restore`: requires the restored cursor to lie in [-1, surviving entries). The component only ever saves such a cursor. For a saved index past the last surviving entry the source sets the board to `undefined` (`Persistence.Normalize` gives `board == None` there), and a later click or commit then fails on the undefined board. For an index below -1 it sets the board to []. The class holds a board, never `undefined`, and its invariant ties the board to the log, so neither case is modelled in the class.
- `Editor.DrawBoard.Mount`: the same requirement. On the source's mount path the snapshot of [] that follows the restore (line 673) makes the log well formed again even for such an index. Past the end it moves the cursor to the last entry. Below -1 it first slices with a negative end, which drops entries from the back, and then moves the cursor to the last entry. The drawn board then does not match the log (undefined, or [] with the cursor on an entry). The model does not describe that state.
- `Editor.DrawBoard.Undo`, `Editor.DrawBoard.Redo` and the other handlers require `Valid()`. The constructor establishes it, and every handler and `Mount` keep it. Only a saved state with an out-of-range index, which the component never writes, starts outside it (see `Restore`).
- `Date.now()` ids: passed in as the `id` parameter of `ExitPaint`.
- React scheduling: each handler is one atomic transition, and the functional `setShapes` updaters run at once on the current board.
- Event-listener wiring, keyboard shortcuts and the dropdown outside-click listener: DOM plumbing. `Undo` and `Redo` are the operations the shortcuts call.
- `src/assets/styledComponent.ts` (CSS-in-JS) and `src/components/Dropdown.tsx` (portal positioning): UI only.
