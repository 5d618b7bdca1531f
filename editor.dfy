/** The drawing board component as a state machine: the live board, the
    selection, the pointer-gesture flags and the undo log, updated in place by
    the event handlers. Rendering is not modelled; a handler that only draws
    (the live preview) changes nothing here. */
module Editor {
  import opened Shapes
  import History
  import opened Selection
  import opened Mutations
  import Persistence

  class DrawBoard {
    // The undo log (`historyRef.current`) and its cursor (`historyIndexRef.current`).
    var history: seq<Board>
    var index: int
    // The live board and the selected and hovered shape ids.
    var shapes: Board
    var selected: Option<int>
    var hover: Option<int>
    // The armed tool and the palette's current style.
    var mode: Mode
    var strokeColor: string
    var fillColor: string
    var lineWidth: real
    // Gesture state: painting / dragging flags, the drag offset, the anchor of
    // a paint gesture, whether a free-hand path was started, and its points.
    var isPainting: bool
    var isDragging: bool
    var dragOffset: Option<Pos>
    var startPos: Option<Pos>
    var freePathStarted: bool
    var freePoints: seq<Pos>

    ghost function HistoryLog(): History.Log
      reads this`history, this`index
    {
      History.Log(history, index)
    }

    /** The undo log is well formed: cursor within [-1, |history|) and no
        empty snapshot stored. */
    ghost predicate LogValid()
      reads this`history, this`index
    {
      History.WellFormed(HistoryLog())
    }

    /** The drawn board agrees with the log. Outside a drag it is the snapshot
        under the cursor (empty at -1). During a drag it is that snapshot with
        the selected shape moved, so it carries the same ids in the same
        order; the drag's end records it. */
    ghost predicate ShowsLive()
      reads this`history, this`index, this`shapes, this`isDragging
      requires LogValid()
    {
      if isDragging then Ids(shapes) == Ids(History.Live(HistoryLog()))
      else shapes == History.Live(HistoryLog())
    }

    /** The invariant every handler keeps. */
    ghost predicate Valid()
      reads this`history, this`index, this`shapes, this`isDragging
    {
      LogValid() && ShowsLive()
    }

    /** A fresh board: nothing drawn, nothing selected, selection mode, black
        stroke, white fill, line width 2, empty log with cursor -1. */
    constructor ()
      ensures Valid()
      ensures history == [] && index == -1 && shapes == []
      ensures selected == None && hover == None && mode == NoTool
      ensures strokeColor == "#000000" && fillColor == "#ffffff" && lineWidth == 2.0
      ensures !isPainting && !isDragging && dragOffset == None && startPos == None
      ensures !freePathStarted && freePoints == []
    {
      history, index, shapes := [], -1, [];
      selected, hover, mode := None, None, NoTool;
      strokeColor, fillColor, lineWidth := "#000000", "#ffffff", 2.0;
      isPainting, isDragging, dragOffset, startPos := false, false, None, None;
      freePathStarted, freePoints := false, [];
    }

    /** snapshotHistory: record `next` in the undo log. */
    method Snapshot(next: Board)
      requires LogValid()
      modifies this`history, this`index
      ensures LogValid()
      ensures HistoryLog() == History.Record(old(HistoryLog()), next)
    {
      ghost var before := HistoryLog();
      History.RecordPreservesWellFormed(before, next);
      if 0 <= index < |history| && SameBoard(history[index], next) {
        assert History.IsDuplicate(before, next);
        return;
      }
      assert !History.IsDuplicate(before, next);
      if index < |history| - 1 {
        history := history[..index + 1];
      }
      assert history == before.entries[..before.cursor + 1];
      if |next| > 0 {
        history := history + [next];
      }
      index := |history| - 1;
    }

    /** undo: step back (not below -1), show that snapshot or the empty board,
        and drop the selection. */
    method Undo()
      requires Valid()
      modifies this`index, this`shapes, this`selected
      ensures Valid()
      ensures HistoryLog() == History.Undo(old(HistoryLog()))
      ensures shapes == History.Live(HistoryLog())
      ensures selected == None
    {
      if index > -1 {
        index := index - 1;
      }
      if index < 0 {
        shapes := [];
      } else {
        shapes := history[index];
      }
      selected := None;
    }

    /** redo: at the last entry nothing happens, not even the selection is
        dropped; otherwise step forward, show that snapshot and drop the
        selection. */
    method Redo()
      requires Valid()
      modifies this`index, this`shapes, this`selected
      ensures Valid()
      ensures HistoryLog() == History.Redo(old(HistoryLog()))
      ensures old(index) >= |history| - 1 ==> shapes == old(shapes) && selected == old(selected)
      ensures old(index) < |history| - 1 ==> shapes == History.Live(HistoryLog()) && selected == None
    {
      if index >= |history| - 1 {
        return;
      }
      index := index + 1;
      shapes := history[index];
      selected := None;
    }

    /** clearCanvas: empty board, no selection, and the undo log reset to empty
        with cursor -1 (the snapshot of [] taken first is overwritten). */
    method ClearCanvas()
      requires Valid()
      modifies this`shapes, this`history, this`index, this`selected
      ensures Valid()
      ensures shapes == [] && history == [] && index == -1 && selected == None
    {
      shapes := [];
      Snapshot([]);
      selected := None;
      history := [];
      index := -1;
    }

    /** The toolbar buttons: arm a drawing tool, or selection mode. */
    method ChooseTool(m: Mode)
      modifies this`mode
      ensures mode == m
    {
      mode := m;
    }

    /** startPaint (pointer-down). Without a surface nothing happens. If a shape
        is hit, the lowest-index hit is selected, dragging starts and the drag
        offset is the pointer minus the start of the first shape carrying that
        id. Otherwise the selection is dropped and, when a tool is armed,
        painting starts at the pointer (a free-hand path is started for the
        free tool). */
    method StartPaint(p: Pos, surface: Option<Surface>)
      requires Valid()
      modifies this`selected, this`isDragging, this`dragOffset, this`isPainting, this`startPos,
               this`freePathStarted
      ensures Valid()
      ensures surface.None? ==> unchanged(this)
      ensures surface.Some? && Truthy(PointerDownTarget(surface.value, shapes, p)) ==>
        && selected == PointerDownTarget(surface.value, shapes, p)
        && isDragging
        && FindById(shapes, selected.value, 0).Some?
        && dragOffset == Some(Sub(p, shapes[FindById(shapes, selected.value, 0).value].start))
        && isPainting == old(isPainting) && startPos == old(startPos)
        && freePathStarted == old(freePathStarted)
      ensures surface.Some? && Truthy(PointerDownTarget(surface.value, shapes, p)) && UniqueIds(shapes) ==>
        dragOffset == Some(Sub(p, shapes[FirstHitFrom(surface.value, shapes, p, 0).value].start))
      ensures surface.Some? && !Truthy(PointerDownTarget(surface.value, shapes, p)) ==>
        && selected == None
        && isDragging == old(isDragging) && dragOffset == old(dragOffset)
        && (mode == NoTool ==>
              isPainting == old(isPainting) && startPos == old(startPos) && freePathStarted == old(freePathStarted))
        && (mode != NoTool ==>
              isPainting && startPos == Some(p) && freePathStarted == (old(freePathStarted) || mode == Free))
    {
      if surface.None? {
        return;
      }
      var clicked := ScanPointerDown(surface.value, shapes, p);
      if Truthy(clicked) {
        selected := clicked;
        var k := FindById(shapes, clicked.value, 0);
        if k.Some? {
          isDragging := true;
          dragOffset := Some(Sub(p, shapes[k.value].start));
        }
        return;
      }
      selected := None;
      if mode == NoTool {
        return;
      }
      isPainting := true;
      startPos := Some(p);
      if mode == Free {
        freePathStarted := true;
      }
    }

    /** paint (pointer-move). Without a surface nothing happens. While dragging
        a selected shape, the board becomes the drag move of that shape.
        Otherwise, while painting with the free-hand tool, the pointer is
        appended to the stroke's points; any other paint only draws a preview. */
    method Paint(p: Pos, surface: Option<Surface>)
      requires Valid()
      modifies this`shapes, this`freePoints
      ensures Valid()
      ensures surface.None? ==> shapes == old(shapes) && freePoints == old(freePoints)
      ensures surface.Some? && isDragging && Truthy(selected) ==>
        shapes == DragMove(old(shapes), selected.value, dragOffset, p) && freePoints == old(freePoints)
      ensures surface.Some? && !(isDragging && Truthy(selected)) ==>
        && shapes == old(shapes)
        && freePoints == (if isPainting && startPos.Some? && mode == Free && freePathStarted
                          then old(freePoints) + [p] else old(freePoints))
    {
      if surface.None? {
        return;
      }
      if isDragging && Truthy(selected) {
        DragKeepsIds(shapes, selected.value, dragOffset, p);
        shapes := DragMove(shapes, selected.value, dragOffset, p);
        return;
      }
      if !isPainting || startPos.None? || mode == NoTool {
        return;
      }
      if mode == Free && freePathStarted {
        freePoints := freePoints + [p];
      }
    }

    /** exitPaint (pointer-up), with `id` the clock value the source reads.
        Ending a drag snapshots the board. Ending a paint gesture with a tool
        armed commits the gesture (CommitGesture). In any other state nothing
        happens. */
    method ExitPaint(p: Pos, id: int)
      requires Valid()
      modifies this`isDragging, this`isPainting, this`shapes, this`history, this`index,
               this`freePathStarted, this`freePoints, this`startPos, this`mode
      ensures Valid()
      ensures old(isDragging) ==>
        && !isDragging && shapes == old(shapes)
        && HistoryLog() == History.Record(old(HistoryLog()), old(shapes))
        && isPainting == old(isPainting) && mode == old(mode) && startPos == old(startPos)
        && freePathStarted == old(freePathStarted) && freePoints == old(freePoints)
      ensures !old(isDragging) && !(old(isPainting) && old(startPos).Some? && old(mode) != NoTool) ==>
        unchanged(this)
      ensures !old(isDragging) && old(isPainting) && old(startPos).Some? && old(mode) != NoTool ==>
        && !isDragging
        && shapes == old(shapes) + [CommittedShape(id, old(mode), old(freePathStarted), old(startPos).value, p,
                                                   old(Style(strokeColor, fillColor, lineWidth)), old(freePoints))]
        && HistoryLog() == History.Record(old(HistoryLog()), shapes)
        && mode == NoTool && !isPainting && startPos == None
        && (old(mode) == Free && old(freePathStarted) ==> !freePathStarted && freePoints == [])
        && (!(old(mode) == Free && old(freePathStarted)) ==>
              freePathStarted == old(freePathStarted) && freePoints == old(freePoints))
    {
      if isDragging {
        ghost var log, board := HistoryLog(), shapes;
        History.RecordKeepsBoardWithLiveIds(log, board);
        isDragging := false;
        Snapshot(shapes);
        assert HistoryLog() == History.Record(log, board) && shapes == board;
        return;
      }
      if !isPainting || startPos.None? || mode == NoTool {
        return;
      }
      CommitGesture(p, id);
    }

    /** The paint branch of exitPaint: append the shape of the gesture in the
        current style, snapshot the new board, disarm the tool and forget the
        anchor; a free-hand stroke also drops its path and resets its points. */
    method CommitGesture(p: Pos, id: int)
      requires Valid()
      requires !isDragging && isPainting && startPos.Some? && mode != NoTool
      modifies this`isPainting, this`shapes, this`history, this`index,
               this`freePathStarted, this`freePoints, this`startPos, this`mode
      ensures Valid()
      ensures mode == NoTool && !isPainting && startPos == None
      ensures old(mode) == Free && old(freePathStarted) ==> !freePathStarted && freePoints == []
      ensures !(old(mode) == Free && old(freePathStarted)) ==>
                freePathStarted == old(freePathStarted) && freePoints == old(freePoints)
      ensures HistoryLog() == History.Record(old(HistoryLog()), shapes)
      ensures shapes == old(shapes) + [CommittedShape(id, old(mode), old(freePathStarted), old(startPos).value, p,
                                                      old(Style(strokeColor, fillColor, lineWidth)), old(freePoints))]
    {
      ghost var log, board := HistoryLog(), shapes;
      var shape := CommittedShape(id, mode, freePathStarted, startPos.value, p,
                                  Style(strokeColor, fillColor, lineWidth), freePoints);
      EndGesture();
      assert HistoryLog() == log && shapes == board && !isDragging;
      AppendShape(shape);
    }

    /** The gesture state a commit leaves behind: painting over, no tool
        armed, no anchor; a started free-hand path is dropped and its points
        reset. */
    method EndGesture()
      modifies this`isPainting, this`mode, this`startPos, this`freePathStarted, this`freePoints
      ensures mode == NoTool && !isPainting && startPos == None
      ensures old(mode) == Free && old(freePathStarted) ==> !freePathStarted && freePoints == []
      ensures !(old(mode) == Free && old(freePathStarted)) ==>
                freePathStarted == old(freePathStarted) && freePoints == old(freePoints)
    {
      if mode == Free && freePathStarted {
        freePathStarted, freePoints := false, [];
      }
      isPainting, mode, startPos := false, NoTool, None;
    }

    /** Append one shape on top of the board and snapshot the new board. Outside
        a drag the board is the live snapshot, so the longer board is never a
        duplicate and becomes the live snapshot. */
    method AppendShape(s: Shape)
      requires Valid() && !isDragging
      modifies this`shapes, this`history, this`index
      ensures Valid()
      ensures shapes == old(shapes) + [s]
      ensures HistoryLog() == History.Record(old(HistoryLog()), shapes)
      ensures History.Live(HistoryLog()) == shapes
    {
      History.RecordAppendShowsBoard(HistoryLog(), s);
      shapes := shapes + [s];
      Snapshot(shapes);
    }

    /** The palette's onChange handlers. With a shape selected, that shape gets
        the edit and the new board is snapshotted; otherwise the edit becomes
        the style of the next shape drawn. */
    method Restyle(e: StyleEdit)
      requires Valid()
      modifies this`shapes, this`history, this`index, this`strokeColor, this`fillColor, this`lineWidth
      ensures Valid()
      ensures Truthy(selected) ==>
        && shapes == RestyleBoard(old(shapes), selected.value, e)
        && HistoryLog() == History.Record(old(HistoryLog()), shapes)
        && strokeColor == old(strokeColor) && fillColor == old(fillColor) && lineWidth == old(lineWidth)
      ensures !Truthy(selected) ==>
        && shapes == old(shapes) && history == old(history) && index == old(index)
        && strokeColor == (if e.SetStroke? then e.color else old(strokeColor))
        && fillColor == (if e.SetFill? then e.color else old(fillColor))
        && lineWidth == (if e.SetLineWidth? then e.width else old(lineWidth))
    {
      if Truthy(selected) {
        RestyleSelection(e);
      } else {
        SetPaletteStyle(e);
      }
    }

    /** The selected branch of the palette handlers: the selected shape gets
        the edit and the new board is recorded. The edit keeps every id in
        place, so the drawn board stays the live snapshot (or, during a drag,
        keeps its ids). */
    method RestyleSelection(e: StyleEdit)
      requires Valid() && Truthy(selected)
      modifies this`shapes, this`history, this`index
      ensures Valid()
      ensures shapes == RestyleBoard(old(shapes), selected.value, e)
      ensures HistoryLog() == History.Record(old(HistoryLog()), shapes)
    {
      ghost var log := HistoryLog();
      var next := RestyleBoard(shapes, selected.value, e);
      RestyleKeepsIds(shapes, selected.value, e);
      History.RecordKeepsBoardWithLiveIds(log, next);
      shapes := next;
      Snapshot(next);
      assert HistoryLog() == History.Record(log, next) && History.Live(HistoryLog()) == next;
    }

    /** The unselected branch of the palette handlers: the edit becomes the
        current style. */
    method SetPaletteStyle(e: StyleEdit)
      modifies this`strokeColor, this`fillColor, this`lineWidth
      ensures strokeColor == (if e.SetStroke? then e.color else old(strokeColor))
      ensures fillColor == (if e.SetFill? then e.color else old(fillColor))
      ensures lineWidth == (if e.SetLineWidth? then e.width else old(lineWidth))
    {
      match e
      case SetStroke(c) => strokeColor := c;
      case SetFill(c) => fillColor := c;
      case SetLineWidth(w) => lineWidth := w;
    }

    /** handleCanvasHover: the hovered id becomes that of the highest-index hit,
        or none; without a surface nothing happens. */
    method HandleCanvasHover(p: Pos, surface: Option<Surface>)
      modifies this`hover
      ensures surface.None? ==> hover == old(hover)
      ensures surface.Some? ==> hover == TopmostTarget(surface.value, shapes, p)
    {
      if surface.None? {
        return;
      }
      hover := ScanTopmost(surface.value, shapes, p);
    }

    /** handleCanvasClick: the selected id becomes that of the highest-index
        hit, or none; without a surface nothing happens. */
    method HandleCanvasClick(p: Pos, surface: Option<Surface>)
      modifies this`selected
      ensures surface.None? ==> selected == old(selected)
      ensures surface.Some? ==> selected == TopmostTarget(surface.value, shapes, p)
    {
      if surface.None? {
        return;
      }
      selected := ScanTopmost(surface.value, shapes, p);
    }

    /** The restore effect on an already-parsed saved state (None: nothing
        saved). The log becomes the normalised history and cursor, and the live
        board the snapshot under the cursor, or empty below 0. */
    method Restore(saved: Option<Persistence.Saved>)
      requires saved.Some? ==>
        var r := Persistence.Normalize(saved.value); -1 <= r.cursor < |r.entries|
      requires Valid()
      modifies this`history, this`index, this`shapes
      ensures Valid()
      ensures saved.None? ==> unchanged(this)
      ensures saved.Some? ==>
        var r := Persistence.Normalize(saved.value);
        history == r.entries && index == r.cursor && r.board == Some(shapes)
    {
      if saved.None? {
        return;
      }
      var raw := if saved.value.history.Some? then saved.value.history.value else [];
      history := Persistence.NonEmpty(raw);
      index := if saved.value.index.Some? then saved.value.index.value else -1;
      if index >= 0 {
        shapes := history[index];
      } else {
        shapes := [];
      }
    }

    /** Mounting: the restore effect, then the initial snapshot of []. After a
        reload the log keeps only the entries up to the saved cursor: whatever
        could have been redone before the reload is gone. */
    method Mount(saved: Option<Persistence.Saved>)
      requires saved.Some? ==>
        var r := Persistence.Normalize(saved.value); -1 <= r.cursor < |r.entries|
      requires Valid()
      modifies this`history, this`index, this`shapes
      ensures Valid()
      ensures saved.None? ==> HistoryLog() == History.Record(old(HistoryLog()), []) && shapes == old(shapes)
      ensures saved.Some? ==>
        var r := Persistence.Normalize(saved.value);
        history == r.entries[..r.cursor + 1] && index == r.cursor && r.board == Some(shapes)
    {
      Restore(saved);
      ghost var restored := HistoryLog();
      History.EmptyRecordTruncates(restored);
      Snapshot([]);
    }
  }

  /** Draw one shape on an empty board, restyle its line width to a new value
      and undo twice: the first undo brings the old width back, the second
      leaves the board empty. */
  lemma RestyleThenUndoTwice(c: Shape, width: real)
    requires c.lineWidth != width
    ensures var drawn := History.Record(History.Log([], -1), [c]);
            var restyled := History.Record(drawn, RestyleBoard([c], c.id, SetLineWidth(width)));
            && History.Live(restyled) == [c.(lineWidth := width)]
            && History.Live(History.Undo(restyled)) == [c]
            && History.Live(History.Undo(History.Undo(restyled))) == []
  {
  }
}
