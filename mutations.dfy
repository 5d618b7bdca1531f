/** The pure board transforms: the drag move of the selected shape, the
    restyle of the selected shape and the shape a finished paint gesture
    commits. Each builds a new board, as the source's map and spread do. */
module Mutations {
  import opened Shapes

  /** Every point moved by the same offset. */
  function Shift(points: seq<Pos>, d: Pos): seq<Pos>
  {
    seq(|points|, i requires 0 <= i < |points| => Add(points[i], d))
  }

  /** A shape moved so that its start lands on `to`. The end keeps its offset
      from the start; a free-hand stroke that has points moves them with it. */
  function MoveShape(s: Shape, to: Pos): (r: Shape)
    ensures r.start == to
    ensures Sub(r.end, r.start) == Sub(s.end, s.start)
    ensures r.id == s.id && r.kind == s.kind
    ensures r.stroke == s.stroke && r.fill == s.fill && r.lineWidth == s.lineWidth
    ensures s.kind == Free && s.points.Some? ==>
      && r.points.Some?
      && |r.points.value| == |s.points.value|
      && forall i :: 0 <= i < |s.points.value| ==>
           r.points.value[i] == Add(s.points.value[i], Sub(to, s.start))
    ensures !(s.kind == Free && s.points.Some?) ==> r.points == s.points
  {
    var end := Pos(to.x + (s.end.x - s.start.x), to.y + (s.end.y - s.start.y));
    if s.kind == Free && s.points.Some? then
      var offset := Pos(to.x - s.start.x, to.y - s.start.y);
      s.(start := to, end := end, points := Some(Shift(s.points.value, offset)))
    else
      s.(start := to, end := end)
  }

  /** Two moves in a row land where the second one alone would: a live drag
      that calls the move on every pointer sample ends where the last sample
      puts it. */
  lemma MoveComposes(s: Shape, a: Pos, b: Pos)
    ensures MoveShape(MoveShape(s, a), b) == MoveShape(s, b)
  {
    var m := MoveShape(s, a);
    if s.kind == Free && s.points.Some? {
      var lhs := MoveShape(m, b).points.value;
      var rhs := MoveShape(s, b).points.value;
      assert |lhs| == |rhs|;
      forall i | 0 <= i < |lhs|
        ensures lhs[i] == rhs[i]
      {
        assert m.points.value[i] == Add(s.points.value[i], Sub(a, s.start));
      }
      assert lhs == rhs;
    }
  }

  /** Dragging a shape back to where it started gives the original shape. */
  lemma MoveBackRestores(s: Shape, to: Pos)
    ensures MoveShape(MoveShape(s, to), s.start) == s
  {
    MoveComposes(s, to, s.start);
    if s.kind == Free && s.points.Some? {
      var ps := MoveShape(s, s.start).points.value;
      assert |ps| == |s.points.value|;
      forall i | 0 <= i < |ps|
        ensures ps[i] == s.points.value[i]
      {
      }
      assert ps == s.points.value;
    }
  }

  /** The drag branch of the pointer-move handler: the shape whose id is the
      selected one moves so that its start is the pointer minus the drag
      offset; with no recorded offset nothing moves. */
  function DragMove(b: Board, selected: int, offset: Option<Pos>, p: Pos): (r: Board)
    ensures |r| == |b|
    ensures forall i :: 0 <= i < |b| && (b[i].id != selected || offset.None?) ==> r[i] == b[i]
    ensures forall i :: 0 <= i < |b| && b[i].id == selected && offset.Some? ==>
              r[i] == MoveShape(b[i], Sub(p, offset.value))
  {
    seq(|b|, i requires 0 <= i < |b| =>
      if b[i].id != selected || offset.None? then b[i] else MoveShape(b[i], Sub(p, offset.value)))
  }

  /** A drag keeps the board's length, order and ids. */
  lemma {:induction false} DragKeepsIds(b: Board, selected: int, offset: Option<Pos>, p: Pos)
    ensures Ids(DragMove(b, selected, offset, p)) == Ids(b)
    decreases |b|
  {
    if b != [] {
      assert DragMove(b, selected, offset, p)[1..] == DragMove(b[1..], selected, offset, p);
      DragKeepsIds(b[1..], selected, offset, p);
    }
  }

  /** One edit of the palette: the stroke colour, the fill colour or the line
      width. */
  datatype StyleEdit = SetStroke(color: string) | SetFill(color: string) | SetLineWidth(width: real)

  /** A shape with one style field replaced. */
  function ApplyStyle(s: Shape, e: StyleEdit): (r: Shape)
    ensures r.id == s.id && r.kind == s.kind && r.start == s.start && r.end == s.end
    ensures r.points == s.points
    ensures r.stroke == (if e.SetStroke? then e.color else s.stroke)
    ensures r.fill == (if e.SetFill? then e.color else s.fill)
    ensures r.lineWidth == (if e.SetLineWidth? then e.width else s.lineWidth)
  {
    match e
    case SetStroke(c) => s.(stroke := c)
    case SetFill(c) => s.(fill := c)
    case SetLineWidth(w) => s.(lineWidth := w)
  }

  /** The restyle handler's map: every shape carrying the selected id gets the
      edit, every other shape is kept as it is. */
  function RestyleBoard(b: Board, selected: int, e: StyleEdit): (r: Board)
    ensures |r| == |b|
    ensures forall i :: 0 <= i < |b| && b[i].id != selected ==> r[i] == b[i]
    ensures forall i :: 0 <= i < |b| && b[i].id == selected ==> r[i] == ApplyStyle(b[i], e)
  {
    seq(|b|, i requires 0 <= i < |b| => if b[i].id == selected then ApplyStyle(b[i], e) else b[i])
  }

  /** Restyling twice with the same edit is restyling once. */
  lemma RestyleIdempotent(b: Board, selected: int, e: StyleEdit)
    ensures RestyleBoard(RestyleBoard(b, selected, e), selected, e) == RestyleBoard(b, selected, e)
  {
  }

  /** An edit that sets the value every selected shape already has leaves the
      board as it was, so the snapshot that follows is a duplicate. */
  lemma RestyleToCurrentValueIsIdentity(b: Board, selected: int, e: StyleEdit)
    requires forall i :: 0 <= i < |b| && b[i].id == selected ==> ApplyStyle(b[i], e) == b[i]
    ensures RestyleBoard(b, selected, e) == b
  {
  }

  /** A restyle keeps the board's length, order and ids. */
  lemma {:induction false} RestyleKeepsIds(b: Board, selected: int, e: StyleEdit)
    ensures Ids(RestyleBoard(b, selected, e)) == Ids(b)
    decreases |b|
  {
    if b != [] {
      assert RestyleBoard(b, selected, e)[1..] == RestyleBoard(b[1..], selected, e);
      RestyleKeepsIds(b[1..], selected, e);
    }
  }

  /** The current drawing style of the palette. */
  datatype Style = Style(stroke: string, fill: string, lineWidth: real)

  /** The shape a finished paint gesture commits: the armed tool, from the
      anchor of the gesture to the release point, in the current style. A
      free-hand gesture whose path was started carries a copy of the
      accumulated points; every other shape carries none. */
  function CommittedShape(id: int, mode: Mode, freeStarted: bool, anchor: Pos, p: Pos,
                          style: Style, acc: seq<Pos>): (s: Shape)
    ensures s.id == id && s.kind == mode && s.start == anchor && s.end == p
    ensures s.stroke == style.stroke && s.fill == style.fill && s.lineWidth == style.lineWidth
    ensures s.points.Some? <==> mode == Free && freeStarted
    ensures s.points.Some? ==> s.points.value == acc
  {
    if mode == Free && freeStarted then
      Shape(id, Free, anchor, p, style.stroke, style.fill, style.lineWidth, Some(acc))
    else
      Shape(id, mode, anchor, p, style.stroke, style.fill, style.lineWidth, None)
  }
}
