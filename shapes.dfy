/** Shape records of the drawing board and the field-by-field comparison
    that the history uses to recognise a board that did not change. */
module Shapes {

  datatype Option<T> = None | Some(value: T)

  /** A point in canvas-local coordinates. JavaScript numbers are modelled as
      exact reals: the board only adds and subtracts them. */
  datatype Pos = Pos(x: real, y: real)

  function Add(p: Pos, d: Pos): Pos
  {
    Pos(p.x + d.x, p.y + d.y)
  }

  function Sub(p: Pos, q: Pos): Pos
  {
    Pos(p.x - q.x, p.y - q.y)
  }

  /** The tool mode. `NoTool` is the empty string: selection mode, no drawing
      tool armed. A shape's kind has the same type, as in the source. */
  datatype Mode = NoTool | Free | Rect | Circle | Line | Triangle | Trapezoid | Star

  /** One shape record. `points` is the optional array of a free-hand stroke
      (absent for every other kind); the cached Path2D is not modelled. */
  datatype Shape = Shape(
    id: int,
    kind: Mode,
    start: Pos,
    end: Pos,
    stroke: string,
    fill: string,
    lineWidth: real,
    points: Option<seq<Pos>>)

  /** The board: shapes in insertion order, later ones drawn on top. */
  type Board = seq<Shape>

  /** JavaScript truthiness of a nullable shape id: null and 0 are both false. */
  predicate Truthy(id: Option<int>)
  {
    id.Some? && id.value != 0
  }

  /** Snapshot comparison of two shapes: kind, both anchors coordinate by
      coordinate, colours, line width and the serialised points. The id is
      not compared. */
  predicate SameShape(a: Shape, b: Shape)
  {
    && a.kind == b.kind
    && a.start.x == b.start.x && a.start.y == b.start.y
    && a.end.x == b.end.x && a.end.y == b.end.y
    && a.stroke == b.stroke
    && a.fill == b.fill
    && a.lineWidth == b.lineWidth
    && a.points == b.points
  }

  /** Two boards are the same snapshot when they have the same length and agree
      shape by shape under SameShape. */
  predicate SameBoard(last: Board, next: Board)
  {
    |last| == |next| && forall i :: 0 <= i < |last| ==> SameShape(last[i], next[i])
  }

  /** The board with every id replaced by 0: the part of a board a snapshot
      comparison looks at. */
  function WithoutIds(b: Board): (r: Board)
    ensures |r| == |b|
    ensures forall i :: 0 <= i < |b| ==> r[i] == b[i].(id := 0)
  {
    seq(|b|, i requires 0 <= i < |b| => b[i].(id := 0))
  }

  /** SameBoard is exactly equality of the boards once ids are erased. */
  lemma SameBoardIffEqualWithoutIds(a: Board, b: Board)
    ensures SameBoard(a, b) <==> WithoutIds(a) == WithoutIds(b)
  {
  }

  /** The first index whose shape carries `id` (Array.prototype.find). */
  function FindById(b: Board, id: int, from: nat): (r: Option<nat>)
    requires from <= |b|
    ensures r.Some? ==> from <= r.value < |b| && b[r.value].id == id
    ensures r.Some? ==> forall j :: from <= j < r.value ==> b[j].id != id
    ensures r.None? ==> forall j :: from <= j < |b| ==> b[j].id != id
    decreases |b| - from
  {
    if from == |b| then None
    else if b[from].id == id then Some(from)
    else FindById(b, id, from + 1)
  }

  /** The ids of a board, in order: the one field a snapshot comparison does
      not look at. */
  function Ids(b: Board): (r: seq<int>)
    ensures |r| == |b|
  {
    if b == [] then [] else [b[0].id] + Ids(b[1..])
  }

  /** Two boards that are the same snapshot and carry the same ids in the same
      order are equal. */
  lemma {:induction false} SameBoardWithSameIdsIsEqual(a: Board, b: Board)
    requires SameBoard(a, b) && Ids(a) == Ids(b)
    ensures a == b
    decreases |a|
  {
    if a != [] {
      assert a[0].id == Ids(a)[0] == Ids(b)[0] == b[0].id;
      assert Ids(a[1..]) == Ids(a)[1..] == Ids(b)[1..] == Ids(b[1..]);
      SameBoardWithSameIdsIsEqual(a[1..], b[1..]);
      assert a == [a[0]] + a[1..] && b == [b[0]] + b[1..];
    }
  }

  /** Ids are pairwise distinct (the source derives them from the clock). */
  predicate UniqueIds(b: Board)
  {
    forall i, j :: 0 <= i < j < |b| ==> b[i].id != b[j].id
  }
}
