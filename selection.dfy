/** Hit testing and the two selection scans of the board. The geometry of a
    shape and the canvas queries isPointInPath / isPointInStroke are not
    modelled: a Surface carries them as two uninterpreted predicates. */
module Selection {
  import opened Shapes

  /** The 2D context as far as selection needs it: "is the point inside the
      filled path of this shape" and "is the point on its stroke". */
  datatype Surface = Surface(inPath: (Shape, Pos) -> bool, inStroke: (Shape, Pos) -> bool)

  /** A free-hand stroke is hit only on its stroke; every other shape is hit on
      its fill or on its outline. */
  predicate Hit(c: Surface, s: Shape, p: Pos)
  {
    if s.kind == Free then c.inStroke(s, p) else c.inPath(s, p) || c.inStroke(s, p)
  }

  /** The lowest index at or after `from` whose shape is hit. */
  function FirstHitFrom(c: Surface, b: Board, p: Pos, from: nat): (r: Option<nat>)
    requires from <= |b|
    ensures r.Some? ==> from <= r.value < |b| && Hit(c, b[r.value], p)
    ensures r.Some? ==> forall j :: from <= j < r.value ==> !Hit(c, b[j], p)
    ensures r.None? ==> forall j :: from <= j < |b| ==> !Hit(c, b[j], p)
    decreases |b| - from
  {
    if from == |b| then None
    else if Hit(c, b[from], p) then Some(from)
    else FirstHitFrom(c, b, p, from + 1)
  }

  /** The highest index below `below` whose shape is hit. */
  function LastHitBelow(c: Surface, b: Board, p: Pos, below: nat): (r: Option<nat>)
    requires below <= |b|
    ensures r.Some? ==> r.value < below && Hit(c, b[r.value], p)
    ensures r.Some? ==> forall j :: r.value < j < below ==> !Hit(c, b[j], p)
    ensures r.None? ==> forall j :: 0 <= j < below ==> !Hit(c, b[j], p)
  {
    if below == 0 then None
    else if Hit(c, b[below - 1], p) then Some(below - 1)
    else LastHitBelow(c, b, p, below - 1)
  }

  /** The id at an optional index. */
  function IdAt(b: Board, i: Option<nat>): Option<int>
    requires i.Some? ==> i.value < |b|
  {
    if i.Some? then Some(b[i.value].id) else None
  }

  /** The id pointer-down selects: that of the lowest-index hit. */
  function PointerDownTarget(c: Surface, b: Board, p: Pos): Option<int>
  {
    IdAt(b, FirstHitFrom(c, b, p, 0))
  }

  /** The id click and hover select: that of the highest-index hit. */
  function TopmostTarget(c: Surface, b: Board, p: Pos): Option<int>
  {
    IdAt(b, LastHitBelow(c, b, p, |b|))
  }

  /** The pointer-down scan: walks from the last shape down to the first and
      overwrites the candidate on every hit, so the earliest-inserted shape
      under the pointer is the one reported. */
  method ScanPointerDown(c: Surface, b: Board, p: Pos) returns (clicked: Option<int>)
    ensures clicked == PointerDownTarget(c, b, p)
  {
    clicked := None;
    var i := |b|;
    while i > 0
      invariant 0 <= i <= |b|
      invariant clicked == IdAt(b, FirstHitFrom(c, b, p, i))
    {
      i := i - 1;
      if Hit(c, b[i], p) {
        clicked := Some(b[i].id);
      }
    }
  }

  /** The click and hover scan: walks from the last shape down and stops at
      the first hit, so the latest-inserted shape under the pointer is the one
      reported, or none when nothing is hit. */
  method ScanTopmost(c: Surface, b: Board, p: Pos) returns (found: Option<int>)
    ensures found == TopmostTarget(c, b, p)
  {
    var i := |b|;
    while i > 0
      invariant 0 <= i <= |b|
      invariant LastHitBelow(c, b, p, |b|) == LastHitBelow(c, b, p, i)
    {
      if Hit(c, b[i - 1], p) {
        return Some(b[i - 1].id);
      }
      i := i - 1;
    }
    return None;
  }

  /** The two scans disagree whenever two shapes overlap under the pointer:
      pointer-down picks an index at or below the lower of the two, click and
      hover pick one at or above the higher. */
  lemma PrecedenceDisagrees(c: Surface, b: Board, p: Pos, j: nat, k: nat)
    requires j < k < |b|
    requires Hit(c, b[j], p) && Hit(c, b[k], p)
    ensures FirstHitFrom(c, b, p, 0).Some? && FirstHitFrom(c, b, p, 0).value <= j
    ensures LastHitBelow(c, b, p, |b|).Some? && k <= LastHitBelow(c, b, p, |b|).value
    ensures FirstHitFrom(c, b, p, 0) != LastHitBelow(c, b, p, |b|)
  {
  }

  /** With distinct ids, the two scans report different shapes for the same
      overlapping point: the earliest on pointer-down, the latest on click. */
  lemma OverlapSelectsDifferentShapes(c: Surface, b: Board, p: Pos, j: nat, k: nat)
    requires UniqueIds(b)
    requires j < k < |b|
    requires Hit(c, b[j], p) && Hit(c, b[k], p)
    ensures PointerDownTarget(c, b, p) != TopmostTarget(c, b, p)
  {
  }
}
