/** `MapToolDrawRectangle` of `gpq_downloader/map_tool.py`: the user drags
    a rectangle on the map canvas. A left press anchors it, moves stretch the
    rubber band, a left release keeps the rectangle and enables the dialog's
    OK button. Canvas positions arrive already converted to map coordinates;
    `None` stands for a conversion that gave nothing. */
module MapTool {
  import opened Common

  /** The tool's attributes that the handlers read or write. `band` is the
      outline the rubber band shows, empty after a reset; `okEnabled` is the
      state of the dialog's OK button as the tool last set it. */
  datatype Tool = Tool(
    start: Option<Point>,
    end: Option<Point>,
    emitting: bool,
    band: seq<Point>,
    rect: Option<Rect>,
    dialog: bool,
    okEnabled: bool)

  /** The outline drawn between an anchor and the current corner. */
  function Outline(a: Point, b: Point): (r: seq<Point>)
    ensures |r| == 4 && r[0] == a && r[2] == b
  {
    [a, Point(b.x, a.y), b, Point(a.x, b.y)]
  }

  /** The rectangle spanned by two corners, in either order. */
  function Bounds(a: Point, b: Point): (r: Rect)
    ensures Normalized(r)
    ensures r.xMin <= a.x <= r.xMax && r.xMin <= b.x <= r.xMax
    ensures r.yMin <= a.y <= r.yMax && r.yMin <= b.y <= r.yMax
    ensures r.xMin in {a.x, b.x} && r.xMax in {a.x, b.x} && r.yMin in {a.y, b.y} && r.yMax in {a.y, b.y}
  {
    Rect(Min(a.x, b.x), Min(a.y, b.y), Max(a.x, b.x), Max(a.y, b.y))
  }

  /** `reset`: a fresh empty rubber band, both corners forgotten, and the
      OK button disabled. The kept rectangle and `isEmittingPoint` stay. */
  function Reset(t: Tool): (r: Tool)
    ensures r.start.None? && r.end.None? && r.band == []
    ensures r.emitting == t.emitting && r.rect == t.rect && r.dialog == t.dialog
    ensures t.dialog ==> !r.okEnabled
  {
    t.(start := None, end := None, band := [], okEnabled := if t.dialog then false else t.okEnabled)
  }

  /** The tool as `__init__` leaves it. */
  function Initial(dialog: bool): Tool {
    Reset(Tool(None, None, false, [], None, dialog, false))
  }

  /** `canvasPressEvent`: only the left button acts; it resets, then
      anchors both corners at the pressed point. */
  function Press(t: Tool, left: bool, at: Option<Point>): (r: Tool)
    ensures !left ==> r == t
    ensures left && at.Some? ==>
              r.start == r.end == at && r.emitting && r.band == Outline(at.value, at.value)
              && r.rect == t.rect && (t.dialog ==> !r.okEnabled)
    ensures left && at.None? ==> r == Reset(t)
  {
    if !left then t
    else
      var cleared := Reset(t);
      match at
      case None => cleared
      case Some(p) => cleared.(start := Some(p), end := Some(p), emitting := true, band := Outline(p, p))
  }

  /** `canvasMoveEvent`: while drawing from an anchor, the current corner
      follows the pointer and the outline is redrawn. */
  function Move(t: Tool, at: Option<Point>): (r: Tool)
    ensures !t.emitting || t.start.None? || at.None? ==> r == t
    ensures t.emitting && t.start.Some? && at.Some? ==>
              r == t.(end := at, band := Outline(t.start.value, at.value))
  {
    if !t.emitting || t.start.None? || at.None? then t
    else t.(end := at, band := Outline(t.start.value, at.value))
  }

  /** `canvasReleaseEvent`: a left release keeps the rectangle spanned by
      the two corners and enables OK; without corners it stops drawing and
      resets. */
  function Release(t: Tool, left: bool): (r: Tool)
    ensures !left ==> r == t
    ensures left ==> !r.emitting
    ensures left && t.start.Some? && t.end.Some? ==>
              r.rect == Some(Bounds(t.start.value, t.end.value)) && (t.dialog ==> r.okEnabled)
              && r.start == t.start && r.end == t.end && r.band == t.band
    ensures left && (t.start.None? || t.end.None?) ==> r == Reset(t.(emitting := false))
  {
    if !left then t
    else if t.start.None? || t.end.None? then Reset(t.(emitting := false))
    else
      t.(rect := Some(Bounds(t.start.value, t.end.value)),
         okEnabled := if t.dialog then true else t.okEnabled,
         emitting := false)
  }

  /** `deactivate`: stop drawing and reset; the tool then emits
      `drawingCanceled`. */
  function Deactivate(t: Tool): (r: Tool)
    ensures !r.emitting && r.start.None? && r.band == [] && r.rect == t.rect
  {
    Reset(t.(emitting := false))
  }

  datatype Gesture =
    | PressAt(left: bool, at: Option<Point>)
    | MoveTo(at: Option<Point>)
    | ReleaseAt(left: bool)
    | Leave

  function Step(t: Tool, g: Gesture): Tool {
    match g
    case PressAt(left, at) => Press(t, left, at)
    case MoveTo(at) => Move(t, at)
    case ReleaseAt(left) => Release(t, left)
    case Leave => Deactivate(t)
  }

  function Replay(t: Tool, gs: seq<Gesture>): Tool
    decreases |gs|
  {
    if |gs| == 0 then t else Replay(Step(t, gs[0]), gs[1..])
  }

  /** What holds between events: the corners come and go together, the
      outline always joins them, a kept rectangle is normalised, and an
      enabled OK button means the kept rectangle is the one the corners
      span. */
  predicate Coherent(t: Tool) {
    (t.start.Some? <==> t.end.Some?)
    && (t.start.None? ==> t.band == [])
    && (t.start.Some? ==> t.band == Outline(t.start.value, t.end.value))
    && (t.rect.Some? ==> Normalized(t.rect.value))
    && (t.dialog && t.okEnabled ==>
          t.start.Some? && t.rect == Some(Bounds(t.start.value, t.end.value)) && !t.emitting)
  }

  lemma StepKeepsCoherent(t: Tool, g: Gesture)
    requires Coherent(t)
    ensures Coherent(Step(t, g))
  {
  }

  /** Whatever the user does, the tool stays coherent. */
  lemma {:induction false} ReplayKeepsCoherent(t: Tool, gs: seq<Gesture>)
    requires Coherent(t)
    ensures Coherent(Replay(t, gs))
    decreases |gs|
  {
    if |gs| > 0 {
      StepKeepsCoherent(t, gs[0]);
      ReplayKeepsCoherent(Step(t, gs[0]), gs[1..]);
    }
  }

  lemma InitialIsCoherent(dialog: bool)
    ensures Coherent(Initial(dialog)) && !Initial(dialog).okEnabled
  {
  }

  /** A left drag from `p` to `q` keeps the rectangle spanned by `p` and
      `q`, whatever was drawn before, and enables OK. */
  lemma DragKeepsSpannedRectangle(t: Tool, p: Point, q: Point)
    ensures var r := Release(Move(Press(t, true, Some(p)), Some(q)), true);
            r.rect == Some(Bounds(p, q)) && !r.emitting && (t.dialog ==> r.okEnabled)
  {
  }

  /** A release without a press since the last reset keeps no new rectangle
      and leaves OK as it was disabled. */
  lemma ReleaseWithoutAnchorKeepsNothing(t: Tool)
    requires t.start.None?
    ensures Release(t, true).rect == t.rect
    ensures t.dialog ==> !Release(t, true).okEnabled
  {
  }
}
