/** Dragging and resizing a task card (`TaskCard2D` in frontend/src/App.js):
    the pointer bookkeeping of the mouse-down handlers and the clamped
    updates the mouse-move handler sends to `updateTask`. */
module Card {
  import opened TaskModel
  import Board

  datatype Point = Point(x: real, y: real)

  /** What `handleResizeStart` records: the pointer and the card's size. */
  datatype ResizeStart = ResizeStart(x: real, y: real, width: real, height: real)

  const MinWidth: real := 350.0
  const MinHeight: real := 200.0

  /** `Math.max`. */
  function Max(a: real, b: real): (r: real)
    ensures r >= a && r >= b
    ensures r == a || r == b
  {
    if a >= b then a else b
  }

  /** `handleMouseDown`: the pointer's offset from the card's corner. */
  function GrabOffset(t: Task, pointer: Point): Point
  {
    Point(pointer.x - t.x, pointer.y - t.y)
  }

  /** `handleResizeStart`. */
  function GrabSize(t: Task, pointer: Point): ResizeStart
  {
    ResizeStart(pointer.x, pointer.y, t.width, t.height)
  }

  /** The drag branch of `handleMouseMove`: the card follows the pointer but
      never leaves the top or left edge. */
  function DragTo(offset: Point, pointer: Point): (u: TaskUpdate)
    ensures u == NoChanges.(x := u.x, y := u.y)
    ensures u.x.Some? && u.y.Some?
    ensures u.x.value >= 0.0 && u.y.value >= 0.0
    ensures pointer.x - offset.x >= 0.0 ==> u.x.value == pointer.x - offset.x
    ensures pointer.y - offset.y >= 0.0 ==> u.y.value == pointer.y - offset.y
  {
    NoChanges.(x := Some(Max(0.0, pointer.x - offset.x)), y := Some(Max(0.0, pointer.y - offset.y)))
  }

  /** The resize branch of `handleMouseMove`: the size follows the pointer
      but never drops below 350 by 200. */
  function ResizeTo(start: ResizeStart, pointer: Point): (u: TaskUpdate)
    ensures u == NoChanges.(width := u.width, height := u.height)
    ensures u.width.Some? && u.height.Some?
    ensures u.width.value >= MinWidth && u.height.value >= MinHeight
    ensures start.width + (pointer.x - start.x) >= MinWidth ==> u.width.value == start.width + (pointer.x - start.x)
    ensures start.height + (pointer.y - start.y) >= MinHeight ==> u.height.value == start.height + (pointer.y - start.y)
  {
    NoChanges.(width := Some(Max(MinWidth, start.width + (pointer.x - start.x))),
               height := Some(Max(MinHeight, start.height + (pointer.y - start.y))))
  }

  /** `handleMouseMove`: dragging wins unless a resize is in progress;
      with neither, no listener is installed and nothing is sent. */
  function OnMouseMove(dragging: bool, resizing: bool, offset: Point, start: ResizeStart, pointer: Point): (r: Option<TaskUpdate>)
    ensures r.Some? <==> dragging || resizing
    ensures dragging && !resizing ==> r == Some(DragTo(offset, pointer))
    ensures resizing ==> r == Some(ResizeTo(start, pointer))
    ensures r.Some? && r.value.x.Some? ==> r.value.x.value >= 0.0
    ensures r.Some? && r.value.y.Some? ==> r.value.y.value >= 0.0
    ensures r.Some? && r.value.width.Some? ==> r.value.width.value >= MinWidth
    ensures r.Some? && r.value.height.Some? ==> r.value.height.value >= MinHeight
    ensures r.Some? ==>
      r.value.text.None? && r.value.priority.None? && r.value.color.None? && r.value.date.None? && r.value.completed.None?
  {
    if dragging && !resizing then Some(DragTo(offset, pointer))
    else if resizing then Some(ResizeTo(start, pointer))
    else None
  }

  /** Pressing and moving zero distance does not move a card that is on
      screen, nor resize a card that is at least the minimum size. */
  lemma GrabWithoutMoving(t: Task, pointer: Point)
    requires t.x >= 0.0 && t.y >= 0.0 && t.width >= MinWidth && t.height >= MinHeight
    ensures DragTo(GrabOffset(t, pointer), pointer) == NoChanges.(x := Some(t.x), y := Some(t.y))
    ensures ResizeTo(GrabSize(t, pointer), pointer) == NoChanges.(width := Some(t.width), height := Some(t.height))
  {
  }

  /** Every card a mouse move touches ends at the clamped pointer position
      (when dragging) or the clamped pointer size (when resizing), so at a
      non-negative position and at least the minimum size; nothing else on
      it changes, and the other cards are left alone. */
  lemma MouseMoveKeepsClamps(tasks: seq<Task>, id: string, dragging: bool, resizing: bool,
                             offset: Point, start: ResizeStart, pointer: Point)
    requires dragging || resizing
    ensures var r := Board.UpdateInList(tasks, id, OnMouseMove(dragging, resizing, offset, start, pointer).value);
      && |r| == |tasks|
      && (forall i :: 0 <= i < |r| && tasks[i].id != id ==> r[i] == tasks[i])
      && (forall i :: 0 <= i < |r| && tasks[i].id == id && dragging && !resizing ==>
            && r[i] == tasks[i].(x := Max(0.0, pointer.x - offset.x), y := Max(0.0, pointer.y - offset.y))
            && r[i].x >= 0.0 && r[i].y >= 0.0)
      && (forall i :: 0 <= i < |r| && tasks[i].id == id && resizing ==>
            && r[i] == tasks[i].(width := Max(MinWidth, start.width + (pointer.x - start.x)),
                                 height := Max(MinHeight, start.height + (pointer.y - start.y)))
            && r[i].width >= MinWidth && r[i].height >= MinHeight)
  {
  }
}
