/**
 * The square crop selector (`CropWidget`): where the scaled image sits in
 * the widget, the initial square crop, corner hit-testing, and the mouse
 * handlers that resize and drag the crop. Only the integer geometry is
 * modelled; the display image's size is an input.
 *
 * `QRect` is modelled by its four stored coordinates, as Qt stores it: a rect
 * made from (x, y, w, h) has right edge x + w - 1 and bottom edge y + h - 1,
 * so its width is right - left + 1.
 */
module CropWidget {

  const BORDER_PADDING: int := 4
  const HANDLE_SIZE: int := 10
  /** The smallest side a resize may leave. */
  const MIN_SIZE: int := 50

  datatype Point = Point(x: int, y: int) {
    function Minus(p: Point): Point { Point(x - p.x, y - p.y) }
  }

  datatype Size = Size(w: int, h: int)

  datatype Rect = Rect(x1: int, y1: int, x2: int, y2: int) {
    function Left(): int { x1 }
    function Top(): int { y1 }
    function Right(): int { x2 }
    function Bottom(): int { y2 }
    function Width(): int { x2 - x1 + 1 }
    function Height(): int { y2 - y1 + 1 }
    function TopLeft(): Point { Point(x1, y1) }
    /** `isValid`: a positive width and height. */
    predicate IsValid() { Width() > 0 && Height() > 0 }
    /** `setLeft` and friends move one edge and leave the opposite one where it is. */
    function SetLeft(v: int): Rect { this.(x1 := v) }
    function SetTop(v: int): Rect { this.(y1 := v) }
    function SetRight(v: int): Rect { this.(x2 := v) }
    function SetBottom(v: int): Rect { this.(y2 := v) }
    /** `moveTo`: the same size with its top-left corner at (x, y). */
    function MoveTo(x: int, y: int): (r: Rect)
      ensures r.TopLeft() == Point(x, y) && r.Width() == Width() && r.Height() == Height()
    {
      Rect(x, y, x + (x2 - x1), y + (y2 - y1))
    }
  }

  /** `QRect(x, y, w, h)`. */
  function RectOf(x: int, y: int, w: int, h: int): Rect
  {
    Rect(x, y, x + w - 1, y + h - 1)
  }

  /**
   * `QRect::contains(p)`: the point lies within the edges, both inclusive,
   * after a rect of negative size has been normalized.
   */
  predicate Contains(r: Rect, p: Point) {
    var l := if r.x2 < r.x1 - 1 then r.x2 + 1 else r.x1;
    var rt := if r.x2 < r.x1 - 1 then r.x1 - 1 else r.x2;
    var t := if r.y2 < r.y1 - 1 then r.y2 + 1 else r.y1;
    var b := if r.y2 < r.y1 - 1 then r.y1 - 1 else r.y2;
    l <= p.x <= rt && t <= p.y <= b
  }

  /** `r` lies within `bounds`, edge for edge. */
  predicate Inside(r: Rect, bounds: Rect) {
    r.Left() >= bounds.Left() && r.Top() >= bounds.Top() && r.Right() <= bounds.Right() && r.Bottom() <= bounds.Bottom()
  }

  predicate IsSquare(r: Rect) {
    r.Width() == r.Height()
  }

  /** C++ integer division by two, which truncates toward zero. */
  function Half(n: int): (q: int)
    ensures n >= 0 ==> 0 <= q && q + q <= n <= q + q + 1
    ensures n < 0 ==> q <= 0 && q + q >= n >= q + q - 1
  {
    if n >= 0 then n / 2 else -((-n) / 2)
  }

  /** `QRect(0, 0, 0, 0)`: the bounds reported when there is no image. */
  const NO_IMAGE: Rect := RectOf(0, 0, 0, 0)

  /** A pixmap of this size is null. */
  predicate IsNull(s: Size) {
    s.w <= 0 || s.h <= 0
  }

  /**
   * `getImageDisplayBounds`: the display image centred in the widget (the
   * offset truncated toward zero), or NO_IMAGE when there is no image.
   */
  function ImageDisplayBounds(widget: Size, display: Size): (r: Rect)
    ensures IsNull(display) ==> r == NO_IMAGE
    ensures !IsNull(display) ==> r.Left() == Half(widget.w - display.w) && r.Top() == Half(widget.h - display.h)
  {
    if IsNull(display) then NO_IMAGE
    else RectOf(Half(widget.w - display.w), Half(widget.h - display.h), display.w, display.h)
  }

  /** The bounds of an image on display have its size, and are centred within one pixel. */
  lemma DisplayBoundsFit(widget: Size, display: Size)
    requires !IsNull(display)
    ensures ImageDisplayBounds(widget, display).Width() == display.w
    ensures ImageDisplayBounds(widget, display).Height() == display.h
    ensures ImageDisplayBounds(widget, display).IsValid()
    ensures widget.w >= display.w ==>
      var b := ImageDisplayBounds(widget, display);
      b.Left() <= widget.w - 1 - b.Right() <= b.Left() + 1
  {
  }

  /** The space `setImage` scales the image into: the widget less its border padding. */
  function AvailableSize(widget: Size): Size {
    Size(widget.w - 2 * BORDER_PADDING, widget.h - 2 * BORDER_PADDING)
  }

  /** The part of the widget inside its border padding. */
  function PaddedArea(widget: Size): Rect {
    RectOf(BORDER_PADDING, BORDER_PADDING, AvailableSize(widget).w, AvailableSize(widget).h)
  }

  /** An image scaled to fit the available size is displayed inside the border padding. */
  lemma ScaledImageInsidePadding(widget: Size, display: Size)
    requires !IsNull(display)
    requires display.w <= AvailableSize(widget).w && display.h <= AvailableSize(widget).h
    ensures Inside(ImageDisplayBounds(widget, display), PaddedArea(widget))
  {
  }

  function Min(a: int, b: int): int { if a <= b then a else b }
  function Max(a: int, b: int): int { if a >= b then a else b }
  function Abs(a: int): int { if a >= 0 then a else -a }

  /** The crop `setImage` starts with: the largest square the image holds, centred on it. */
  function InitialCrop(bounds: Rect): (r: Rect)
    requires bounds.Width() >= 0 && bounds.Height() >= 0
    ensures IsSquare(r) && r.Width() == Min(bounds.Width(), bounds.Height())
    ensures bounds.IsValid() ==> Inside(r, bounds) && r.IsValid()
    ensures var leftGap := r.Left() - bounds.Left(); var rightGap := bounds.Right() - r.Right();
      leftGap <= rightGap <= leftGap + 1
    ensures var topGap := r.Top() - bounds.Top(); var bottomGap := bounds.Bottom() - r.Bottom();
      topGap <= bottomGap <= topGap + 1
  {
    var side := Min(bounds.Width(), bounds.Height());
    RectOf(bounds.Left() + Half(bounds.Width() - side), bounds.Top() + Half(bounds.Height() - side), side, side)
  }

  /** The four corners, in the order hit-testing tries them: top-left, top-right, bottom-left, bottom-right. */
  function Corner(r: Rect, i: int): Point
    requires 0 <= i < 4
  {
    if i == 0 then Point(r.Left(), r.Top())
    else if i == 1 then Point(r.Right(), r.Top())
    else if i == 2 then Point(r.Left(), r.Bottom())
    else Point(r.Right(), r.Bottom())
  }

  /** The grab area of a corner: 2 * HANDLE_SIZE square, starting HANDLE_SIZE above and left of it. */
  function Handle(c: Point): Rect {
    RectOf(c.x - HANDLE_SIZE, c.y - HANDLE_SIZE, HANDLE_SIZE * 2, HANDLE_SIZE * 2)
  }

  predicate OnHandle(r: Rect, i: int, pos: Point)
    requires 0 <= i < 4
  {
    Contains(Handle(Corner(r, i)), pos)
  }

  /** The first corner from `i` on whose handle holds `pos`, or -1. */
  function FirstCornerFrom(r: Rect, pos: Point, i: int): (c: int)
    requires 0 <= i <= 4
    ensures c == -1 || i <= c < 4
    ensures c >= 0 ==> OnHandle(r, c, pos) && forall j :: i <= j < c ==> !OnHandle(r, j, pos)
    ensures c == -1 ==> forall j :: i <= j < 4 ==> !OnHandle(r, j, pos)
    decreases 4 - i
  {
    if i == 4 then -1
    else if OnHandle(r, i, pos) then i
    else FirstCornerFrom(r, pos, i + 1)
  }

  /** `getCornerAtPos`: -1 for an invalid crop, else the first corner whose handle holds `pos`, else -1. */
  function CornerAt(r: Rect, pos: Point): (c: int)
    ensures -1 <= c < 4
    ensures !r.IsValid() ==> c == -1
    ensures c >= 0 ==> r.IsValid() && OnHandle(r, c, pos) && forall j :: 0 <= j < c ==> !OnHandle(r, j, pos)
    ensures r.IsValid() && c == -1 ==> forall j :: 0 <= j < 4 ==> !OnHandle(r, j, pos)
  {
    if !r.IsValid() then -1 else FirstCornerFrom(r, pos, 0)
  }

  /** On a crop of side 21 or more the four handles do not overlap, so the order of the search does not matter. */
  lemma HandlesDisjoint(r: Rect, pos: Point, i: int, j: int)
    requires r.Width() > 2 * HANDLE_SIZE && r.Height() > 2 * HANDLE_SIZE
    requires 0 <= i < j < 4
    ensures !(OnHandle(r, i, pos) && OnHandle(r, j, pos))
  {
  }

  /**
   * The rect a resize proposes: the rect at the start of the resize with the
   * grabbed corner moved by one amount on both axes, chosen from the mouse's
   * displacement as each case of the source does; the opposite corner stays put.
   */
  function ResizeCandidate(start: Rect, corner: int, delta: Point): (r: Rect)
    ensures r.Width() - start.Width() == r.Height() - start.Height()
    ensures corner == 0 ==> r.Right() == start.Right() && r.Bottom() == start.Bottom()
    ensures corner == 1 ==> r.Left() == start.Left() && r.Bottom() == start.Bottom()
    ensures corner == 2 ==> r.Right() == start.Right() && r.Top() == start.Top()
    ensures corner == 3 ==> r.Left() == start.Left() && r.Top() == start.Top()
    ensures corner !in {0, 1, 2, 3} ==> r == start
  {
    var largest := Max(Abs(delta.x), Abs(delta.y));
    if corner == 0 then
      var d := if delta.x > 0 || delta.y > 0 then Min(delta.x, delta.y) else -largest;
      start.SetLeft(start.Left() + d).SetTop(start.Top() + d)
    else if corner == 1 then
      var d := if delta.x < 0 || delta.y > 0 then -Min(-delta.x, delta.y) else Max(delta.x, -delta.y);
      start.SetRight(start.Right() + d).SetTop(start.Top() - d)
    else if corner == 2 then
      var d := if delta.x > 0 || delta.y < 0 then -Min(delta.x, -delta.y) else Max(-delta.x, delta.y);
      start.SetLeft(start.Left() - d).SetBottom(start.Bottom() + d)
    else if corner == 3 then
      var d := if delta.x < 0 || delta.y < 0 then Min(delta.x, delta.y) else largest;
      start.SetRight(start.Right() + d).SetBottom(start.Bottom() + d)
    else start
  }

  /** A resize is taken only when both sides are at least MIN_SIZE and the rect stays within the image. */
  predicate Acceptable(r: Rect, bounds: Rect) {
    r.Width() >= MIN_SIZE && r.Height() >= MIN_SIZE && Inside(r, bounds)
  }

  /** One resize step: the candidate when acceptable, otherwise the crop as it was. */
  function ResizeStep(crop: Rect, start: Rect, corner: int, delta: Point, bounds: Rect): (r: Rect)
    ensures r == crop || (r == ResizeCandidate(start, corner, delta) && Acceptable(r, bounds))
    ensures Acceptable(ResizeCandidate(start, corner, delta), bounds) ==> r == ResizeCandidate(start, corner, delta)
  {
    var candidate := ResizeCandidate(start, corner, delta);
    if Acceptable(candidate, bounds) then candidate else crop
  }

  /** Resizing from a square keeps a square crop within the image: it stays one if it was one. */
  lemma ResizeKeepsSquareInside(crop: Rect, start: Rect, corner: int, delta: Point, bounds: Rect)
    requires IsSquare(crop) && Inside(crop, bounds) && IsSquare(start)
    ensures IsSquare(ResizeStep(crop, start, corner, delta, bounds))
    ensures Inside(ResizeStep(crop, start, corner, delta, bounds), bounds)
  {
  }

  /**
   * The drag target: the requested top-left corner clamped so the crop stays
   * within the image, flush against its right and bottom edges included.
   */
  function DragTarget(bounds: Rect, crop: Rect, newPos: Point): (r: Rect)
    ensures r.Width() == crop.Width() && r.Height() == crop.Height()
    ensures crop.Width() <= bounds.Width() && crop.Height() <= bounds.Height() ==> Inside(r, bounds)
    ensures Inside(crop.MoveTo(newPos.x, newPos.y), bounds) ==> r == crop.MoveTo(newPos.x, newPos.y)
  {
    var x := Max(bounds.Left(), Min(newPos.x, bounds.Right() - crop.Width() + 1));
    var y := Max(bounds.Top(), Min(newPos.y, bounds.Bottom() - crop.Height() + 1));
    crop.MoveTo(x, y)
  }

  /** The drag clamp as the source writes it: the upper limit is one pixel short of the edge. */
  function DragTargetAsWritten(bounds: Rect, crop: Rect, newPos: Point): (r: Rect)
    ensures r.Width() == crop.Width() && r.Height() == crop.Height()
  {
    var x := Max(bounds.Left(), Min(newPos.x, bounds.Right() - crop.Width()));
    var y := Max(bounds.Top(), Min(newPos.y, bounds.Bottom() - crop.Height()));
    crop.MoveTo(x, y)
  }

  /**
   * With the clamp as written, pressing inside a crop that touches the image's
   * right edge and moving nowhere shifts it one pixel: a 50 px crop at (50, 50)
   * in a 100 px image at the origin, whose still drag targets its own top-left
   * corner, ends at (49, 49).
   */
  lemma StillDragShiftsFlushCropAsWritten()
    ensures Inside(Rect(50, 50, 99, 99), RectOf(0, 0, 100, 100))
    ensures DragTargetAsWritten(RectOf(0, 0, 100, 100), RectOf(50, 50, 50, 50), Point(50, 50)) == Rect(49, 49, 98, 98)
  {
    var bounds := RectOf(0, 0, 100, 100);
    var crop := RectOf(50, 50, 50, 50);
    assert bounds == Rect(0, 0, 99, 99) && crop == Rect(50, 50, 99, 99);
    assert bounds.Right() - crop.Width() == 49 && bounds.Bottom() - crop.Height() == 49;
    assert Max(0, Min(50, 49)) == 49;
    assert crop.MoveTo(49, 49) == Rect(49, 49, 98, 98);
  }

  /** With the clamp as written no crop narrower than the image can be dragged against its right edge. */
  lemma DragAsWrittenNeverReachesRightEdge(bounds: Rect, crop: Rect, newPos: Point)
    requires crop.Width() < bounds.Width()
    ensures DragTargetAsWritten(bounds, crop, newPos).Right() < bounds.Right()
  {
  }

  /** A drag that does not move the mouse leaves a crop that is within the image where it is. */
  lemma StillDragKeepsCrop(bounds: Rect, crop: Rect)
    requires Inside(crop, bounds)
    ensures DragTarget(bounds, crop, crop.TopLeft()) == crop
  {
    assert crop.MoveTo(crop.Left(), crop.Top()) == crop;
  }

  datatype MouseButton = LeftButton | OtherButton

  /** The cursor shape the hover branch of `mouseMoveEvent` chooses. */
  datatype Cursor = Arrow | SizeFDiag | SizeBDiag | SizeAll

  function HoverCursor(crop: Rect, pos: Point): (c: Cursor)
    ensures c in {SizeFDiag, SizeBDiag} <==> CornerAt(crop, pos) >= 0
    ensures c == SizeFDiag <==> CornerAt(crop, pos) in {0, 3}
    ensures c == SizeAll <==> CornerAt(crop, pos) == -1 && Contains(crop, pos)
  {
    var corner := CornerAt(crop, pos);
    if corner >= 0 then (if corner == 0 || corner == 3 then SizeFDiag else SizeBDiag)
    else if Contains(crop, pos) then SizeAll
    else Arrow
  }

  /** The widget's integer state. */
  class CropWidget {
    var widget: Size
    /** The size of the scaled image on display; a null pixmap has no area. */
    var display: Size
    var cropRect: Rect
    var dragging: bool
    var resizing: bool
    var resizeCorner: int
    var dragStart: Point
    var resizeStartRect: Rect
    var cursor: Cursor

    constructor (widget: Size)
      ensures this.widget == widget && display == Size(0, 0) && cropRect == Rect(0, 0, -1, -1)
      ensures !dragging && !resizing && resizeCorner == -1 && cursor == Arrow
    {
      this.widget := widget;
      display := Size(0, 0);
      cropRect := Rect(0, 0, -1, -1);
      dragging := false;
      resizing := false;
      resizeCorner := -1;
      dragStart := Point(0, 0);
      resizeStartRect := Rect(0, 0, -1, -1);
      cursor := Arrow;
    }

    function Bounds(): Rect
      reads this
    {
      ImageDisplayBounds(widget, display)
    }

    /** `setImage`, given the size the image was scaled to. */
    method SetImage(scaled: Size)
      requires scaled.w >= 0 && scaled.h >= 0
      requires scaled.w <= Max(0, AvailableSize(widget).w) && scaled.h <= Max(0, AvailableSize(widget).h)
      modifies this
      ensures display == scaled && widget == old(widget)
      ensures cropRect == InitialCrop(ImageDisplayBounds(widget, scaled))
      ensures dragging == old(dragging) && resizing == old(resizing) && resizeCorner == old(resizeCorner)
      ensures dragStart == old(dragStart) && resizeStartRect == old(resizeStartRect) && cursor == old(cursor)
    {
      display := scaled;
      var imgBounds := ImageDisplayBounds(widget, display);
      var squareSize := Min(imgBounds.Width(), imgBounds.Height());
      var cropX := imgBounds.Left() + Half(imgBounds.Width() - squareSize);
      var cropY := imgBounds.Top() + Half(imgBounds.Height() - squareSize);
      cropRect := RectOf(cropX, cropY, squareSize, squareSize);
    }

    /** `getCornerAtPos`: the four-step search of the handles. */
    method GetCornerAtPos(pos: Point) returns (corner: int)
      ensures corner == CornerAt(cropRect, pos)
    {
      if !cropRect.IsValid() {
        return -1;
      }
      var corners := [Corner(cropRect, 0), Corner(cropRect, 1), Corner(cropRect, 2), Corner(cropRect, 3)];
      for i := 0 to 4
        invariant forall j :: 0 <= j < i ==> !OnHandle(cropRect, j, pos)
      {
        if Contains(Handle(corners[i]), pos) {
          return i;
        }
      }
      corner := -1;
    }

    /** `mousePressEvent`: a corner starts a resize, otherwise a point in the crop starts a drag. */
    method MousePress(button: MouseButton, pos: Point)
      modifies this
      ensures cropRect == old(cropRect) && widget == old(widget) && display == old(display) && cursor == old(cursor)
      ensures !(button == LeftButton && CornerAt(cropRect, pos) >= 0) ==> resizeStartRect == old(resizeStartRect)
      ensures button != LeftButton ==>
        dragging == old(dragging) && resizing == old(resizing) && resizeCorner == old(resizeCorner) && dragStart == old(dragStart)
      ensures button == LeftButton && CornerAt(cropRect, pos) >= 0 ==>
        resizing && resizeCorner == CornerAt(cropRect, pos) && dragStart == pos && resizeStartRect == cropRect &&
        dragging == old(dragging)
      ensures button == LeftButton && CornerAt(cropRect, pos) < 0 && Contains(cropRect, pos) ==>
        dragging && dragStart == pos.Minus(cropRect.TopLeft()) && resizing == old(resizing) && resizeCorner == old(resizeCorner)
      ensures button == LeftButton && CornerAt(cropRect, pos) < 0 && !Contains(cropRect, pos) ==>
        dragging == old(dragging) && resizing == old(resizing) && resizeCorner == old(resizeCorner) && dragStart == old(dragStart)
    {
      if button == LeftButton {
        var corner := GetCornerAtPos(pos);
        if corner >= 0 {
          resizing := true;
          resizeCorner := corner;
          dragStart := pos;
          resizeStartRect := cropRect;
        } else if Contains(cropRect, pos) {
          dragging := true;
          dragStart := pos.Minus(cropRect.TopLeft());
        }
      }
    }

    /**
     * `mouseMoveEvent`: a resize step, else a drag (with the clamp reaching the
     * image's edges), else a cursor change.
     */
    method MouseMove(pos: Point)
      modifies this
      ensures widget == old(widget) && display == old(display)
      ensures dragging == old(dragging) && resizing == old(resizing) && resizeCorner == old(resizeCorner)
      ensures dragStart == old(dragStart) && resizeStartRect == old(resizeStartRect)
      ensures old(resizing) && !IsNull(display) ==>
        cropRect == ResizeStep(old(cropRect), resizeStartRect, resizeCorner, pos.Minus(dragStart), Bounds()) &&
        cursor == old(cursor)
      ensures !(old(resizing) && !IsNull(display)) && old(dragging) && !IsNull(display) ==>
        cropRect == DragTarget(Bounds(), old(cropRect), pos.Minus(dragStart)) && cursor == old(cursor)
      ensures !(old(resizing) && !IsNull(display)) && !(old(dragging) && !IsNull(display)) ==>
        cropRect == old(cropRect) && cursor == HoverCursor(cropRect, pos)
    {
      if resizing && !IsNull(display) {
        var imgBounds := Bounds();
        var delta := pos.Minus(dragStart);
        var newRect := ResizeCandidate(resizeStartRect, resizeCorner, delta);
        if newRect.Width() >= MIN_SIZE && newRect.Height() >= MIN_SIZE &&
           newRect.Left() >= imgBounds.Left() && newRect.Top() >= imgBounds.Top() &&
           newRect.Right() <= imgBounds.Right() && newRect.Bottom() <= imgBounds.Bottom() {
          cropRect := newRect;
        }
      } else if dragging && !IsNull(display) {
        var newPos := pos.Minus(dragStart);
        cropRect := DragTarget(Bounds(), cropRect, newPos);
      } else {
        var corner := GetCornerAtPos(pos);
        if corner >= 0 {
          cursor := if corner == 0 || corner == 3 then SizeFDiag else SizeBDiag;
        } else if Contains(cropRect, pos) {
          cursor := SizeAll;
        } else {
          cursor := Arrow;
        }
      }
    }

    /** `mouseReleaseEvent`: the left button ends any drag or resize. */
    method MouseRelease(button: MouseButton)
      modifies this
      ensures cropRect == old(cropRect) && widget == old(widget) && display == old(display) && cursor == old(cursor)
      ensures dragStart == old(dragStart) && resizeStartRect == old(resizeStartRect)
      ensures button == LeftButton ==> !dragging && !resizing && resizeCorner == -1
      ensures button != LeftButton ==> dragging == old(dragging) && resizing == old(resizing) && resizeCorner == old(resizeCorner)
    {
      if button == LeftButton {
        dragging := false;
        resizing := false;
        resizeCorner := -1;
      }
    }
  }
}
