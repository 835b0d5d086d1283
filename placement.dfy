/**
 * `updateTooltipPosition`: where the tooltip goes for the mouse at (x, y) in
 * a viewport of width vw and height vh, given the assumed tooltip size and a
 * margin. Horizontally it prefers the right of the mouse, then the left,
 * then the centre; vertically above, then below, then the centre. The hover
 * variant assumes 320 x 100, the selection variant 350 x 120; both use a
 * margin of 20.
 */
module Placement {

  datatype Box = Box(width: real, height: real, margin: real)

  const HoverBox := Box(320.0, 100.0, 20.0)
  const SelectionBox := Box(350.0, 120.0, 20.0)

  datatype Side = Right | Left | CentreX | Above | Below | CentreY

  function Max(a: real, b: real): real { if a >= b then a else b }

  predicate FitsRight(x: real, vw: real, b: Box) { x + b.width + b.margin < vw }
  predicate FitsLeft(x: real, b: Box) { x - b.width - b.margin > 0.0 }
  predicate FitsAbove(y: real, b: Box) { y - b.height - b.margin > 0.0 }
  predicate FitsBelow(y: real, vh: real, b: Box) { y + b.height + b.margin < vh }

  /** Which horizontal side is chosen: the first that fits, in order of preference. */
  function HorizontalSide(x: real, vw: real, b: Box): (s: Side)
    ensures s == Right <==> FitsRight(x, vw, b)
    ensures s == Left <==> !FitsRight(x, vw, b) && FitsLeft(x, b)
    ensures s == CentreX <==> !FitsRight(x, vw, b) && !FitsLeft(x, b)
  {
    if FitsRight(x, vw, b) then Right else if FitsLeft(x, b) then Left else CentreX
  }

  function VerticalSide(y: real, vh: real, b: Box): (s: Side)
    ensures s == Above <==> FitsAbove(y, b)
    ensures s == Below <==> !FitsAbove(y, b) && FitsBelow(y, vh, b)
    ensures s == CentreY <==> !FitsAbove(y, b) && !FitsBelow(y, vh, b)
  {
    if FitsAbove(y, b) then Above else if FitsBelow(y, vh, b) then Below else CentreY
  }

  /**
   * The left coordinate. To the right the tooltip starts a margin after the
   * mouse and ends inside the viewport; to the left it ends a margin before
   * the mouse and starts inside the viewport; centred it is half the free
   * width from the left, or the margin when that is less.
   */
  function LeftEdge(x: real, vw: real, b: Box): (left: real)
    ensures HorizontalSide(x, vw, b) == Right ==> left == x + b.margin && left + b.width < vw
    ensures HorizontalSide(x, vw, b) == Left ==> left + b.width + b.margin == x && left > 0.0
    ensures HorizontalSide(x, vw, b) == CentreX ==>
              left >= b.margin && left >= (vw - b.width) / 2.0 &&
              (left == b.margin || left + b.width / 2.0 == vw / 2.0)
  {
    if FitsRight(x, vw, b) then x + b.margin
    else if FitsLeft(x, b) then x - b.width - b.margin
    else Max(b.margin, (vw - b.width) / 2.0)
  }

  /**
   * The top coordinate. Above, the tooltip ends a margin above the mouse
   * and starts inside the viewport; below, it starts a margin under the
   * mouse and its assumed box ends inside the viewport; centred it is half
   * the free height from the top, or the margin when that is less.
   */
  function TopEdge(y: real, vh: real, b: Box): (top: real)
    ensures VerticalSide(y, vh, b) == Above ==> top + b.height + b.margin == y && top > 0.0
    ensures VerticalSide(y, vh, b) == Below ==> top == y + b.margin && top + b.height < vh
    ensures VerticalSide(y, vh, b) == CentreY ==>
              top >= b.margin && top >= (vh - b.height) / 2.0 &&
              (top == b.margin || top + b.height / 2.0 == vh / 2.0)
  {
    if FitsAbove(y, b) then y - b.height - b.margin
    else if FitsBelow(y, vh, b) then y + b.margin
    else Max(b.margin, (vh - b.height) / 2.0)
  }

  /**
   * Unless the tooltip is centred both ways, its assumed box does not cover
   * the mouse (for a positive margin and size).
   */
  lemma MouseUncovered(x: real, y: real, vw: real, vh: real, b: Box)
    requires b.margin > 0.0 && b.width > 0.0 && b.height > 0.0
    requires HorizontalSide(x, vw, b) != CentreX || VerticalSide(y, vh, b) != CentreY
    ensures var left, top := LeftEdge(x, vw, b), TopEdge(y, vh, b);
            !(left <= x <= left + b.width && top <= y <= top + b.height)
  {
  }

  /** With the mouse inside the viewport, a side placement keeps the box inside it. */
  lemma SidePlacementInside(x: real, y: real, vw: real, vh: real, b: Box)
    requires 0.0 <= x <= vw && 0.0 <= y <= vh && b.margin >= 0.0
    ensures HorizontalSide(x, vw, b) != CentreX ==>
              0.0 <= LeftEdge(x, vw, b) && LeftEdge(x, vw, b) + b.width <= vw
    ensures VerticalSide(y, vh, b) != CentreY ==>
              0.0 <= TopEdge(y, vh, b) && TopEdge(y, vh, b) + b.height <= vh
  {
  }

  /** Viewport 1000 x 800, mouse at (900, 50), hover size: left of the mouse, below it. */
  lemma HoverNearTopRight()
    ensures HorizontalSide(900.0, 1000.0, HoverBox) == Left && LeftEdge(900.0, 1000.0, HoverBox) == 560.0
    ensures VerticalSide(50.0, 800.0, HoverBox) == Below && TopEdge(50.0, 800.0, HoverBox) == 70.0
  {
  }

  /** Viewport 1000 x 800, mouse at (500, 400), hover size: right of the mouse, above it. */
  lemma HoverWithRoom()
    ensures HorizontalSide(500.0, 1000.0, HoverBox) == Right && LeftEdge(500.0, 1000.0, HoverBox) == 520.0
    ensures VerticalSide(400.0, 800.0, HoverBox) == Above && TopEdge(400.0, 800.0, HoverBox) == 280.0
  {
  }

  /** The selection size needs 370 to the right and 140 above. */
  lemma SelectionThresholds(x: real, y: real, vw: real, vh: real)
    ensures HorizontalSide(x, vw, SelectionBox) == Right <==> x + 370.0 < vw
    ensures VerticalSide(y, vh, SelectionBox) == Above <==> y - 140.0 > 0.0
  {
  }

  // ---------------------------------------------------------------------------
  // Events without coordinates
  // ---------------------------------------------------------------------------

  /**
   * The `clientX`/`clientY` of the event that triggered the placement: a
   * mouse event has them; a key or `selectionchange` event has none, and the
   * placement then computes with `undefined`.
   */
  datatype EventPoint = At(x: real, y: real) | Undefined

  /**
   * The left coordinate for an event. With no coordinates every comparison
   * with `NaN` fails, so the tooltip is centred: half the free width from the
   * left, or the margin when that is less.
   */
  function EventLeft(p: EventPoint, vw: real, b: Box): (left: real)
    ensures p.At? ==> left == LeftEdge(p.x, vw, b)
    ensures p.Undefined? ==>
              left >= b.margin && left >= (vw - b.width) / 2.0 &&
              (left == b.margin || left == (vw - b.width) / 2.0)
  {
    match p
    case At(x, _) => LeftEdge(x, vw, b)
    case Undefined => Max(b.margin, (vw - b.width) / 2.0)
  }

  /** The top coordinate for an event; without coordinates, centred as for the left one. */
  function EventTop(p: EventPoint, vh: real, b: Box): (top: real)
    ensures p.At? ==> top == TopEdge(p.y, vh, b)
    ensures p.Undefined? ==>
              top >= b.margin && top >= (vh - b.height) / 2.0 &&
              (top == b.margin || top == (vh - b.height) / 2.0)
  {
    match p
    case At(_, y) => TopEdge(y, vh, b)
    case Undefined => Max(b.margin, (vh - b.height) / 2.0)
  }

  /**
   * An event without coordinates puts the tooltip where a mouse with no room
   * on any side would: its place is the centred one of the rule.
   */
  lemma UndefinedIsCentred(x: real, y: real, vw: real, vh: real, b: Box)
    requires HorizontalSide(x, vw, b) == CentreX && VerticalSide(y, vh, b) == CentreY
    ensures EventLeft(Undefined, vw, b) == LeftEdge(x, vw, b)
    ensures EventTop(Undefined, vh, b) == TopEdge(y, vh, b)
  {
  }

  /** Viewport 1000 x 800, selection size, no coordinates: the tooltip sits at (325, 340). */
  lemma SelectionWithoutCoordinates()
    ensures EventLeft(Undefined, 1000.0, SelectionBox) == 325.0
    ensures EventTop(Undefined, 800.0, SelectionBox) == 340.0
  {
  }
}
