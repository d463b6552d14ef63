/** The drawing canvas: the points of the stroke being drawn, the mouse
    handlers that record them, and what paintEvent draws from them. */
module Drawing {
  import opened Geometry

  datatype MouseButton = LeftButton | RightButton | MiddleButton

  /** A straight line drawn between two consecutive stroke points. */
  datatype Segment = Segment(from: Point2D, to: Point2D)

  /** The visible drawing area, [0, 300) x [0, 550). */
  predicate InCanvas(p: Point2D)
  {
    0.0 <= p.x < CanvasWidth && 0.0 <= p.y < CanvasHeight
  }

  class Canvas {
    var points: seq<Point2D>

    /** Every point recorded after the first lies in the drawing area; the
        first one, recorded on the press, is not checked. */
    ghost predicate Valid()
      reads this
    {
      forall k :: 1 <= k < |points| ==> InCanvas(points[k])
    }

    /** The buffer starts empty. */
    constructor ()
      ensures Valid() && points == []
    {
      points := [];
    }

    /** A left press starts a new stroke at the press position; other
        buttons leave the stroke alone. */
    method MousePressEvent(button: MouseButton, position: Point2D)
      requires Valid()
      modifies this
      ensures Valid()
      ensures button == LeftButton ==> points == [position]
      ensures button != LeftButton ==> points == old(points)
    {
      if button == LeftButton {
        points := [];
        points := points + [position];
      }
    }

    /** A move with the left button held appends the position when it lies in
        the drawing area; nothing else changes the stroke, and a move never
        removes or reorders points. */
    method MouseMoveEvent(buttons: set<MouseButton>, position: Point2D)
      requires Valid()
      modifies this
      ensures Valid()
      ensures old(points) <= points
      ensures LeftButton in buttons && InCanvas(position) ==> points == old(points) + [position]
      ensures !(LeftButton in buttons && InCanvas(position)) ==> points == old(points)
    {
      if LeftButton in buttons {
        if position.x >= 0.0 && position.x < CanvasWidth && position.y < CanvasHeight && position.y >= 0.0 {
          points := points + [position];
        }
      }
    }

    /** getPoints: a copy of the stroke; the stroke itself is left as it was.
        Every point of the copy after the first lies in the drawing area. */
    method GetPoints() returns (copy: seq<Point2D>)
      requires Valid()
      ensures copy == points
      ensures forall k :: 1 <= k < |copy| ==> InCanvas(copy[k])
    {
      copy := points;
    }

    /** paintEvent: one segment per pair of consecutive points, in order; an
        empty or one-point stroke draws nothing. */
    method PaintEvent() returns (segments: seq<Segment>)
      ensures |segments| == if |points| == 0 then 0 else |points| - 1
      ensures forall k :: 0 <= k < |segments| ==> segments[k] == Segment(points[k], points[k + 1])
    {
      segments := [];
      var i := 0;
      while i < |points| - 1
        invariant 0 <= i && (i <= |points| - 1 || i == 0)
        invariant |segments| == i
        invariant forall k :: 0 <= k < i ==> segments[k] == Segment(points[k], points[k + 1])
      {
        segments := segments + [Segment(points[i], points[i + 1])];
        i := i + 1;
      }
    }
  }
}
