/** How the window drives the mesher: the edge counts it lets the user pick,
    and what the canvas bounds check guarantees about the mesh built from a
    stroke. */
module Pipeline {
  import opened Geometry
  import opened Revolution
  import opened Drawing

  /** The edge counts the window offers (MainWindow::stepAllowed). */
  const StepAllowed: seq<int> := [2, 3, 4, 5, 6, 8, 9, 10, 12, 15, 18, 20, 24, 30, 36, 40, 45, 60, 72, 90]

  /** Every offered edge count is a divisor of 360. */
  lemma AllowedEdgesDivideFullTurn(edges: int)
    requires edges in StepAllowed
    ensures 1 <= edges <= 360 && 360 % edges == 0
  {
    match edges
    case 2 => case 3 => case 4 => case 5 => case 6 => case 8 => case 9 => case 10 => case 12 => case 15 =>
    case 18 => case 20 => case 24 => case 30 => case 36 => case 40 => case 45 => case 60 => case 72 => case 90 =>
    case _ => assert false;
  }

  /** So with any offered edge count the sweep step is exact and every ring
      has exactly `lineWidth = edges + 1` entries: the stride the
      triangulation assumes. */
  lemma AllowedEdgesGiveExactRings(edges: int)
    requires edges in StepAllowed
    ensures RingSize(edges) == edges + 1
    ensures Step(edges) * edges == 360
  {
    AllowedEdgesDivideFullTurn(edges);
    StepBounds(edges);
    RingSizeBounds(edges);
  }

  /** x * x <= 1 for x in [-1, 1]. */
  lemma SquareAtMostOne(x: real)
    requires -1.0 <= x <= 1.0
    ensures x * x <= 1.0
  {
    if x >= 0.0 {
      assert x * x <= x * 1.0;
    } else {
      assert x * x <= (-x) * 1.0;
    }
  }

  /** A stroke point the canvas checked (every point but the first) maps into
      model space with -1 <= x < 1 and -1 < y <= 1. */
  lemma CheckedPointInUnitSquare(p: Point2D)
    requires InCanvas(p)
    ensures -1.0 <= MapPoint(p).x < 1.0 && -1.0 < MapPoint(p).y <= 1.0
  {
    MapPointBounds(p);
  }

  /** Inside the cylinder of radius 1 about the y axis, with height in
      (-1, 1]. */
  predicate InUnitCylinder(v: Vertex)
  {
    -1.0 < v.y <= 1.0 && v.x * v.x + v.z * v.z <= 1.0
  }

  /** A point on the plane z = 0 with -1 <= x <= 1 and -1 < y <= 1 is in the
      unit cylinder, and under sound trigonometry so is every rotation of it
      about the y axis. */
  lemma RotatedInUnitCylinder(node: Vertex, angle: real, num: Numerics)
    requires SoundTrig(num)
    requires node.z == 0.0 && -1.0 <= node.x <= 1.0 && -1.0 < node.y <= 1.0
    ensures InUnitCylinder(node) && InUnitCylinder(RotateY(node, angle, num))
  {
    SquareAtMostOne(node.x);
    assert node.z * node.z == 0.0;
    RotationKeepsRadius(node, angle, num);
  }

  /** Hence every entry of such a point's ring is in the unit cylinder. */
  lemma RingInUnitCylinder(node: Vertex, edges: int, num: Numerics, j: nat)
    requires 1 <= edges <= 360 && SoundTrig(num)
    requires node.z == 0.0 && -1.0 <= node.x <= 1.0 && -1.0 < node.y <= 1.0
    requires j < RingSize(edges)
    ensures InUnitCylinder(Ring(node, edges, num)[j])
  {
    var angle := (0 + j * Step(edges)) as real;
    RotatedInUnitCylinder(node, angle, num);
    if j < RingSize(edges) - 1 {
      RotationsAt(node, Step(edges), 0, num, j);
      assert Ring(node, edges, num)[j] == Rotations(node, Step(edges), 0, num)[j];
    }
  }

  /** Every vertex swept from a checked stroke point, under sound
      trigonometry, lies inside the unit cylinder about the y axis. The first
      stroke point is not checked by the canvas, so its ring has no such
      bound. */
  lemma SweptVertexInUnitCylinder(profile: seq<Point2D>, edges: int, num: Numerics, k: nat, j: nat)
    requires 1 <= edges <= 360 && SoundTrig(num)
    requires forall m :: 1 <= m < |profile| ==> InCanvas(profile[m])
    requires 1 <= k < |profile| && j < RingSize(edges)
    ensures RingStart(k, RingSize(edges)) + j < |Sweep(profile, edges, num)|
    ensures InUnitCylinder(Sweep(profile, edges, num)[RingStart(k, RingSize(edges)) + j])
  {
    SweepAt(profile, edges, num, k, j);
    CheckedPointInUnitSquare(profile[k]);
    RingInUnitCylinder(MapPoint(profile[k]), edges, num, j);
  }
}
