/** The surface-of-revolution mesher of MainView::updatePoints, as functions of
    its inputs: each profile point is mapped to model space, swept into a ring
    of rotated copies, the rings are laid end to end, and neighbouring entries
    of that flat sequence are stitched into triangles with index arithmetic
    over `lineWidth = edges + 1`. */
module Revolution {
  import opened Geometry

  /** The float library calls the mesher makes and that the model leaves
      uninterpreted: cosine and sine of an angle given in degrees (the source
      converts degrees to radians before calling cos/sin), and
      QVector3D::normalized. */
  datatype Numerics = Numerics(cosDegrees: real -> real, sinDegrees: real -> real, normalized: Vec3 -> Vec3)

  /** The facts of trigonometry the lemmas below rely on. */
  ghost predicate SoundTrig(num: Numerics)
  {
    && num.cosDegrees(0.0) == 1.0
    && num.sinDegrees(0.0) == 0.0
    && forall a :: num.cosDegrees(a) * num.cosDegrees(a) + num.sinDegrees(a) * num.sinDegrees(a) == 1.0
  }

  // ---------------------------------------------------------------- mapping

  /** Linear map of `value` from [inputMin, inputMax] onto [outputMin, outputMax].
      A degenerate input range divides by zero in the source; callers pass
      fixed, distinct bounds. */
  function MapToRange(value: real, inputMin: real, inputMax: real, outputMin: real, outputMax: real): (r: real)
    requires inputMin != inputMax
    ensures (r - outputMin) * (inputMax - inputMin) == (value - inputMin) * (outputMax - outputMin)
  {
    ((value - inputMin) / (inputMax - inputMin)) * (outputMax - outputMin) + outputMin
  }

  lemma MapToRangeEndpoints(inputMin: real, inputMax: real, outputMin: real, outputMax: real)
    requires inputMin != inputMax
    ensures MapToRange(inputMin, inputMin, inputMax, outputMin, outputMax) == outputMin
    ensures MapToRange(inputMax, inputMin, inputMax, outputMin, outputMax) == outputMax
  {
  }

  /** The map is affine: it carries a weighted mean of two values to the same
      weighted mean of their images. */
  lemma MapToRangeAffine(v: real, w: real, t: real, inputMin: real, inputMax: real, outputMin: real, outputMax: real)
    requires inputMin != inputMax
    ensures MapToRange(t * v + (1.0 - t) * w, inputMin, inputMax, outputMin, outputMax)
         == t * MapToRange(v, inputMin, inputMax, outputMin, outputMax)
          + (1.0 - t) * MapToRange(w, inputMin, inputMax, outputMin, outputMax)
  {
    var k := (outputMax - outputMin) / (inputMax - inputMin);
    assert forall u :: MapToRange(u, inputMin, inputMax, outputMin, outputMax) == (u - inputMin) * k + outputMin;
  }

  /** Mapping into a range and back with the bounds swapped is the identity. */
  lemma MapToRangeRoundTrip(v: real, inputMin: real, inputMax: real, outputMin: real, outputMax: real)
    requires inputMin != inputMax && outputMin != outputMax
    ensures MapToRange(MapToRange(v, inputMin, inputMax, outputMin, outputMax), outputMin, outputMax, inputMin, inputMax) == v
  {
    var there := MapToRange(v, inputMin, inputMax, outputMin, outputMax);
    var back := MapToRange(there, outputMin, outputMax, inputMin, inputMax);
    assert (back - inputMin) * (outputMax - outputMin) == (there - outputMin) * (inputMax - inputMin);
    assert (there - outputMin) * (inputMax - inputMin) == (v - inputMin) * (outputMax - outputMin);
    assert (back - v) * (outputMax - outputMin) == 0.0;
  }

  /** A canvas point in model space: x from [0, 300] onto [-1, 1], y from
      [0, 550] onto [1, -1] (canvas y grows downwards, model y upwards), z = 0. */
  function MapPoint(p: Point2D): (v: Vertex)
    ensures v.z == 0.0 && v.colors == Zero
  {
    Vertex(MapToRange(p.x, 0.0, CanvasWidth, -1.0, 1.0), MapToRange(p.y, 0.0, CanvasHeight, 1.0, -1.0), 0.0, Zero)
  }

  /** Points of the drawing area land in the square [-1, 1] x [-1, 1]; the
      left and right edges go to x = -1 and x = 1, the top edge to y = 1 and
      the bottom edge to y = -1. */
  lemma MapPointBounds(p: Point2D)
    requires 0.0 <= p.x <= CanvasWidth && 0.0 <= p.y <= CanvasHeight
    ensures -1.0 <= MapPoint(p).x <= 1.0 && -1.0 <= MapPoint(p).y <= 1.0
    ensures p.x == 0.0 ==> MapPoint(p).x == -1.0
    ensures p.x == CanvasWidth ==> MapPoint(p).x == 1.0
    ensures p.y == 0.0 ==> MapPoint(p).y == 1.0
    ensures p.y == CanvasHeight ==> MapPoint(p).y == -1.0
  {
  }

  /** x keeps its order and y is reversed. */
  lemma MapPointOrientation(p: Point2D, q: Point2D)
    ensures p.x <= q.x ==> MapPoint(p).x <= MapPoint(q).x
    ensures p.y <= q.y ==> MapPoint(p).y >= MapPoint(q).y
  {
  }

  // ---------------------------------------------------------------- sweep

  /** rotateYAndReturn: rotation about the vertical axis by `angle` degrees.
      The result carries a default-constructed (null) normal. */
  function RotateY(p: Vertex, angle: real, num: Numerics): (r: Vertex)
    ensures r.y == p.y && r.colors == Zero
  {
    var c, s := num.cosDegrees(angle), num.sinDegrees(angle);
    Vertex(p.x * c + p.z * s, p.y, p.z * c - p.x * s, Zero)
  }

  /** Rotation keeps the distance from the axis. */
  lemma RotationKeepsRadius(p: Vertex, angle: real, num: Numerics)
    requires SoundTrig(num)
    ensures var r := RotateY(p, angle, num); r.x * r.x + r.z * r.z == p.x * p.x + p.z * p.z
  {
    var c, s := num.cosDegrees(angle), num.sinDegrees(angle);
    var r := RotateY(p, angle, num);
    assert c * c + s * s == 1.0;
    calc {
      r.x * r.x + r.z * r.z;
      (p.x * c + p.z * s) * (p.x * c + p.z * s) + (p.z * c - p.x * s) * (p.z * c - p.x * s);
      p.x * p.x * (c * c + s * s) + p.z * p.z * (c * c + s * s);
    }
  }

  /** Rotation by zero degrees leaves the position where it was. */
  lemma RotationByZero(p: Vertex, num: Numerics)
    requires SoundTrig(num)
    ensures SamePosition(RotateY(p, 0.0, num), p)
  {
  }

  /** The angular step of the sweep: `360 / edges`, integer division. */
  function Step(edges: int): (step: int)
    requires 1 <= edges <= 360
    ensures 1 <= step <= 360
  {
    360 / edges
  }

  /** `edges` steps fit in a full turn and `edges` steps of one degree more
      do not; the fit is exact precisely when `edges` divides 360. */
  lemma StepBounds(edges: int)
    requires 1 <= edges <= 360
    ensures Step(edges) * edges <= 360 < (Step(edges) + 1) * edges
    ensures 360 % edges == 0 <==> Step(edges) * edges == 360
  {
  }

  /** How many angles `for (i = angle; i < 360; i += step)` visits. */
  function Visits(step: int, angle: int): (n: nat)
    requires step >= 1
    decreases 360 - angle
  {
    if angle >= 360 then 0 else 1 + Visits(step, angle + step)
  }

  /** The rotated copies that loop makes, in the order it makes them. */
  function Rotations(node: Vertex, step: int, angle: int, num: Numerics): (r: seq<Vertex>)
    requires step >= 1
    ensures |r| == Visits(step, angle)
    decreases 360 - angle
  {
    if angle >= 360 then [] else [RotateY(node, angle as real, num)] + Rotations(node, step, angle + step, num)
  }

  /** One turn of the loop moves the next rotated copy from the pending list
      onto the output. */
  lemma RotationsFirst(node: Vertex, step: int, angle: int, num: Numerics, done: seq<Vertex>)
    requires step >= 1 && angle < 360
    ensures done + Rotations(node, step, angle, num)
         == (done + [RotateY(node, angle as real, num)]) + Rotations(node, step, angle + step, num)
  {
  }

  /** Entry `k` of the rotated copies is the point turned by `angle + k * step`
      degrees. */
  lemma {:induction false} RotationsAt(node: Vertex, step: int, angle: int, num: Numerics, k: int)
    requires step >= 1 && 0 <= k < Visits(step, angle)
    ensures Rotations(node, step, angle, num)[k] == RotateY(node, (angle + k * step) as real, num)
    decreases 360 - angle
  {
    if k > 0 {
      RotationsAt(node, step, angle + step, num, k - 1);
      assert angle + step + (k - 1) * step == angle + k * step;
    }
  }

  /** The loop from `angle` visits the least number of angles whose steps
      cover `360 - angle` degrees: ceil((360 - angle) / step). */
  lemma {:induction false} VisitsIsCeiling(step: int, angle: int)
    requires step >= 1 && angle < 360
    ensures (Visits(step, angle) - 1) * step < 360 - angle <= Visits(step, angle) * step
    decreases 360 - angle
  {
    if angle + step < 360 {
      VisitsIsCeiling(step, angle + step);
    }
  }

  /** The entries one profile point contributes: its rotated copies, then the
      unrotated point itself. */
  function RingSize(edges: int): nat
    requires 1 <= edges <= 360
  {
    Visits(Step(edges), 0) + 1
  }

  /** The ring of one mapped profile point. */
  function Ring(node: Vertex, edges: int, num: Numerics): (r: seq<Vertex>)
    requires 1 <= edges <= 360
    ensures |r| == RingSize(edges) && r[|r| - 1] == node
  {
    Rotations(node, Step(edges), 0, num) + [node]
  }

  /** Every entry of a ring lies at the height of its profile point: the
      sweep only turns points about the vertical axis. */
  lemma RingKeepsHeight(node: Vertex, edges: int, num: Numerics, k: int)
    requires 1 <= edges <= 360 && 0 <= k < RingSize(edges)
    ensures Ring(node, edges, num)[k].y == node.y
  {
    if k < RingSize(edges) - 1 {
      RotationsAt(node, Step(edges), 0, num, k);
    }
  }

  lemma MulLessCancel(a: int, b: int, s: int)
    requires s >= 1 && a * s < b * s
    ensures a < b
  {
  }

  /** Arithmetic behind RingSizeBounds: with `s * e <= 360 < (s + 1) * e`
      (s = 360 / e) and `c = ceil(360 / s)`, c lies in [e, 2e] and equals e
      exactly when s * e = 360. */
  lemma CeilingBounds(s: int, e: int, c: int)
    requires s >= 1 && e >= 1 && s * e <= 360 < (s + 1) * e
    requires (c - 1) * s < 360 <= c * s
    ensures e <= c <= 2 * e
    ensures c == e <==> s * e == 360
  {
    MulLessCancel(e, c + 1, s);
    assert e <= s * e;
    MulLessCancel(c - 1, 2 * e, s);
    if s * e == 360 {
      MulLessCancel(c - 1, e, s);
    }
  }

  /** A ring has between `edges + 1` and `2 * edges + 1` entries, and exactly
      `edges + 1` (the stride the triangulation assumes) precisely when
      `edges` divides 360. Otherwise it is longer: 7 gives step 51 and 9
      entries, 200 gives step 1 and 361 entries. */
  lemma RingSizeBounds(edges: int)
    requires 1 <= edges <= 360
    ensures edges + 1 <= RingSize(edges) <= 2 * edges + 1
    ensures RingSize(edges) == edges + 1 <==> 360 % edges == 0
  {
    StepBounds(edges);
    VisitsIsCeiling(Step(edges), 0);
    CeilingBounds(Step(edges), edges, Visits(Step(edges), 0));
  }

  /** Under sound trigonometry the first entry of a ring (the copy rotated by
      zero degrees) and the last (the unrotated point) coincide: every ring is
      closed. */
  lemma RingClosed(node: Vertex, edges: int, num: Numerics)
    requires 1 <= edges <= 360 && SoundTrig(num)
    ensures var r := Ring(node, edges, num); SamePosition(r[0], r[|r| - 1])
  {
    var r := Ring(node, edges, num);
    assert r[0] == RotateY(node, 0.0, num);
    RotationByZero(node, num);
  }

  // ---------------------------------------------------------------- flatten

  /** `temporary`: the rings of the profile points, end to end in input order. */
  function Sweep(profile: seq<Point2D>, edges: int, num: Numerics): (temp: seq<Vertex>)
    requires 1 <= edges <= 360
  {
    if profile == [] then []
    else Sweep(profile[..|profile| - 1], edges, num) + Ring(MapPoint(profile[|profile| - 1]), edges, num)
  }

  /** Appending a point to the profile appends its ring. */
  lemma SweepSnoc(profile: seq<Point2D>, edges: int, num: Numerics, k: int)
    requires 1 <= edges <= 360 && 0 <= k < |profile|
    ensures Sweep(profile[..k + 1], edges, num) == Sweep(profile[..k], edges, num) + Ring(MapPoint(profile[k]), edges, num)
  {
    assert profile[..k + 1][..k] == profile[..k];
  }

  /** Flat index of the first entry of ring `k` when every ring has `size`
      entries: `k * size`, spelled as repeated addition so that the index
      arithmetic below stays linear (RingStartIsProduct links the two). */
  function RingStart(k: nat, size: nat): nat
  {
    if k == 0 then 0 else RingStart(k - 1, size) + size
  }

  lemma {:induction false} RingStartIsProduct(k: nat, size: nat)
    ensures RingStart(k, size) == k * size
  {
    if k > 0 {
      RingStartIsProduct(k - 1, size);
    }
  }

  lemma {:induction false} RingStartMonotone(k: nat, m: nat, size: nat)
    requires k <= m
    ensures RingStart(k, size) <= RingStart(m, size)
    decreases m
  {
    if k < m {
      RingStartMonotone(k, m - 1, size);
    }
  }

  /** The flat sequence holds one whole ring per profile point. */
  lemma {:induction false} SweepLength(profile: seq<Point2D>, edges: int, num: Numerics)
    requires 1 <= edges <= 360
    ensures |Sweep(profile, edges, num)| == RingStart(|profile|, RingSize(edges))
  {
    if profile != [] {
      SweepLength(profile[..|profile| - 1], edges, num);
    }
  }

  /** Entry `j` of ring `k` sits at flat index `RingStart(k, RingSize) + j`. */
  lemma {:induction false} SweepAt(profile: seq<Point2D>, edges: int, num: Numerics, k: nat, j: nat)
    requires 1 <= edges <= 360
    requires k < |profile| && j < RingSize(edges)
    ensures RingStart(k, RingSize(edges)) + j < |Sweep(profile, edges, num)|
    ensures Sweep(profile, edges, num)[RingStart(k, RingSize(edges)) + j] == Ring(MapPoint(profile[k]), edges, num)[j]
  {
    var prefix := profile[..|profile| - 1];
    SweepLength(prefix, edges, num);
    if k < |profile| - 1 {
      SweepAt(prefix, edges, num, k, j);
      assert prefix[k] == profile[k];
    }
  }

  /** The last entry of each ring is the mapped point itself, with z = 0. */
  lemma SweepRingLast(profile: seq<Point2D>, edges: int, num: Numerics, k: nat)
    requires 1 <= edges <= 360 && k < |profile|
    ensures var at := RingStart(k, RingSize(edges)) + RingSize(edges) - 1;
      && at < |Sweep(profile, edges, num)|
      && Sweep(profile, edges, num)[at] == MapPoint(profile[k])
      && Sweep(profile, edges, num)[at].z == 0.0
  {
    SweepAt(profile, edges, num, k, RingSize(edges) - 1);
  }

  // ---------------------------------------------------------------- stitch

  /** The shared normal of step `i`: the mean of the normals of (C, A, B) and
      (D, B, A). */
  function QuadNormal(temp: seq<Vertex>, lineWidth: int, i: int, num: Numerics): Vec3
    requires 1 <= lineWidth <= i < |temp|
  {
    var a, b, c, d := temp[i - lineWidth], temp[i], temp[i - lineWidth + 1], temp[i - 1];
    Average(CalculateNormal(c, a, b, num), CalculateNormal(d, b, a, num))
  }

  /** calculateNormal: normalised cross product of the two edges leaving the
      apex `a`. */
  function CalculateNormal(a: Vertex, b: Vertex, c: Vertex, num: Numerics): Vec3
  {
    num.normalized(Cross(Sub(b, a), Sub(c, a)))
  }

  /** The vector calculateNormal normalises is perpendicular to both edges of
      the triangle leaving its apex: it is the direction of the face normal. */
  lemma FaceNormalPerpendicular(a: Vertex, b: Vertex, c: Vertex)
    ensures Dot(Cross(Sub(b, a), Sub(c, a)), Sub(b, a)) == 0.0
    ensures Dot(Cross(Sub(b, a), Sub(c, a)), Sub(c, a)) == 0.0
  {
  }

  /** A triangle whose apex coincides with one of its other corners has the
      null vector as cross product, so its normal is whatever `normalized`
      makes of the null vector. */
  lemma CollapsedTriangleNormal(a: Vertex, b: Vertex, c: Vertex, num: Numerics)
    requires SamePosition(a, b) || SamePosition(a, c)
    ensures CalculateNormal(a, b, c, num) == num.normalized(Zero)
  {
    if SamePosition(a, b) {
      CrossWithZeroEdge(Sub(c, a));
    } else {
      CrossWithZeroEdge(Sub(b, a));
    }
  }

  /** The six vertices one step of the loop appends. */
  function Quad(temp: seq<Vertex>, lineWidth: int, i: int, num: Numerics): (r: seq<Vertex>)
    requires 1 <= lineWidth <= i < |temp|
    ensures |r| == 6
  {
    var n := QuadNormal(temp, lineWidth, i, num);
    var a := temp[i - lineWidth].(colors := n);
    var b := temp[i].(colors := n);
    var c := temp[i - lineWidth + 1].(colors := n);
    var d := temp[i - 1].(colors := n);
    [a, b, c, a, d, b]
  }

  /** A step appends triangles (A, B, C) and (A, D, B) with A, B, C, D the
      entries at `i - lineWidth`, `i`, `i - lineWidth + 1` and `i - 1`, all
      four corners carrying the same averaged normal. */
  lemma QuadShape(temp: seq<Vertex>, lineWidth: int, i: int, num: Numerics)
    requires 1 <= lineWidth <= i < |temp|
    ensures var r := Quad(temp, lineWidth, i, num);
      && r[3] == r[0] && r[5] == r[1]
      && SamePosition(r[0], temp[i - lineWidth]) && SamePosition(r[1], temp[i])
      && SamePosition(r[2], temp[i - lineWidth + 1]) && SamePosition(r[4], temp[i - 1])
      && r[0].colors == r[1].colors == r[2].colors == r[4].colors == QuadNormal(temp, lineWidth, i, num)
  {
  }

  /** What the triangulation loop emits for `i` in [lo, hi). */
  function Stitch(temp: seq<Vertex>, lineWidth: int, lo: int, hi: int, num: Numerics): seq<Vertex>
    requires 1 <= lineWidth <= lo && (hi <= lo || hi <= |temp|)
    decreases hi - lo
  {
    if hi <= lo then [] else Stitch(temp, lineWidth, lo, hi - 1, num) + Quad(temp, lineWidth, hi - 1, num)
  }

  /** One turn of the loop appends the quad of index `i`, as two triangles. */
  lemma StitchNext(temp: seq<Vertex>, lineWidth: int, lo: int, i: int, num: Numerics, first: seq<Vertex>, second: seq<Vertex>)
    requires 1 <= lineWidth <= lo <= i < |temp| && first + second == Quad(temp, lineWidth, i, num)
    ensures (Stitch(temp, lineWidth, lo, i, num) + first) + second == Stitch(temp, lineWidth, lo, i + 1, num)
  {
    var before := Stitch(temp, lineWidth, lo, i, num);
    assert (before + first) + second == before + (first + second);
  }

  lemma {:induction false} StitchLength(temp: seq<Vertex>, lineWidth: int, lo: int, hi: int, num: Numerics)
    requires 1 <= lineWidth <= lo && hi <= |temp|
    ensures |Stitch(temp, lineWidth, lo, hi, num)| == if hi <= lo then 0 else 6 * (hi - lo)
    decreases hi - lo
  {
    if lo < hi {
      StitchLength(temp, lineWidth, lo, hi - 1, num);
    }
  }

  /** Step `lo + s` of the loop fills positions `6 * s` to `6 * s + 5` of the
      output: the output is the steps' six-vertex groups in loop order. */
  lemma {:induction false} StitchAt(temp: seq<Vertex>, lineWidth: int, lo: int, hi: int, num: Numerics, s: int, t: int)
    requires 1 <= lineWidth <= lo && hi <= |temp| && 0 <= s < hi - lo && 0 <= t < 6
    ensures 6 * s + t < |Stitch(temp, lineWidth, lo, hi, num)|
    ensures Stitch(temp, lineWidth, lo, hi, num)[6 * s + t] == Quad(temp, lineWidth, lo + s, num)[t]
    decreases hi - lo
  {
    var prev, last := Stitch(temp, lineWidth, lo, hi - 1, num), Quad(temp, lineWidth, hi - 1, num);
    assert Stitch(temp, lineWidth, lo, hi, num) == prev + last;
    StitchLength(temp, lineWidth, lo, hi - 1, num);
    if s < hi - 1 - lo {
      StitchAt(temp, lineWidth, lo, hi - 1, num, s, t);
      assert (prev + last)[6 * s + t] == prev[6 * s + t];
    } else {
      assert lo + s == hi - 1 && |prev| == 6 * s;
      assert (prev + last)[|prev| + t] == last[t];
    }
  }

  // ---------------------------------------------------------------- the mesh

  /** The vertex list updatePoints builds from a profile (before upload). */
  function Mesh(profile: seq<Point2D>, edges: int, num: Numerics): seq<Vertex>
    requires 1 <= edges <= 360
  {
    var temp := Sweep(profile, edges, num);
    Stitch(temp, edges + 1, edges + 2, |temp| - (edges + 1), num)
  }

  /** The mesh has `6 * max(0, tempSize - 2 * lineWidth - 1)` vertices: two
      triangles for every loop index. */
  lemma MeshLength(profile: seq<Point2D>, edges: int, num: Numerics)
    requires 1 <= edges <= 360
    ensures var steps := |Sweep(profile, edges, num)| - 2 * (edges + 1) - 1;
      |Mesh(profile, edges, num)| == if steps <= 0 then 0 else 6 * steps
  {
    var temp := Sweep(profile, edges, num);
    StitchLength(temp, edges + 1, edges + 2, |temp| - (edges + 1), num);
  }

  /** With a ring of `lineWidth` entries, profiles of up to two points give an
      empty mesh. */
  lemma SmallProfileEmpty(profile: seq<Point2D>, edges: int, num: Numerics)
    requires 1 <= edges <= 360 && 360 % edges == 0 && |profile| <= 2
    ensures Mesh(profile, edges, num) == []
  {
    var w := RingSize(edges);
    RingSizeBounds(edges);
    SweepLength(profile, edges, num);
    RingStartMonotone(|profile|, 2, w);
    assert RingStart(2, w) == RingStart(1, w) + w == w + w;
    MeshLength(profile, edges, num);
  }

  /** A single point gives an empty mesh whatever `edges` is. */
  lemma SinglePointEmpty(p: Point2D, edges: int, num: Numerics)
    requires 1 <= edges <= 360
    ensures Mesh([p], edges, num) == []
  {
    RingSizeBounds(edges);
    SweepLength([p], edges, num);
    MeshLength([p], edges, num);
  }

  /** Two points do give triangles when the ring is longer than `lineWidth`
      (`edges` not dividing 360): here one step, stitched across the two
      misaligned rings. */
  lemma TwoPointsNonDivisor(p: Point2D, q: Point2D, num: Numerics)
    ensures |Mesh([p, q], 7, num)| == 6
  {
    assert Step(7) == 51;
    assert RingSize(7) == 9;
    SweepLength([p, q], 7, num);
    MeshLength([p, q], 7, num);
  }

  /** The loop reads no entry at or beyond its upper bound: two sequences that
      agree below `hi` stitch to the same output. */
  lemma {:induction false} StitchReadsPrefix(t1: seq<Vertex>, t2: seq<Vertex>, lineWidth: int, lo: int, hi: int, num: Numerics)
    requires 1 <= lineWidth <= lo && hi <= |t1| && hi <= |t2|
    requires forall m :: 0 <= m < hi ==> t1[m] == t2[m]
    ensures Stitch(t1, lineWidth, lo, hi, num) == Stitch(t2, lineWidth, lo, hi, num)
    decreases hi - lo
  {
    if lo < hi {
      StitchReadsPrefix(t1, t2, lineWidth, lo, hi - 1, num);
      var i := hi - 1;
      assert t1[i - lineWidth] == t2[i - lineWidth] && t1[i - lineWidth + 1] == t2[i - lineWidth + 1];
      assert t1[i - 1] == t2[i - 1] && t1[i] == t2[i];
      assert Quad(t1, lineWidth, i, num) == Quad(t2, lineWidth, i, num);
    }
  }

  /** The loop stops `lineWidth` entries short of the end of `temporary`, so
      with `edges` dividing 360 the ring of the last profile point is never
      read: the last point drawn has no effect on the mesh. */
  lemma LastPointUnused(profile: seq<Point2D>, p: Point2D, q: Point2D, edges: int, num: Numerics)
    requires 1 <= edges <= 360 && 360 % edges == 0
    ensures Mesh(profile + [p], edges, num) == Mesh(profile + [q], edges, num)
  {
    var base := Sweep(profile, edges, num);
    var t1, t2 := Sweep(profile + [p], edges, num), Sweep(profile + [q], edges, num);
    assert (profile + [p])[..|profile|] == profile;
    assert (profile + [q])[..|profile|] == profile;
    assert t1 == base + Ring(MapPoint(p), edges, num);
    assert t2 == base + Ring(MapPoint(q), edges, num);
    RingSizeBounds(edges);
    assert |t1| - (edges + 1) == |base| == |t2| - (edges + 1);
    forall m | 0 <= m < |base|
      ensures t1[m] == t2[m]
    {
      assert t1[m] == base[m] == t2[m];
    }
    StitchReadsPrefix(t1, t2, edges + 1, edges + 2, |base|, num);
  }

  // ---------------------------------------------------------------- the quads and the rings

  /** With `edges` dividing 360, entry `j` of ring `k` sits at flat index
      `i = RingStart(k, lineWidth) + j`. */
  lemma SweepAtDivisor(profile: seq<Point2D>, edges: int, num: Numerics, k: nat, j: nat, i: int)
    requires 1 <= edges <= 360 && 360 % edges == 0
    requires k < |profile| && j <= edges && i == RingStart(k, edges + 1) + j
    ensures RingSize(edges) == edges + 1
    ensures 0 <= i < |Sweep(profile, edges, num)|
    ensures Sweep(profile, edges, num)[i] == Ring(MapPoint(profile[k]), edges, num)[j]
  {
    RingSizeBounds(edges);
    SweepAt(profile, edges, num, k, j);
  }

  /** With `edges` dividing 360, a step `i = RingStart(k, lineWidth) + j` that
      stays inside ring `k` (0 < j < lineWidth - 1) takes A and C from angles
      j and j + 1 of ring k - 1. */
  lemma InteriorQuadPreviousRing(profile: seq<Point2D>, edges: int, num: Numerics, k: nat, j: nat, i: int)
    requires 1 <= edges <= 360 && 360 % edges == 0
    requires 1 <= k < |profile| && 1 <= j < edges && i == RingStart(k, edges + 1) + j
    ensures |Ring(MapPoint(profile[k - 1]), edges, num)| == edges + 1
    ensures edges + 1 <= i && i - edges < |Sweep(profile, edges, num)|
    ensures Sweep(profile, edges, num)[i - (edges + 1)] == Ring(MapPoint(profile[k - 1]), edges, num)[j]
    ensures Sweep(profile, edges, num)[i - (edges + 1) + 1] == Ring(MapPoint(profile[k - 1]), edges, num)[j + 1]
  {
    assert RingStart(k, edges + 1) == RingStart(k - 1, edges + 1) + (edges + 1);
    SweepAtDivisor(profile, edges, num, k - 1, j, i - (edges + 1));
    SweepAtDivisor(profile, edges, num, k - 1, j + 1, i - (edges + 1) + 1);
  }

  /** ... and D and B from angles j - 1 and j of ring k: an interior step
      stitches two neighbouring angles of two neighbouring rings. */
  lemma InteriorQuadCurrentRing(profile: seq<Point2D>, edges: int, num: Numerics, k: nat, j: nat, i: int)
    requires 1 <= edges <= 360 && 360 % edges == 0
    requires 1 <= k < |profile| && 1 <= j < edges && i == RingStart(k, edges + 1) + j
    ensures |Ring(MapPoint(profile[k]), edges, num)| == edges + 1
    ensures edges + 1 <= i < |Sweep(profile, edges, num)|
    ensures Sweep(profile, edges, num)[i - 1] == Ring(MapPoint(profile[k]), edges, num)[j - 1]
    ensures Sweep(profile, edges, num)[i] == Ring(MapPoint(profile[k]), edges, num)[j]
  {
    assert RingStart(k, edges + 1) == RingStart(k - 1, edges + 1) + (edges + 1);
    SweepAtDivisor(profile, edges, num, k, j - 1, i - 1);
    SweepAtDivisor(profile, edges, num, k, j, i);
  }

  /** The step at the start of ring `k` (i = RingStart(k, lineWidth)) has A
      (angle 0 of ring k - 1) and D (the unrotated point ending ring k - 1) in
      the same place, so its second triangle (A, D, B) is degenerate: the cross
      product behind its normal is the null vector. */
  lemma RingStartStepDegenerate(profile: seq<Point2D>, edges: int, num: Numerics, k: nat)
    requires 1 <= edges <= 360 && 360 % edges == 0 && SoundTrig(num)
    requires 2 <= k < |profile|
    ensures var temp, w, i := Sweep(profile, edges, num), edges + 1, RingStart(k, edges + 1);
      && w <= i < |temp|
      && SamePosition(temp[i - w], temp[i - 1])
      && Cross(Sub(temp[i], temp[i - 1]), Sub(temp[i - w], temp[i - 1])) == Zero
  {
    var w := edges + 1;
    var temp := Sweep(profile, edges, num);
    var i := RingStart(k, w);
    assert i == RingStart(k - 1, w) + w;
    SweepAtDivisor(profile, edges, num, k - 1, 0, i - w);
    SweepAtDivisor(profile, edges, num, k - 1, edges, i - 1);
    SweepAtDivisor(profile, edges, num, k, 0, i);
    RingClosed(MapPoint(profile[k - 1]), edges, num);
    CrossWithZeroEdge(Sub(temp[i], temp[i - 1]));
  }

  /** The step at the end of ring `k` (i = RingStart(k, lineWidth) + edges)
      has B (the unrotated point ending ring k) and C (angle 0 of ring k) in
      the same place, so its first triangle (A, B, C) is degenerate. */
  lemma RingEndStepDegenerate(profile: seq<Point2D>, edges: int, num: Numerics, k: nat)
    requires 1 <= edges <= 360 && 360 % edges == 0 && SoundTrig(num)
    requires 1 <= k < |profile|
    ensures var temp, w, i := Sweep(profile, edges, num), edges + 1, RingStart(k, edges + 1) + edges;
      && w <= i < |temp|
      && SamePosition(temp[i], temp[i - w + 1])
      && Cross(Sub(temp[i - w], temp[i - w + 1]), Sub(temp[i], temp[i - w + 1])) == Zero
  {
    var w := edges + 1;
    var temp := Sweep(profile, edges, num);
    var i := RingStart(k, w) + edges;
    assert RingStart(k, w) == RingStart(k - 1, w) + w;
    SweepAtDivisor(profile, edges, num, k, 0, i - w + 1);
    SweepAtDivisor(profile, edges, num, k, edges, i);
    SweepAtDivisor(profile, edges, num, k - 1, edges, i - w);
    RingClosed(MapPoint(profile[k]), edges, num);
    CrossWithZeroEdge(Sub(temp[i - w], temp[i - w + 1]));
  }

  /** QVector3D::normalized returns the null vector for the null vector. */
  ghost predicate SoundNormalize(num: Numerics)
  {
    num.normalized(Zero) == Zero
  }

  /** At the start of ring `k` only the first triangle (A, B, C) has area, and
      the normal all four corners get is half of its normal rather than a unit
      vector. */
  lemma RingStartStepNormal(profile: seq<Point2D>, edges: int, num: Numerics, k: nat)
    requires 1 <= edges <= 360 && 360 % edges == 0 && SoundTrig(num) && SoundNormalize(num)
    requires 2 <= k < |profile|
    ensures var temp, w, i := Sweep(profile, edges, num), edges + 1, RingStart(k, edges + 1);
      && w <= i < |temp|
      && QuadNormal(temp, w, i, num) == Average(CalculateNormal(temp[i - w + 1], temp[i - w], temp[i], num), Zero)
  {
    RingStartStepDegenerate(profile, edges, num, k);
  }

  /** At the end of ring `k` only the second triangle (A, D, B) has area, and
      the shared normal is half of its normal. */
  lemma RingEndStepNormal(profile: seq<Point2D>, edges: int, num: Numerics, k: nat)
    requires 1 <= edges <= 360 && 360 % edges == 0 && SoundTrig(num) && SoundNormalize(num)
    requires 1 <= k < |profile|
    ensures var temp, w, i := Sweep(profile, edges, num), edges + 1, RingStart(k, edges + 1) + edges;
      && w <= i < |temp|
      && QuadNormal(temp, w, i, num) == Average(Zero, CalculateNormal(temp[i - 1], temp[i], temp[i - w], num))
  {
    RingEndStepDegenerate(profile, edges, num, k);
  }
}
