/** The state MainView keeps for the mesh and the model transform, and the
    operations that update it. OpenGL calls are left out except for the one
    observable effect of glBufferData: the vertex buffer's new contents, kept
    here in the field `uploaded`. */
module View {
  import opened Geometry
  import opened Revolution

  /** The caller's QVector<QPointF>, which updatePoints takes by reference and
      clears. */
  class PointList {
    var items: seq<Point2D>

    constructor (items: seq<Point2D>)
      ensures this.items == items
    {
      this.items := items;
    }
  }

  class MainView {
    /** Angular resolution of the sweep; the window only sets divisors of 360. */
    var edges: int
    /** The triangle list being built; emptied once it is uploaded. */
    var myPoints: seq<Vertex>
    /** Number of vertices drawn by paintGL. */
    var mypointsSize: nat
    /** Contents of the vertex buffer object after the last upload. */
    var uploaded: seq<Vertex>
    var rotateX: int
    var rotateY: int
    var rotateZ: int
    var scale: real

    /** setRotation: stores the three angles (the matrix rebuild is left out). */
    method SetRotation(x: int, y: int, z: int)
      modifies this`rotateX, this`rotateY, this`rotateZ
      ensures rotateX == x && rotateY == y && rotateZ == z
      ensures scale == old(scale) && edges == old(edges)
    {
      rotateX := x;
      rotateY := y;
      rotateZ := z;
    }

    /** setScale: stores the scale factor (the matrix rebuild is left out). */
    method SetScale(s: real)
      modifies this`scale
      ensures scale == s
      ensures rotateX == old(rotateX) && rotateY == old(rotateY) && rotateZ == old(rotateZ)
    {
      scale := s;
    }

    /** updateBuffer: uploads myPoints, records how many vertices to draw and
        empties myPoints. */
    method UpdateBuffer()
      modifies this`uploaded, this`mypointsSize, this`myPoints
      ensures uploaded == old(myPoints) && mypointsSize == |old(myPoints)| && myPoints == []
    {
      uploaded := myPoints;
      mypointsSize := |myPoints|;
      myPoints := [];
    }

    /** The first half of updatePoints: each profile point, mapped to model
        space, is swept into its ring of rotated copies followed by the point
        itself, and the rings are appended to `temporary` in input order. */
    method SweepPoints(profile: seq<Point2D>, num: Numerics) returns (temporary: seq<Vertex>)
      requires 1 <= edges <= 360
      ensures temporary == Sweep(profile, edges, num)
    {
      temporary := [];
      var k := 0;
      while k < |profile|
        invariant 0 <= k <= |profile|
        invariant temporary == Sweep(profile[..k], edges, num)
      {
        var node := MapPoint(profile[k]);
        var step := Step(edges);
        ghost var before := temporary;
        var angle := 0;
        while angle < 360
          invariant temporary + Rotations(node, step, angle, num) == before + Rotations(node, step, 0, num)
          decreases 360 - angle
        {
          var aux := RotateY(node, angle as real, num);
          RotationsFirst(node, step, angle, num, temporary);
          temporary := temporary + [aux];
          angle := angle + step;
        }
        assert temporary == before + Rotations(node, step, 0, num);
        temporary := temporary + [node];
        SweepSnoc(profile, edges, num, k);
        k := k + 1;
      }
      assert profile[..k] == profile;
    }

    /** The second half of updatePoints: myPoints is cleared, then for every
        loop index `i` in [lineWidth + 1, tempSize - lineWidth) the corners
        A = temporary[i - lineWidth], B = temporary[i], C = temporary[i - lineWidth + 1]
        and D = temporary[i - 1] get the mean of the normals of (C, A, B) and
        (D, B, A), and triangles (A, B, C) and (A, D, B) are appended. */
    method Triangulate(temporary: seq<Vertex>, num: Numerics)
      requires 1 <= edges <= 360
      modifies this`myPoints
      ensures myPoints == Stitch(temporary, edges + 1, edges + 2, |temporary| - (edges + 1), num)
    {
      myPoints := [];
      var tempSize := |temporary|;
      var lineWidth := edges + 1;
      var i := lineWidth + 1;
      while i < tempSize - lineWidth
        invariant lineWidth + 1 <= i
        invariant i == lineWidth + 1 || i <= tempSize - lineWidth
        invariant myPoints == Stitch(temporary, lineWidth, lineWidth + 1, i, num)
      {
        var a, b, c, d := temporary[i - lineWidth], temporary[i], temporary[i - lineWidth + 1], temporary[i - 1];
        var normal := CalculateNormal(c, a, b, num);
        var normal2 := CalculateNormal(d, b, a, num);
        var shared := Average(normal, normal2);
        a, b, c, d := a.(colors := shared), b.(colors := shared), c.(colors := shared), d.(colors := shared);
        StitchNext(temporary, lineWidth, lineWidth + 1, i, num, [a, b, c], [a, d, b]);
        myPoints := myPoints + [a, b, c];
        myPoints := myPoints + [a, d, b];
        i := i + 1;
      }
      if i != tempSize - lineWidth {
        assert Stitch(temporary, lineWidth, lineWidth + 1, tempSize - lineWidth, num) == [];
      }
    }

    /** updatePoints: revolves the drawn profile into a triangle list and
        uploads it. An empty profile changes nothing; otherwise the profile is
        consumed, and the uploaded buffer and the drawn vertex count are the
        mesh of the profile. The step `360 / edges` needs 1 <= edges (no
        division by zero) and edges <= 360 (a zero step never ends the sweep). */
    method UpdatePoints(newPoints: PointList, num: Numerics)
      requires 1 <= edges <= 360
      modifies newPoints, this`myPoints, this`mypointsSize, this`uploaded
      ensures old(newPoints.items) == [] ==>
        && newPoints.items == []
        && myPoints == old(myPoints) && mypointsSize == old(mypointsSize) && uploaded == old(uploaded)
      ensures old(newPoints.items) != [] ==>
        && newPoints.items == [] && myPoints == []
        && uploaded == Mesh(old(newPoints.items), edges, num)
        && mypointsSize == |uploaded|
    {
      var profile := newPoints.items;
      if |profile| == 0 {
        return;
      }

      var temporary := SweepPoints(profile, num);

      newPoints.items := [];
      Triangulate(temporary, num);
      assert edges == old(edges);
      assert myPoints == Mesh(profile, edges, num);

      UpdateBuffer();
    }
  }
}
