/** Value types shared by the canvas and the mesher: the canvas point (QPointF),
    the 3-vector used for normals (QVector3D) and the mesh vertex of vertex.h.
    Single-precision floats are modelled as mathematical reals. */
module Geometry {

  /** A point on the drawing canvas, in canvas pixels (y grows downwards). */
  datatype Point2D = Point2D(x: real, y: real)

  /** A 3-vector; the mesher uses it for normals. */
  datatype Vec3 = Vec3(x: real, y: real, z: real)

  /** The null vector, which is also what a default-constructed QVector3D holds. */
  const Zero: Vec3 := Vec3(0.0, 0.0, 0.0)

  /** A mesh vertex: a position and the normal carried in its `colors` field. */
  datatype Vertex = Vertex(x: real, y: real, z: real, colors: Vec3)

  /** Size of the drawing area shared by the canvas bounds check and the
      canvas-to-model mapping. */
  const CanvasWidth: real := 300.0
  const CanvasHeight: real := 550.0

  /** Two vertices at the same place, whatever normals they carry. */
  predicate SamePosition(u: Vertex, v: Vertex)
  {
    u.x == v.x && u.y == v.y && u.z == v.z
  }

  /** The edge vector from `a` to `b`. */
  function Sub(b: Vertex, a: Vertex): (e: Vec3)
    ensures e == Zero <==> SamePosition(a, b)
  {
    Vec3(b.x - a.x, b.y - a.y, b.z - a.z)
  }

  /** QVector3D::crossProduct. */
  function Cross(u: Vec3, v: Vec3): Vec3
  {
    Vec3(u.y * v.z - u.z * v.y, u.z * v.x - u.x * v.z, u.x * v.y - u.y * v.x)
  }

  function Dot(u: Vec3, v: Vec3): real
  {
    u.x * v.x + u.y * v.y + u.z * v.z
  }

  /** `(normal + normal2) / 2.0f`: the componentwise mean of two normals. */
  function Average(n1: Vec3, n2: Vec3): (m: Vec3)
    ensures m.x + m.x == n1.x + n2.x && m.y + m.y == n1.y + n2.y && m.z + m.z == n1.z + n2.z
  {
    Vec3((n1.x + n2.x) / 2.0, (n1.y + n2.y) / 2.0, (n1.z + n2.z) / 2.0)
  }

  /** A zero-length edge makes the cross product the null vector. */
  lemma CrossWithZeroEdge(u: Vec3)
    ensures Cross(u, Zero) == Zero && Cross(Zero, u) == Zero
  {
  }
}
