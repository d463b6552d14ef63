# Surface of revolution from a drawn profile

This project models the core of a small Qt/OpenGL program. The user draws a
stroke on a 2D canvas. The program revolves that stroke about the vertical axis
into a triangle mesh and uploads the mesh to a vertex buffer.

The model follows the program's own pipeline:

- **Canvas** (`Drawing`, `canvas.dfy`): the stroke buffer `points`. A left
  press restarts the stroke at the press position. A left drag appends each
  position that lies in the 300 x 550 drawing area. `getPoints` returns a copy.
  `paintEvent` draws one segment per pair of consecutive points.
- **Map** (`Revolution.MapToRange`, `Revolution.MapPoint`): each stroke point
  is mapped from canvas pixels to model space. x goes over [0, 300] -> [-1, 1], and
  y is flipped, [0, 550] -> [1, -1].
- **Sweep** (`Revolution.Ring`, `Revolution.Sweep`): each mapped point
  becomes a ring. The ring holds its copies rotated by 0, step, 2·step, ...
  degrees while the angle stays below 360, with `step = 360 / edges` in integer
  division, and then the unrotated point itself. The rings are laid end to end
  in `temporary`.
- **Stitch** (`Revolution.Quad`, `Revolution.Stitch`, `Revolution.Mesh`):
  the loop index `i` ranges over `[lineWidth + 1, tempSize - lineWidth)` with
  `lineWidth = edges + 1`. Each index appends triangles (A, B, C) and
  (A, D, B). The corners are A = `temporary[i - lineWidth]`,
  B = `temporary[i]`, C = `temporary[i - lineWidth + 1]` and
  D = `temporary[i - 1]`. All four carry the mean of the normals of (C, A, B)
  and (D, B, A).
- **State** (`View.MainView`): `UpdatePoints` performs the sweep (`SweepPoints`)
  and the triangulation (`Triangulate`), both as loops proved against the
  functions above. It then consumes the caller's point list and uploads the
  mesh (`UpdateBuffer`). `SetRotation` and `SetScale` store the transform
  parameters.
- **Window** (`Pipeline`): the edge counts the window offers, and what the
  canvas bounds check guarantees for the swept vertices.

The source's single-precision floats are modelled as mathematical reals.
Cosine, sine (of an angle in degrees) and `QVector3D::normalized` are
uninterpreted functions, held in a `Numerics` value. Lemmas that need
trigonometry assume `SoundTrig`: cos 0 = 1, sin 0 = 0 and cos² + sin² = 1.
Lemmas about the normal of a collapsed triangle assume `SoundNormalize`: the
null vector normalises to itself.

Behaviour of the code that the lemmas make explicit:

- The code is followed, not the doc comment. The doc comment of `getPoints`
  (src/canvas.cpp:21-25) says the buffer is cleared, but the code only copies
  it. `Drawing.Canvas.GetPoints` leaves `points` unchanged.
- A ring has `ceil(360 / step)` rotated copies plus the point itself. That is
  exactly `edges + 1 = lineWidth` entries only when `edges` divides 360, and at
  most `2·edges + 1` otherwise. Every value in the window's `stepAllowed` list
  divides 360. For other values, the stitch pairs entries of misaligned rings.
- The stitch stops `lineWidth` entries before the end of `temporary`. When
  `edges` divides 360 (every `stepAllowed` value does), the last ring starts
  exactly there, so it is never read and the last point drawn does not affect
  the mesh. Under the same condition a stroke of one or two points gives an
  empty mesh; a single point gives an empty mesh for every edge count. A
  non-empty stroke still replaces the uploaded buffer. For an edge count that
  does not divide 360 the rings are longer than `lineWidth`, and the last point
  can reach the mesh: with 7 edges, two points already give one step of
  6 vertices.
- Each ring ends with the unrotated point, and with exact trigonometry that is
  where its angle-0 copy lies. So when `edges` divides 360, the steps at a
  ring boundary have one zero-area triangle. If in addition `normalized` maps
  the null vector to itself, their shared normal is half the normal of the
  other triangle rather than a unit vector.

## Model

| member | source | states |
|---|---|---|
| Geometry.Sub | src/mainview.cpp:312-313 | an edge vector is null exactly when its two ends are in the same place |
| Geometry.Average | src/mainview.cpp:242-245 | each component of the shared normal is half the sum of the two triangle normals' components |
| Geometry.Cross | src/mainview.cpp:314 | no contract of its own: it is the crossProduct formula; `Geometry.CrossWithZeroEdge` and `Revolution.FaceNormalPerpendicular` state what it gives |
| Geometry.CrossWithZeroEdge | src/mainview.cpp:314 | a null edge makes the cross product null |
| Revolution.MapToRange | src/mainview.cpp:283-285 | the result divides the output range in the same proportion as `value` divides the input range |
| Revolution.MapToRangeEndpoints | src/mainview.cpp:283-285 | `inputMin` maps to `outputMin` and `inputMax` maps to `outputMax` |
| Revolution.MapToRangeAffine | src/mainview.cpp:283-285 | the map preserves affine combinations |
| Revolution.MapToRangeRoundTrip | src/mainview.cpp:283-285 | mapping back with the ranges swapped returns the original value |
| Revolution.MapPoint | src/mainview.cpp:211-214 | a mapped point lies on the plane z = 0 and carries the null normal |
| Revolution.MapPointBounds | src/mainview.cpp:213-214 | a point in [0,300]x[0,550] maps into [-1,1]²; left edge to x = -1, right edge to x = 1, top to y = 1, bottom to y = -1 |
| Revolution.MapPointOrientation | src/mainview.cpp:213-214 | x keeps its order and y is flipped |
| Revolution.RotateY | src/mainview.cpp:293-302 | rotation keeps the height and yields a null normal |
| Revolution.RotationKeepsRadius | src/mainview.cpp:297-299 | with sound trigonometry, rotation keeps the distance from the y axis |
| Revolution.RotationByZero | src/mainview.cpp:293-302 | with sound trigonometry, rotating by 0 degrees leaves the position unchanged |
| Revolution.Step | src/mainview.cpp:216 | for 1 <= edges <= 360, the step is between 1 and 360 |
| Revolution.StepBounds | src/mainview.cpp:216 | `edges` steps fit in a full turn and `edges` longer steps do not; the steps fill the turn exactly iff edges divides 360 |
| Revolution.Rotations | src/mainview.cpp:218-221 | the inner loop emits as many copies as it visits angles below 360 |
| Revolution.RotationsFirst | src/mainview.cpp:218-221 | one turn of the inner loop emits the copy at the current angle, then the remaining copies follow |
| Revolution.RotationsAt | src/mainview.cpp:218-221 | the k-th copy is the point rotated by `angle + k·step` degrees |
| Revolution.VisitsIsCeiling | src/mainview.cpp:218 | the number of angles visited is the ceiling of the remaining turn divided by the step |
| Revolution.Ring | src/mainview.cpp:216-222 | a ring has RingSize entries and ends with the unrotated point |
| Revolution.RingKeepsHeight | src/mainview.cpp:218-222 | every entry of a ring is at the height of its profile point |
| Revolution.RingSizeBounds | src/mainview.cpp:216-222 | edges + 1 <= ring size <= 2·edges + 1, and ring size == edges + 1 iff edges divides 360 |
| Revolution.RingClosed | src/mainview.cpp:218-222 | with sound trigonometry, a ring's first copy and its last entry are in the same place |
| Revolution.Sweep | src/mainview.cpp:204-223 | no contract of its own: `temporary` as the rings of the profile points end to end; `SweepSnoc`, `SweepLength`, `SweepAt` and `SweepRingLast` state its shape, and `View.MainView.SweepPoints` is proved to build it |
| Revolution.SweepSnoc | src/mainview.cpp:204-223 | one turn of the outer loop appends the ring of the next profile point |
| Revolution.RingStartIsProduct | src/mainview.cpp:230 | ring k starts at flat index k·ringSize |
| Revolution.SweepLength | src/mainview.cpp:204-223 | `temporary` has one ring per profile point |
| Revolution.SweepAt | src/mainview.cpp:204-223 | entry j of ring k of `temporary` is entry j of the ring of the k-th mapped point (rings in input order) |
| Revolution.SweepRingLast | src/mainview.cpp:222 | the last entry of each ring is the mapped profile point, with z = 0 |
| Revolution.CalculateNormal | src/mainview.cpp:311-315 | no contract of its own: `normalized` of the cross product of the two edges leaving the apex; `FaceNormalPerpendicular` and `CollapsedTriangleNormal` state what it gives |
| Revolution.FaceNormalPerpendicular | src/mainview.cpp:311-314 | the vector calculateNormal normalises is perpendicular to both edges of the triangle leaving its apex |
| Revolution.CollapsedTriangleNormal | src/mainview.cpp:311-315 | a triangle whose apex coincides with another corner gets `normalized` of the null vector |
| Revolution.QuadNormal | src/mainview.cpp:240-245 | no contract of its own: the mean of the normals of (C, A, B) and (D, B, A); `RingStartStepNormal` and `RingEndStepNormal` state its value at ring boundaries |
| Revolution.Quad | src/mainview.cpp:234-255 | one loop step emits exactly 6 vertices; `QuadShape` states which |
| Revolution.QuadShape | src/mainview.cpp:235-255 | a step appends A, B, C, A, D, B, with corners taken from indices i - lineWidth, i, i - lineWidth + 1 and i - 1, all carrying the same shared normal |
| Revolution.Stitch | src/mainview.cpp:233-257 | no contract of its own: the loop's output for indices [lo, hi); `StitchLength`, `StitchAt`, `StitchNext` and `StitchReadsPrefix` state its length, contents and order, and `View.MainView.Triangulate` is proved to build it |
| Revolution.StitchNext | src/mainview.cpp:247-256 | one turn of the triangulation loop appends its two triangles to the output so far |
| Revolution.StitchLength | src/mainview.cpp:233-257 | the loop emits 6 vertices per index of a non-empty range and none otherwise |
| Revolution.StitchAt | src/mainview.cpp:233-257 | output positions 6s..6s+5 are the six vertices of loop step lo + s, in loop order |
| Revolution.Mesh | src/mainview.cpp:229-257 | no contract of its own: the stitch of the sweep with `lineWidth = edges + 1` over [lineWidth + 1, tempSize - lineWidth); `MeshLength`, `SmallProfileEmpty`, `SinglePointEmpty`, `TwoPointsNonDivisor` and `LastPointUnused` state its properties, and `View.MainView.UpdatePoints` uploads it |
| Revolution.MeshLength | src/mainview.cpp:229-257 | the mesh has exactly 6·max(0, tempSize - 2·lineWidth - 1) vertices |
| Revolution.SmallProfileEmpty | src/mainview.cpp:229-233 | when edges divides 360, a profile of at most two points gives an empty mesh |
| Revolution.SinglePointEmpty | src/mainview.cpp:229-233 | a single point gives an empty mesh for every edge count |
| Revolution.TwoPointsNonDivisor | src/mainview.cpp:216-233 | with 7 edges (ring of 9 entries) two points give one misaligned step of 6 vertices |
| Revolution.StitchReadsPrefix | src/mainview.cpp:233-238 | the loop reads no entry at or beyond its bound, so inputs that agree below it give the same triangles |
| Revolution.LastPointUnused | src/mainview.cpp:229-233 | when edges divides 360, the last profile point has no effect on the mesh |
| Revolution.SweepAtDivisor | src/mainview.cpp:216-230 | when edges divides 360, entry j of ring k sits at index k·lineWidth + j |
| Revolution.InteriorQuadPreviousRing | src/mainview.cpp:235-237 | for an interior step, A and C are consecutive entries j, j + 1 of the previous ring |
| Revolution.InteriorQuadCurrentRing | src/mainview.cpp:236-238 | for an interior step, D and B are consecutive entries j - 1, j of the current ring |
| Revolution.RingStartStepDegenerate | src/mainview.cpp:235-241 | at the start of a ring, A and D coincide and the cross product behind the (D, B, A) normal is null |
| Revolution.RingEndStepDegenerate | src/mainview.cpp:235-240 | at the end of a ring, B and C coincide and the cross product behind the (C, A, B) normal is null |
| Revolution.RingStartStepNormal | src/mainview.cpp:240-245 | the shared normal at the start of a ring is half the normal of (C, A, B) |
| Revolution.RingEndStepNormal | src/mainview.cpp:240-245 | the shared normal at the end of a ring is half the normal of (D, B, A) |
| Drawing.Canvas.constructor | src/canvas.h:22 | the stroke buffer starts empty |
| Drawing.Canvas.MousePressEvent | src/userinput.cpp:20-25 | a left press makes the buffer exactly the press position; other buttons leave it unchanged; every point after the first stays in the drawing area |
| Drawing.Canvas.MouseMoveEvent | src/userinput.cpp:31-40 | a left drag inside [0,300)x[0,550) appends the position; anything else leaves the buffer unchanged; the old buffer is always a prefix of the new one |
| Drawing.Canvas.GetPoints | src/canvas.cpp:26-29 | returns exactly the current buffer and changes nothing, so repeated calls agree; every returned point after the first lies in the drawing area |
| Drawing.Canvas.PaintEvent | src/canvas.cpp:15-17 | draws max(0, size - 1) segments, the k-th joining points k and k + 1 |
| View.MainView.SetRotation | src/mainview.cpp:163-170 | sets the three rotation angles and leaves scale and edges unchanged |
| View.MainView.SetScale | src/mainview.cpp:177-181 | sets the scale and leaves the rotation angles unchanged |
| View.MainView.UpdateBuffer | src/mainview.cpp:266-273 | the buffer receives myPoints, the drawn count becomes its length, and myPoints is emptied |
| View.MainView.SweepPoints | src/mainview.cpp:202-223 | the nested loops build exactly `Sweep` of the profile |
| View.MainView.Triangulate | src/mainview.cpp:227-257 | clears myPoints, then the loop leaves exactly the stitched triangles of `temporary` in it |
| View.MainView.UpdatePoints | src/mainview.cpp:196-261 | empty input changes nothing; otherwise the input and myPoints end empty, the buffer holds the mesh of the profile and the drawn count is its length |
| Pipeline.AllowedEdgesDivideFullTurn | src/mainwindow.h:23 | every edge count the window offers is between 1 and 360 and divides 360 |
| Pipeline.AllowedEdgesGiveExactRings | src/mainwindow.h:23 | for every offered edge count, the steps fill the turn exactly and each ring has lineWidth entries |
| Pipeline.CheckedPointInUnitSquare | src/userinput.cpp:34 | a point that passed the canvas bounds check maps to -1 <= x < 1, -1 < y <= 1 |
| Pipeline.RotatedInUnitCylinder | src/mainview.cpp:293-302 | with sound trigonometry, a point of the z = 0 plane in the unit square stays in the unit cylinder under rotation |
| Pipeline.RingInUnitCylinder | src/mainview.cpp:216-222 | every entry of such a point's ring lies in the unit cylinder |
| Pipeline.SweptVertexInUnitCylinder | src/mainview.cpp:204-223 | every swept vertex from a bounds-checked stroke point lies in the unit cylinder about the y axis |

## Left out

- OpenGL calls (buffers, vertex arrays, shaders, `paintGL`, `initializeGL`, `resizeGL`, the destructor) are foreign calls. The one effect kept is the new buffer contents of `glBufferData`, as the field `uploaded`.
- `updateModel` and the `QMatrix4x4` transforms are library float matrices and are not modelled. `SetRotation` and `SetScale` store their parameters only.
- Single-precision rounding is not modelled: floats are reals. The sweep's float loop counter holds whole degrees up to 360, so it is modelled as an integer.
- `cos`, `sin` and `QVector3D::normalized` are uninterpreted functions. Properties that need their values assume `SoundTrig` or `SoundNormalize`.
- Revolution.MapToRange: requires distinct input bounds. The source would divide by zero, and both callers pass the fixed, distinct canvas bounds.
- Debug logging, `update()` repaint requests, the timer and Qt signals have no effect on the modelled state.
- `MainView::mousePressEvent` only takes focus and repaints.
- `QPainter` fill and draw calls are modelled as the list of segments `paintEvent` draws.
- The `MainWindow` slots, which set `edges` from the `stepAllowed` list: src/mainwindow.cpp is not part of this model. `UpdatePoints` only requires 1 <= edges <= 360, and the `Pipeline` lemmas state what the list guarantees.
