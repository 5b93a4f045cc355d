/** The static bounds of a course of `length` blocks: two side walls, an end
    wall and one floor collider, all on a single fixed rigid body
    (src/level.jsx:148-181). */
module CourseBounds {
  import opened Geometry

  /** The fixed geometry the bounds produce. The three walls are meshes whose
      colliders carry the body's coefficients; the floor is a separate cuboid
      collider with coefficients of its own. */
  datatype BoundsGeometry = BoundsGeometry(
    rightWall: Box,
    leftWall: Box,
    endWall: Box,
    wallSurface: Surface,
    floor: Box,
    floorSurface: Surface)

  /** The bounds of a course `length` blocks long. The side walls run from the
      front edge of the first block (z = 2) to the back edge of the last
      (z = -4·length + 2) with their inner faces at x = ±2; the end wall spans
      exactly the gap between them and is centred on that back edge; the
      floor collider has the same footprint as the gap between the walls,
      and the walls stand on its top face. Walls do not grip (friction 0),
      the floor does (friction 1), and everything bounces alike. */
  function Bounds(length: int): (b: BoundsGeometry)
    ensures b.rightWall.ZSpan() == Span(-4.0 * length as real + 2.0, 2.0)
    ensures b.leftWall.ZSpan() == b.rightWall.ZSpan()
    ensures b.rightWall.XSpan() == Span(2.0, 2.3)
    ensures b.leftWall.XSpan() == Span(-2.3, -2.0)
    ensures b.endWall.center.z == b.rightWall.ZSpan().lo
    ensures b.endWall.XSpan() == Span(b.leftWall.XSpan().hi, b.rightWall.XSpan().lo)
    ensures b.floor.XSpan() == b.endWall.XSpan()
    ensures b.floor.ZSpan() == b.rightWall.ZSpan()
    ensures b.floor.YSpan().hi == 0.0
    ensures b.rightWall.YSpan().lo == b.floor.YSpan().hi
    ensures b.leftWall.YSpan() == b.rightWall.YSpan() && b.endWall.YSpan() == b.rightWall.YSpan()
    ensures b.wallSurface.friction == 0.0 && b.floorSurface.friction == 1.0
    ensures b.wallSurface.restitution == 0.2 && b.floorSurface.restitution == 0.2
  {
    var len := length as real;
    BoundsGeometry(
      Box(Vec3(2.15, 0.75, -(len * 2.0) + 2.0), Vec3(0.3, 1.5, 4.0 * len)),
      Box(Vec3(-2.15, 0.75, -(len * 2.0) + 2.0), Vec3(0.3, 1.5, 4.0 * len)),
      Box(Vec3(0.0, 0.75, -(len * 4.0) + 2.0), Vec3(4.0, 1.5, 0.3)),
      Surface(0.2, 0.0),
      Cuboid(Vec3(0.0, -0.1, -(len * 2.0) + 2.0), Vec3(2.0, 0.1, 2.0 * len)),
      Surface(0.2, 1.0))
  }
}
