/** Vectors, axis-aligned boxes and collider surface coefficients: the
    vocabulary in which the course layout and its bounds are stated. */
module Geometry {

  /** A position, offset or size in world units. The course runs along -z,
      y points up. */
  datatype Vec3 = Vec3(x: real, y: real, z: real)

  const Origin := Vec3(0.0, 0.0, 0.0)

  function Plus(a: Vec3, b: Vec3): Vec3 {
    Vec3(a.x + b.x, a.y + b.y, a.z + b.z)
  }

  /** A closed interval [lo, hi] on one axis. */
  datatype Span = Span(lo: real, hi: real) {

    predicate Contains(v: real) {
      lo <= v <= hi
    }

    /** True if this interval lies inside `outer`. */
    predicate Within(outer: Span) {
      outer.lo <= lo && hi <= outer.hi
    }
  }

  /** The region taken by the shared 1×1×1 box geometry once a mesh scales it
      by `size` and places its centre at `center`. */
  datatype Box = Box(center: Vec3, size: Vec3) {

    function XSpan(): Span {
      Span(center.x - size.x / 2.0, center.x + size.x / 2.0)
    }

    function YSpan(): Span {
      Span(center.y - size.y / 2.0, center.y + size.y / 2.0)
    }

    function ZSpan(): Span {
      Span(center.z - size.z / 2.0, center.z + size.z / 2.0)
    }

    /** The same box seen from a parent whose origin sits at `origin`. */
    function Moved(origin: Vec3): Box {
      Box(Plus(center, origin), size)
    }
  }

  /** A cuboid collider is given by its half-extents, not its full size. */
  function Cuboid(center: Vec3, halfExtents: Vec3): (b: Box)
    ensures b.center == center
    ensures b.XSpan() == Span(center.x - halfExtents.x, center.x + halfExtents.x)
    ensures b.YSpan() == Span(center.y - halfExtents.y, center.y + halfExtents.y)
    ensures b.ZSpan() == Span(center.z - halfExtents.z, center.z + halfExtents.z)
  {
    Box(center, Vec3(2.0 * halfExtents.x, 2.0 * halfExtents.y, 2.0 * halfExtents.z))
  }

  /** The contact coefficients a collider hands to the physics engine. */
  datatype Surface = Surface(restitution: real, friction: real)
}
