/** The block components of the course: the start block, the three hazard
    blocks and the end block, with the floor slab and the rigid body each one
    carries (src/level.jsx:17-146). Meshes, materials and the end block's
    model are rendering only; what is kept is the geometry and the contact
    coefficients that reach the physics engine. */
module Blocks {
  import opened Wrappers
  import opened Geometry

  /** The hazard palette: one entry per hazard block component. */
  datatype Hazard = Spinner | Limbo | Axe

  /** What a course segment is. */
  datatype Kind = Start | Trap(hazard: Hazard) | End

  /** Distance between consecutive blocks along the course, and the side
      length of every floor slab. */
  const BlockLength: real := 4.0

  /** The floor slab mesh of a block, relative to the block's position: a
      4 × 0.2 × 4 box lowered by 0.1 so that its top is at the block's height,
      except on the end block, whose slab is centred on the block. */
  function Slab(kind: Kind): (b: Box)
    ensures b.XSpan() == Span(-BlockLength / 2.0, BlockLength / 2.0)
    ensures b.ZSpan() == Span(-BlockLength / 2.0, BlockLength / 2.0)
    ensures kind != End ==> b.YSpan() == Span(-0.2, 0.0)
    ensures kind == End ==> b.YSpan() == Span(-0.1, 0.1)
  {
    var scale := Vec3(4.0, 0.2, 4.0);
    match kind
    case End => Box(Vec3(0.0, 0.0, 0.0), scale)
    case _ => Box(Vec3(0.0, -0.1, 0.0), scale)
  }

  /** How the physics engine treats a rigid body. */
  datatype BodyType = Fixed | KinematicPosition

  /** A rigid body inside a block: its type, its offset from the block's
      position and the coefficients its colliders carry. */
  datatype Body = Body(bodyType: BodyType, offset: Vec3, surface: Surface)

  /** Restitution and friction of every obstacle body and of the end prop. */
  const SlipperySurface := Surface(0.2, 0.0)

  /** The rigid body a block carries: none on the start block, a kinematic
      obstacle 0.3 above the floor on each hazard block, and a fixed prop
      0.25 above the floor on the end block. */
  function BlockBody(kind: Kind): (b: Option<Body>)
    ensures b.Some? <==> kind != Start
    ensures b.Some? ==> b.value.surface.friction == 0.0 && b.value.surface.restitution == 0.2
    ensures b.Some? ==> (b.value.bodyType == KinematicPosition <==> kind.Trap?)
    ensures b.Some? ==> b.value.offset.x == 0.0 && b.value.offset.z == 0.0 && b.value.offset.y > 0.0
  {
    match kind
    case Start => None
    case Trap(_) => Some(Body(KinematicPosition, Vec3(0.0, 0.3, 0.0), SlipperySurface))
    case End => Some(Body(Fixed, Vec3(0.0, 0.25, 0.0), SlipperySurface))
  }

  /** The size of a hazard's obstacle mesh, which is also its collider: a
      long thin bar for the spinner and the limbo, a square blade for the
      axe. */
  function ObstacleSize(h: Hazard): (s: Vec3)
    ensures s.x > 0.0 && s.y > 0.0 && s.z > 0.0
    ensures s.x < BlockLength && s.z < BlockLength
  {
    match h
    case Spinner => Vec3(3.5, 0.3, 0.3)
    case Limbo => Vec3(3.5, 0.3, 0.3)
    case Axe => Vec3(1.5, 1.5, 0.3)
  }
}
