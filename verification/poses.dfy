/** The motion of the three hazards: the parameters each hazard block draws
    once when it is mounted, and the pose it writes to its kinematic body on
    every frame (src/level.jsx:30-125). The clock, the random draws, sine and
    cosine are parameters; the quaternion and the engine call that receive
    the pose are not part of this model. */
module Poses {
  import opened Geometry
  import opened Blocks

  /** Math.PI, as the shortest decimal that reads back as that double. */
  const Pi: real := 3.141592653589793

  function Abs(v: real): real {
    if v < 0.0 then -v else v
  }

  /** What Math.random() can return. */
  predicate IsDraw(r: real) {
    0.0 <= r < 1.0
  }

  /** What Math.sin can return: `sin` stands for it, and nothing else about it
      is assumed. */
  ghost predicate IsSine(sin: real -> real) {
    forall v :: -1.0 <= sin(v) <= 1.0
  }

  /** The parameters a hazard block keeps in a ref for as long as it is
      mounted: an angular speed for the spinner, a phase offset for the limbo
      and the axe. */
  datatype Motion =
    | SpinnerMotion(speed: real)
    | LimboMotion(timeOffset: real)
    | AxeMotion(timeOffset: real)

  /** The ranges the spawn draws put the parameters in. */
  predicate ValidMotion(m: Motion) {
    match m
    case SpinnerMotion(speed) => 0.2 <= Abs(speed) < 1.2
    case LimboMotion(offset) => 0.0 <= offset < 2.0 * Pi
    case AxeMotion(offset) => 0.0 <= offset < 2.0 * Pi
  }

  /** The spinner's angular speed from two draws: the first sets the magnitude,
      the second the direction (negative below one half). */
  function SpinnerSpeed(magnitudeDraw: real, signDraw: real): (speed: real)
    ensures IsDraw(magnitudeDraw) ==> 0.2 <= Abs(speed) < 1.2
    ensures IsDraw(magnitudeDraw) ==> (speed < 0.0 <==> signDraw < 0.5)
  {
    (magnitudeDraw + 0.2) * (if signDraw < 0.5 then -1.0 else 1.0)
  }

  /** The phase offset of a limbo or an axe: a draw scaled to a full turn. */
  function TimeOffset(draw: real): (offset: real)
    ensures IsDraw(draw) ==> 0.0 <= offset < 2.0 * Pi
    ensures draw == 0.0 ==> offset == 0.0
  {
    draw * Pi * 2.0
  }

  /** The parameters a block of hazard `h` draws when it is mounted. The
      spinner consumes both draws; the limbo and the axe consume only the
      first. */
  function Spawn(h: Hazard, first: real, second: real): (m: Motion)
    ensures m.SpinnerMotion? <==> h == Spinner
    ensures m.LimboMotion? <==> h == Limbo
    ensures m.AxeMotion? <==> h == Axe
    ensures IsDraw(first) ==> ValidMotion(m)
  {
    match h
    case Spinner => SpinnerMotion(SpinnerSpeed(first, second))
    case Limbo => LimboMotion(TimeOffset(first))
    case Axe => AxeMotion(TimeOffset(first))
  }

  /** What a hazard block writes to its kinematic body on a frame: a turn about
      the vertical axis (spinner) or a world position (limbo, axe). */
  datatype Target = Rotation(yaw: real) | Translation(position: Vec3)

  /** The spinner's angle after `time` seconds: it starts square to the course
      and turns at a constant rate in the drawn direction. */
  function SpinnerYaw(speed: real, time: real): (yaw: real)
    ensures time == 0.0 ==> yaw == 0.0
    ensures time >= 0.0 ==> Abs(yaw) == time * Abs(speed)
    ensures time > 0.0 ==> (yaw < 0.0 <==> speed < 0.0)
  {
    time * speed
  }

  /** The limbo bar's position: it bobs vertically above its block and never
      moves across or along the course. */
  function LimboTranslation(position: Vec3, sin: real -> real, timeOffset: real, time: real): (p: Vec3)
    ensures p.x == position.x && p.z == position.z
    ensures -1.0 <= sin(time + timeOffset) <= 1.0 ==> position.y + 0.15 <= p.y <= position.y + 2.15
  {
    var y := sin(time + timeOffset) + 1.15;
    Vec3(position.x, position.y + y, position.z)
  }

  /** The axe blade's position: it swings across the course at a fixed height
      0.75 above its block. */
  function AxeTranslation(position: Vec3, sin: real -> real, timeOffset: real, time: real): (p: Vec3)
    ensures p.y == position.y + 0.75 && p.z == position.z
    ensures -1.0 <= sin(time + timeOffset) <= 1.0 ==> position.x - 1.25 <= p.x <= position.x + 1.25
  {
    var x := sin(time + timeOffset) * 1.25;
    Vec3(position.x + x, position.y + 0.75, position.z)
  }

  /** The frame update of a hazard block at `position`, `time` seconds after
      the clock started. */
  function PoseAt(m: Motion, position: Vec3, sin: real -> real, time: real): (t: Target)
    ensures t.Rotation? <==> m.SpinnerMotion?
    ensures t.Translation? ==> t.position.z == position.z
    ensures t.Translation? && IsSine(sin) ==> position.y < t.position.y
  {
    match m
    case SpinnerMotion(speed) => Rotation(SpinnerYaw(speed, time))
    case LimboMotion(offset) => Translation(LimboTranslation(position, sin, offset, time))
    case AxeMotion(offset) => Translation(AxeTranslation(position, sin, offset, time))
  }

  /** The limbo bar stays over its block's slab and its underside never goes
      below the top of that slab. */
  lemma LimboBarClearsFloor(position: Vec3, sin: real -> real, timeOffset: real, time: real)
    requires -1.0 <= sin(time + timeOffset) <= 1.0
    ensures var bar := Box(LimboTranslation(position, sin, timeOffset, time), ObstacleSize(Limbo));
            var slab := Slab(Trap(Limbo)).Moved(position);
            && bar.XSpan().Within(slab.XSpan())
            && bar.ZSpan().Within(slab.ZSpan())
            && slab.YSpan().hi <= bar.YSpan().lo
  {
  }

  /** At either end of its swing the axe blade just reaches the edge of its
      block's slab, and never goes past it. */
  lemma AxeBladeStaysOverSlab(position: Vec3, sin: real -> real, timeOffset: real, time: real)
    requires -1.0 <= sin(time + timeOffset) <= 1.0
    ensures var blade := Box(AxeTranslation(position, sin, timeOffset, time), ObstacleSize(Axe));
            var slab := Slab(Trap(Axe)).Moved(position);
            && blade.XSpan().Within(slab.XSpan())
            && blade.ZSpan().Within(slab.ZSpan())
            && slab.YSpan().hi <= blade.YSpan().lo
    ensures var blade := Box(AxeTranslation(position, sin, timeOffset, time), ObstacleSize(Axe));
            var slab := Slab(Trap(Axe)).Moved(position);
            && (sin(time + timeOffset) == 1.0 ==> blade.XSpan().hi == slab.XSpan().hi)
            && (sin(time + timeOffset) == -1.0 ==> blade.XSpan().lo == slab.XSpan().lo)
  {
  }

  /** A point turned about the vertical axis by the angle whose cosine is `c`
      and whose sine is `s` (the turn a quaternion built from
      Euler(0, yaw, 0) applies). */
  function TurnAboutY(c: real, s: real, p: Vec3): Vec3 {
    Vec3(c * p.x + s * p.z, p.y, c * p.z - s * p.x)
  }

  lemma SquareBound(v: real, b: real)
    requires 0.0 <= b && -b <= v <= b
    ensures v * v <= b * b
  {
    if v < 0.0 {
      assert v * v == (-v) * (-v);
    }
  }

  lemma SquareRoot(v: real, b: real)
    requires 0.0 < b && v * v < b * b
    ensures -b < v < b
  {
  }

  /** Whatever angle the spinner has turned to, every point of its bar stays
      strictly inside the footprint of its block's slab. */
  lemma SpinnerBarStaysOverSlab(c: real, s: real, p: Vec3)
    requires c * c + s * s == 1.0
    requires Box(Origin, ObstacleSize(Spinner)).XSpan().Contains(p.x)
    requires Box(Origin, ObstacleSize(Spinner)).ZSpan().Contains(p.z)
    ensures var q := TurnAboutY(c, s, p);
            var slab := Slab(Trap(Spinner));
            && slab.XSpan().lo < q.x < slab.XSpan().hi
            && slab.ZSpan().lo < q.z < slab.ZSpan().hi
  {
    var q := TurnAboutY(c, s, p);
    assert q.x * q.x + q.z * q.z == (c * c + s * s) * (p.x * p.x + p.z * p.z);
    SquareBound(p.x, 1.75);
    SquareBound(p.z, 0.15);
    assert q.x * q.x + q.z * q.z <= 3.085;
    assert 0.0 <= q.z * q.z && 0.0 <= q.x * q.x;
    SquareRoot(q.x, 2.0);
    SquareRoot(q.z, 2.0);
  }
}
