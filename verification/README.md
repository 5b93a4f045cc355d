# Obstacle course layout and run timer — a Dafny model

This project models the logic inside a small physics run/avoid game built on
React, three.js and the Rapier physics engine:

- **Course generation** (`src/level.jsx`): `Level` draws `count` hazards from a
  palette (`Spinner`, `Limbo`, `Axe`), one `Math.random()` draw per slot,
  places a start block at the origin, the hazard blocks four units apart along
  -z, and an end block after them, and sizes the `Bounds` to `count + 2`
  blocks. `Bounds` derives two side walls, an end wall and a floor collider
  from that length by fixed formulas.
- **Hazard motion** (`src/level.jsx`): each hazard block draws its motion
  parameters once when it is mounted (an angular speed for the spinner, a
  phase offset for the limbo and the axe) and on every frame writes a pose
  computed from the elapsed clock time to its kinematic body.
- **Timer and restart** (`src/Interface.jsx`): on every frame the interface
  derives the elapsed milliseconds from the run phase, the run's start and end
  timestamps and the wall clock; the Restart control is shown only once the
  run has ended.

Randomness, the clocks and `Math.sin` are inputs: draws are a sequence of
reals in [0, 1), the clock readings are numbers, and sine values are
parameters assumed only to lie in [-1, 1]. The spinner's turn is stated for
a cosine/sine pair (c, s) assumed to satisfy c² + s² = 1. With those as
inputs everything is integer and real arithmetic over sequences.

Modules: `Wrappers` (Option, Result), `Geometry` (vectors, axis intervals,
boxes, surface coefficients), `Blocks` (block kinds, floor slabs, rigid
bodies), `Poses` (spawn parameters and per-frame poses), `CourseBounds`
(`Bounds`), `Level` (generation and placement), `Interface` (timer, restart).

The code does not validate its inputs:

- An empty palette is not rejected up front: the loop indexes it and pushes
  `undefined`, which cannot be rendered. The model fails with
  `UndefinedBlockType` exactly when a block is drawn from an empty palette
  (`count > 0`); with `count <= 0` an empty palette is harmless.
- A negative `count` is not rejected either: the loop draws nothing, but the
  end block is still placed at z = -4(count + 1) and the bounds get length
  count + 2. The layout facts (blocks at z = -4i, bounds enclosing the course)
  are proved for `count >= 0`.
- The `seed` passed to `Level` is never read, so generation takes no seed and
  no determinism-by-seed property is stated.

## Model

| member | source | states |
|---|---|---|
| Geometry.Cuboid | src/level.jsx:173-175 | a collider given by half-extents covers centre ± half-extent on each axis |
| Blocks.Slab | src/level.jsx:17-141 | every block's floor slab covers x and z in [-2, 2] around the block; its top is at the block's height, except the end block's slab, which rises 0.1 above it |
| Blocks.BlockBody | src/level.jsx:50-142 | the start block has no body; every hazard body is kinematic and the end prop fixed; all of them have friction 0 and restitution 0.2 and sit above the floor on the block's axis |
| Blocks.ObstacleSize | src/level.jsx:50-122 | every obstacle has a positive size and is narrower than a block along x and z |
| Poses.SpinnerSpeed | src/level.jsx:33 | the spinner's speed magnitude lies in [0.2, 1.2) and it turns backwards exactly when the sign draw is below one half |
| Poses.TimeOffset | src/level.jsx:66 | a phase offset lies in [0, 2π) |
| Poses.Spawn | src/level.jsx:30-99 | each hazard gets the parameter of its own kind, within the ranges above |
| Poses.SpinnerYaw | src/level.jsx:34-37 | the spinner's angle is 0 at time 0, grows in magnitude at the speed's rate and turns in the speed's direction |
| Poses.LimboTranslation | src/level.jsx:67-70 | the limbo bar keeps its block's x and z, and its height stays within block height + [0.15, 2.15] |
| Poses.AxeTranslation | src/level.jsx:100-103 | the axe blade keeps its block's z at height + 0.75, and its x stays within the block's x ± 1.25 |
| Poses.PoseAt | src/level.jsx:34-103 | the spinner writes only a rotation, the others only a translation that stays on the block's z and above its floor |
| Poses.LimboBarClearsFloor | src/level.jsx:66-87 | the limbo bar stays over its slab and its underside never goes below the slab's top |
| Poses.AxeBladeStaysOverSlab | src/level.jsx:99-118 | the axe blade's swing stays over its slab, just reaching the slab's edge at either extreme |
| Poses.SpinnerBarStaysOverSlab | src/level.jsx:33-54 | at any angle every point of the spinner bar stays strictly inside its slab's footprint |
| CourseBounds.Bounds | src/level.jsx:148-181 | side walls span z in [-4L + 2, 2] with inner faces at x = ±2; the end wall fills the gap between them at the walls' far end; the floor collider has the same footprint and the walls stand on it; walls have friction 0, the floor friction 1, all restitution 0.2 |
| Level.PickIndex | src/level.jsx:193 | a draw in [0, 1) selects an index in [0, n) |
| Level.Pick | src/level.jsx:193 | a draw selects a palette entry exactly when the palette is non-empty, and what it selects is in the palette |
| Level.PickIndexIsUniform | src/level.jsx:193 | index k is selected by exactly the draws in [k/n, (k+1)/n), an interval of the same width for every index |
| Level.DrawInterior | src/level.jsx:189-197 | the interior has one entry per draw, each the palette entry its draw selects; it fails exactly when a block is drawn from an empty palette |
| Level.Place | src/level.jsx:199-202 | the course is the start block at the origin, the interior hazards in order, then the end block |
| Level.PlaceAlongAxis | src/level.jsx:200-202 | block i is at (0, 0, -4i), consecutive blocks are 4 apart and z strictly decreases along the course |
| Level.SlabsTile | src/level.jsx:199-202 | each block's slab begins exactly where the previous block's slab ends |
| Level.EndWallFlush | src/level.jsx:202-203 | the end wall stands on the back edge of the end block's slab, where the side walls and the floor collider also end |
| Level.DefaultCourse | src/level.jsx:184-203 | with the default count of five and the default palette (spinner, axe, limbo), an interior drawn as the loop draws it is laid out as seven blocks whose five hazards are chosen by the third of [0, 1) each draw falls in, the end block at z = -24, side walls 28 long and the end wall at z = -26 |
| Level.DefaultPick | src/level.jsx:186-193 | with the default palette a draw below 1/3 selects the spinner, one in [1/3, 2/3) the axe and one from 2/3 up the limbo bar, each exactly |
| Level.BoundsEncloseCourse | src/level.jsx:199-203 | every slab lies over the floor collider and between the side walls, and the floor collider runs exactly from the start slab's front edge to the end slab's back edge |
| Level.FloorHasNoGaps | src/level.jsx:199-203 | every point along the floor collider's length lies on some block's slab |
| Level.Level | src/level.jsx:183-205 | the level fails exactly when drawing from an empty palette; otherwise it has count + 2 blocks (start at the origin, the hazards each draw selects in draw order, end at z = -4(count + 1)) and the bounds of length count + 2 with the end wall on the end slab's back edge; for count >= 0 block i is at (0, 0, -4i) and the bounds enclose the course, the side walls spanning exactly the floor collider's length |
| Level.Layout | src/level.jsx:199-203 | placing a drawn interior gives the start block, the interior hazards in order and the end block, with bounds of length count + 2 whose end wall is flush with the end slab; for count >= 0 block i is at (0, 0, -4i) and the bounds enclose the blocks |
| Level.PicksInOrder | src/level.jsx:192-201 | the hazard block in slot i is the palette entry selected by draw i |
| Interface.ElapsedMillis | src/Interface.jsx:13-18 | the elapsed time is 0 before the run, the time since the start while playing, and the run's duration (non-negative when the run ended after it started) once ended |
| Interface.EndedIgnoresClock | src/Interface.jsx:17-18 | once ended, the elapsed time does not depend on the clock |
| Interface.PlayingIsMonotone | src/Interface.jsx:15-16 | while playing, a later clock reading never shows a smaller time |
| Interface.FreezesWithoutJump | src/Interface.jsx:15-18 | the frozen time equals what the running timer showed at the end instant, is non-negative, and is at least every earlier reading |
| Interface.RestartOnlyWhenFrozen | src/Interface.jsx:14-32 | `RestartVisible` (phase is ended) holds exactly when a run has begun and its timer no longer follows the clock; the control is hidden while the run is timed |

## Left out

- Rendering: meshes, materials, the shared box geometry, the end block's
  model loading and shadow flags. Only the boxes the meshes occupy are kept.
- The end prop's collider is a convex hull of a loaded model whose shape is
  not known here; only its body type, offset and coefficients are modelled.
- Physics engine calls: body creation, `setNextKinematicRotation`,
  `setNextKinematicTranslation` and the quaternion built from the Euler
  angle. The model computes the values they receive; the turn of the spinner
  bar is stated for any cosine/sine pair with c² + s² = 1.
- The React lifecycle: `useFrame`, `useRef`, `useMemo`, and the frame-effect
  subscription and its cleanup. No memoization or layout-stability property
  is stated: the default palette literal is a new array on every render.
- `Math.random`, `Date.now`, the frame clock and `Math.sin`/`Math.cos` are
  inputs, not modelled. The order in which separate block components consume
  draws is up to React, so each component's draws are separate parameters.
- JavaScript number semantics: counts and timestamps are mathematical
  integers and positions exact reals, so double rounding (in `-(length * 2) + 2`,
  in `r * n`) and non-integer counts are not modelled. `Math.PI` is taken as the
  decimal 3.141592653589793, the shortest decimal that converts back to the
  same double; the double's exact value is about 1.2e-16 larger.
- Formatting of the timer (division by 1000, `toFixed(2)`) and the check that
  the timer element exists before writing to it.
- The keyboard controls display of the interface.
- The game store: its phase transitions, restart action and how it sets the
  timestamps. Phase, start time and end time are inputs; the store's phases
  are the three in `Phase`, and any other phase value would show 0 like `Ready`.
- The default props: `Bounds`' default length of 1 and the block components'
  default position are never used by `Level`, which always passes both.
- `src/Experience.jsx`, which only wires the store's count and seed into `Level`.
