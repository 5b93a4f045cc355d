/** Course generation (src/level.jsx:183-205): draw one hazard per interior
    slot from the palette, lay the blocks out along -z four units apart
    between a start and an end block, and size the bounds to the whole
    course. The draws of Math.random() are an input; the seed the caller
    passes is never read, so it is not a parameter. */
module Level {
  import opened Wrappers
  import opened Geometry
  import opened Blocks
  import opened CourseBounds

  /** The number of interior blocks when none is given. */
  const DefaultCount := 5

  /** The palette when none is given. */
  const DefaultTypes := [Spinner, Axe, Limbo]

  /** How many times the generation loop runs: never for a negative count. */
  function Iterations(count: int): nat {
    if count < 0 then 0 else count
  }

  /** Every element is something Math.random() can return. */
  predicate AreDraws(draws: seq<real>) {
    forall i :: 0 <= i < |draws| ==> 0.0 <= draws[i] < 1.0
  }

  /** Math.floor(r * n): the palette index a draw selects. */
  function PickIndex(n: nat, r: real): (k: int)
    ensures 0.0 <= r ==> 0 <= k
    ensures 0.0 <= r < 1.0 && n > 0 ==> k < n
  {
    if 0.0 <= r < 1.0 && n > 0 then PickIndexInRange(n, r); (r * n as real).Floor
    else (r * n as real).Floor
  }

  lemma PickIndexInRange(n: nat, r: real)
    requires 0.0 <= r < 1.0 && n > 0
    ensures 0 <= (r * n as real).Floor < n
  {
    ScaleBelow(r, n as real);
    var x := r * n as real;
    assert x.Floor as real <= x;
  }

  lemma ScaleBelow(r: real, m: real)
    requires 0.0 <= r < 1.0 && 0.0 < m
    ensures 0.0 <= r * m < m
  {
    assert m - r * m == (1.0 - r) * m;
  }

  /** The palette entry a draw selects, or None where JavaScript's index
      would read `undefined` (only an empty palette). */
  function Pick(types: seq<Hazard>, r: real): (h: Option<Hazard>)
    ensures 0.0 <= r < 1.0 ==> (h.Some? <==> |types| > 0)
    ensures h.Some? ==> h.value in types
  {
    var k := PickIndex(|types|, r);
    if 0 <= k < |types| then Some(types[k]) else None
  }

  /** An `undefined` entry in the block list cannot be rendered. */
  datatype LevelError = UndefinedBlockType

  /** The interior hazards, one draw per loop iteration. Each entry is the
      palette entry its draw selects; an empty palette fails as soon as one
      block is drawn. */
  method DrawInterior(count: int, types: seq<Hazard>, draws: seq<real>)
    returns (r: Result<seq<Hazard>, LevelError>)
    requires |draws| == Iterations(count)
    requires AreDraws(draws)
    ensures r.Failure? <==> count > 0 && |types| == 0
    ensures r.Success? ==> |r.value| == |draws|
    ensures r.Success? ==> forall i :: 0 <= i < |r.value| ==> r.value[i] in types
    ensures r.Success? ==> forall i :: 0 <= i < |r.value| && i < |draws| ==> Pick(types, draws[i]) == Some(r.value[i])
  {
    var blocks: seq<Hazard> := [];
    var i := 0;
    while i < count
      invariant 0 <= i <= Iterations(count)
      invariant |blocks| == i
      invariant forall j :: 0 <= j < i ==> Pick(types, draws[j]) == Some(blocks[j])
    {
      var picked := Pick(types, draws[i]);
      if picked.None? {
        return Failure(UndefinedBlockType);
      }
      blocks := blocks + [picked.value];
      i := i + 1;
    }
    if count > 0 {
      assert Pick(types, draws[0]) == Some(blocks[0]);
    }
    return Success(blocks);
  }

  /** Each palette index is selected by draws from an interval of width 1/n,
      so uniform draws pick every palette entry equally often. */
  lemma PickIndexIsUniform(n: nat, k: int, r: real)
    requires n > 0
    ensures PickIndex(n, r) == k <==> k as real / n as real <= r < (k + 1) as real / n as real
  {
    var m := n as real;
    var x := r * m;
    BelowQuotient(k as real, r, m);
    BelowQuotient((k + 1) as real, r, m);
    assert PickIndex(n, r) == k <==> k as real <= x < (k + 1) as real;
  }

  /** Comparing a draw with a/m is comparing the scaled draw with a. */
  lemma BelowQuotient(a: real, r: real, m: real)
    requires 0.0 < m
    ensures a / m <= r <==> a <= r * m
    ensures r < a / m <==> r * m < a
  {
    var q := a / m;
    assert q * m == a;
    assert r * m - a == (r - q) * m;
    if r >= q {
      assert (r - q) * m >= 0.0;
    } else {
      assert (r - q) * m < 0.0;
    }
  }

  /** A block of the course and where it is placed. */
  datatype Block = Block(kind: Kind, position: Vec3)

  /** The start block at the origin, the interior blocks behind it, the end
      block after `count` interior slots. */
  function Place(count: int, interior: seq<Hazard>): (course: seq<Block>)
    ensures |course| == |interior| + 2
    ensures course[0] == Block(Start, Origin)
    ensures course[|course| - 1].kind == End
    ensures forall i :: 0 < i < |course| - 1 ==> course[i].kind == Trap(interior[i - 1])
  {
    [Block(Start, Vec3(0.0, 0.0, 0.0))]
    + seq(|interior|, i requires 0 <= i < |interior| =>
            Block(Trap(interior[i]), Vec3(0.0, 0.0, -((i + 1) as real) * 4.0)))
    + [Block(End, Vec3(0.0, 0.0, -((count + 1) as real) * 4.0))]
  }

  /** Where a block's floor slab is in the world. */
  function WorldSlab(b: Block): Box {
    Slab(b.kind).Moved(b.position)
  }

  /** When the interior has `count` blocks, block i of the course sits on the
      course axis at z = -4i: consecutive blocks are a block length apart and
      the course runs strictly away from the start. */
  lemma PlaceAlongAxis(count: nat, interior: seq<Hazard>)
    requires |interior| == count
    ensures var course := Place(count, interior);
            && (forall i :: 0 <= i < |course| ==> course[i].position == Vec3(0.0, 0.0, -4.0 * i as real))
            && (forall i :: 0 < i < |course| ==> course[i].position.z == course[i - 1].position.z - BlockLength)
            && (forall i, j :: 0 <= i < j < |course| ==> course[j].position.z < course[i].position.z)
  {
  }

  /** Block i of the course sits on the course axis at z = -4i. */
  ghost predicate OnAxis(course: seq<Block>) {
    forall i :: 0 <= i < |course| ==> course[i].position == Vec3(0.0, 0.0, -4.0 * i as real)
  }

  /** The floor slabs tile the course: each block's slab begins exactly where
      the previous one ends. */
  lemma SlabsTile(count: nat, interior: seq<Hazard>)
    requires |interior| == count
    ensures var course := Place(count, interior);
            forall i :: 0 < i < |course| ==> WorldSlab(course[i]).ZSpan().hi == WorldSlab(course[i - 1]).ZSpan().lo
  {
    PlaceAlongAxis(count, interior);
  }

  /** The end wall stands on the back edge of the end block's slab, which is
      also where the side walls and the floor collider end. */
  lemma EndWallFlush(count: int, interior: seq<Hazard>)
    ensures var course := Place(count, interior);
            var b := Bounds(count + 2);
            && b.endWall.center.z == WorldSlab(course[|course| - 1]).ZSpan().lo
            && b.endWall.center.z == b.rightWall.ZSpan().lo
            && b.endWall.center.z == b.floor.ZSpan().lo
  {
  }

  /** The course fits its bounds: every slab lies over the floor collider,
      between the side walls, and the floor collider reaches exactly from the
      front edge of the start slab to the back edge of the end slab. */
  ghost predicate Enclosed(course: seq<Block>, b: BoundsGeometry) {
    && |course| > 0
    && (forall i :: 0 <= i < |course| ==>
          && WorldSlab(course[i]).XSpan().Within(b.floor.XSpan())
          && WorldSlab(course[i]).ZSpan().Within(b.floor.ZSpan())
          && WorldSlab(course[i]).XSpan().Within(Span(b.leftWall.XSpan().hi, b.rightWall.XSpan().lo)))
    && b.floor.ZSpan() == Span(WorldSlab(course[|course| - 1]).ZSpan().lo, WorldSlab(course[0]).ZSpan().hi)
    && b.rightWall.ZSpan() == b.floor.ZSpan()
    && b.leftWall.ZSpan() == b.floor.ZSpan()
  }

  lemma BoundsEncloseCourse(count: nat, interior: seq<Hazard>)
    requires |interior| == count
    ensures Enclosed(Place(count, interior), Bounds(count + 2))
  {
    PlaceAlongAxis(count, interior);
  }

  /** The slabs leave no gap: every point along the floor collider's length
      lies on the slab of some block. */
  lemma {:induction false} FloorHasNoGaps(count: nat, interior: seq<Hazard>, z: real)
    requires |interior| == count
    requires Bounds(count + 2).floor.ZSpan().Contains(z)
    ensures var course := Place(count, interior);
            exists i :: 0 <= i < |course| && WorldSlab(course[i]).ZSpan().Contains(z)
  {
    var course := Place(count, interior);
    var L := count + 2;
    var b := Bounds(L);
    assert b.floor.ZSpan() == Span(-4.0 * L as real + 2.0, 2.0);
    var q := (2.0 - z) / 4.0;
    assert 0.0 <= q <= L as real;
    FloorBrackets(q);
    var k := q.Floor;
    assert k as real <= q < k as real + 1.0;
    assert 0 <= k <= L;
    if k == L {
      k := L - 1;
    }
    assert k as real <= q <= k as real + 1.0;
    assert -4.0 * k as real - 2.0 <= z <= -4.0 * k as real + 2.0;
    PlacedAt(count, interior, k);
    assert course[k].position.z == -4.0 * k as real;
    assert WorldSlab(course[k]).ZSpan() == Span(-4.0 * k as real - 2.0, -4.0 * k as real + 2.0);
    assert WorldSlab(course[k]).ZSpan().Contains(z);
  }

  /** A real lies between its floor and the next integer. */
  lemma FloorBrackets(q: real)
    ensures q.Floor as real <= q < q.Floor as real + 1.0
  {
  }

  /** Block k of a course with `count` interior blocks is at (0, 0, -4k). */
  lemma PlacedAt(count: nat, interior: seq<Hazard>, k: nat)
    requires |interior| == count
    requires k < count + 2
    ensures Place(count, interior)[k].position == Vec3(0.0, 0.0, -4.0 * k as real)
  {
  }

  /** The default level: with the default count and palette, an interior
      drawn as the generation loop draws it is laid out as seven blocks, the
      five between start and end being the spinner for a draw below 1/3, the
      axe for one in [1/3, 2/3) and the limbo bar above; the end block is at
      z = -24, walled in by 28-unit side walls and an end wall at z = -26. */
  lemma DefaultCourse(draws: seq<real>, interior: seq<Hazard>)
    requires |draws| == |interior| == DefaultCount && AreDraws(draws)
    requires forall i :: 0 <= i < |interior| ==> Pick(DefaultTypes, draws[i]) == Some(interior[i])
    ensures var course := Place(DefaultCount, interior);
            var b := Bounds(DefaultCount + 2);
            && |course| == 7
            && (forall i :: 0 < i < 6 ==>
                  && (course[i].kind == Trap(Spinner) <==> draws[i - 1] < 1.0 / 3.0)
                  && (course[i].kind == Trap(Axe) <==> 1.0 / 3.0 <= draws[i - 1] < 2.0 / 3.0)
                  && (course[i].kind == Trap(Limbo) <==> 2.0 / 3.0 <= draws[i - 1]))
            && course[6] == Block(End, Vec3(0.0, 0.0, -24.0))
            && b.rightWall.size.z == 28.0 && b.leftWall.size.z == 28.0
            && b.endWall.center.z == -26.0
  {
    var course := Place(DefaultCount, interior);
    forall i | 0 < i < 6
      ensures && (course[i].kind == Trap(Spinner) <==> draws[i - 1] < 1.0 / 3.0)
              && (course[i].kind == Trap(Axe) <==> 1.0 / 3.0 <= draws[i - 1] < 2.0 / 3.0)
              && (course[i].kind == Trap(Limbo) <==> 2.0 / 3.0 <= draws[i - 1])
    {
      DefaultPick(draws[i - 1], interior[i - 1]);
    }
  }

  /** With the default palette, the thirds of [0, 1) select the spinner, the
      axe and the limbo bar in turn. */
  lemma DefaultPick(r: real, h: Hazard)
    requires 0.0 <= r < 1.0
    requires Pick(DefaultTypes, r) == Some(h)
    ensures h == Spinner <==> r < 1.0 / 3.0
    ensures h == Axe <==> 1.0 / 3.0 <= r < 2.0 / 3.0
    ensures h == Limbo <==> 2.0 / 3.0 <= r
  {
    PickIndexIsUniform(3, 0, r);
    PickIndexIsUniform(3, 1, r);
    PickIndexIsUniform(3, 2, r);
  }

  /** A generated course: its blocks and the bounds around them. */
  datatype Course = Course(blocks: seq<Block>, bounds: BoundsGeometry)

  /** What a successful generation yields for `count` slots, a palette and
      the loop's draws: count + 2 blocks (the start block at the origin, the
      drawn hazards in draw order, the end block at z = -4(count + 1)), and
      the bounds for length count + 2, whose end wall stands on the end
      block's back edge. For a non-negative count the bounds are sized by
      the number of blocks, block i is at (0, 0, -4i) and the bounds enclose
      the course. */
  ghost predicate Generated(count: int, types: seq<Hazard>, draws: seq<real>, c: Course)
    requires |draws| == Iterations(count)
  {
    && |c.blocks| == Iterations(count) + 2
    && c.blocks[0] == Block(Start, Origin)
    && c.blocks[|c.blocks| - 1] == Block(End, Vec3(0.0, 0.0, -4.0 * (count + 1) as real))
    && (forall i :: 0 < i < |c.blocks| - 1 ==>
          && c.blocks[i].kind.Trap?
          && c.blocks[i].kind.hazard in types
          && Pick(types, draws[i - 1]) == Some(c.blocks[i].kind.hazard))
    && c.bounds == Bounds(count + 2)
    && c.bounds.endWall.center.z == WorldSlab(c.blocks[|c.blocks| - 1]).ZSpan().lo
    && (count >= 0 ==>
          && c.bounds == Bounds(|c.blocks|)
          && OnAxis(c.blocks)
          && Enclosed(c.blocks, c.bounds))
  }

  /** The level for `count` interior slots, a palette and the loop's draws.
      It fails exactly when an interior block is drawn from an empty palette;
      otherwise it is the course the draws generate. */
  method Level(count: int, types: seq<Hazard>, draws: seq<real>) returns (r: Result<Course, LevelError>)
    requires |draws| == Iterations(count)
    requires AreDraws(draws)
    ensures r.Failure? <==> count > 0 && |types| == 0
    ensures r.Success? ==> Generated(count, types, draws, r.value)
  {
    var drawn := DrawInterior(count, types, draws);
    if drawn.Failure? {
      return Failure(drawn.error);
    }
    var course := Layout(count, types, draws, drawn.value);
    r := Success(course);
  }

  /** What the level renders for a drawn interior: the placed blocks and the
      bounds sized to count + 2 blocks. */
  method Layout(count: int, types: seq<Hazard>, draws: seq<real>, interior: seq<Hazard>) returns (c: Course)
    requires |interior| == |draws| == Iterations(count)
    requires forall i :: 0 <= i < |interior| ==> Pick(types, draws[i]) == Some(interior[i])
    ensures Generated(count, types, draws, c)
  {
    var blocks := Place(count, interior);
    PicksInOrder(types, draws, interior, blocks);
    EndWallFlush(count, interior);
    if count >= 0 {
      PlaceAlongAxis(count, interior);
      BoundsEncloseCourse(count, interior);
    }
    c := Course(blocks, Bounds(count + 2));
  }

  /** The hazard blocks between the start and end blocks are the drawn
      interior, so each is the palette entry its draw selects. */
  lemma PicksInOrder(types: seq<Hazard>, draws: seq<real>, interior: seq<Hazard>, blocks: seq<Block>)
    requires |interior| == |draws| && |blocks| == |interior| + 2
    requires forall i :: 0 <= i < |interior| ==> Pick(types, draws[i]) == Some(interior[i])
    requires forall i :: 0 < i < |blocks| - 1 ==> blocks[i].kind == Trap(interior[i - 1])
    ensures forall i :: 0 < i < |blocks| - 1 ==>
              && blocks[i].kind.Trap?
              && blocks[i].kind.hazard in types
              && Pick(types, draws[i - 1]) == Some(blocks[i].kind.hazard)
  {
    forall i | 0 < i < |blocks| - 1
      ensures Pick(types, draws[i - 1]) == Some(blocks[i].kind.hazard)
    {
      assert blocks[i].kind == Trap(interior[i - 1]);
      assert Pick(types, draws[i - 1]) == Some(interior[i - 1]);
    }
  }
}
