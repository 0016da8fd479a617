/** The lattice sampler (getBlocks): which cells of the cube around the centre an explosion takes. */
module Sampler {
  import opened Grid

  /** One sampling pass: the centre, the radius and the test it applies to each offset. */
  datatype Scan = Scan(center: Pos, radius: nat, keep: (int, int, int) -> bool)

  /** shouldDestroy: the block is neither bedrock nor air. */
  predicate ShouldDestroy(cells: map<Pos, Block>, p: Pos)
  {
    var b := BlockAt(cells, p);
    !(b == Bedrock || b == Air)
  }

  /** The jittered radius test, distance <= radius + randomness * (U - 0.5), where the distance is
      the host's square root of x² + y² + z² and U is the draw for that cell. */
  predicate InJitteredRadius(root: nat -> real, radius: nat, randomness: real, u: real, x: int, y: int, z: int)
  {
    root(SquaredLength(x, y, z)) <= radius as real + randomness * (u - 0.5)
  }

  /** The test getBlocks applies to offset (x, y, z) from the centre: the jittered radius test,
      with jitter(p) the uniform draw in [0, 1) that Math.random() gives for cell p in this pass,
      then shouldDestroy on the blocks as they stand. */
  function Test(cells: map<Pos, Block>, center: Pos, radius: nat, randomness: real,
                jitter: Pos -> real, root: nat -> real): (int, int, int) -> bool
  {
    (x: int, y: int, z: int) =>
      var p := Offset(center, x, y, z);
      InJitteredRadius(root, radius, randomness, jitter(p), x, y, z) && ShouldDestroy(cells, p)
  }

  /** The cell at offset (x, y, z) is taken by the pass. */
  predicate Kept(sc: Scan, x: int, y: int, z: int)
  {
    sc.keep(x, y, z)
  }

  /** The test at one offset, unfolded. */
  lemma TestAt(cells: map<Pos, Block>, center: Pos, radius: nat, randomness: real,
               jitter: Pos -> real, root: nat -> real, x: int, y: int, z: int)
    ensures var p := Offset(center, x, y, z);
      Test(cells, center, radius, randomness, jitter, root)(x, y, z) <==>
        root(SquaredLength(x, y, z)) <= radius as real + randomness * (jitter(p) - 0.5) && ShouldDestroy(cells, p)
  {
  }

  /** The cells taken on line (x, y), from z up to the radius. */
  function Row(sc: Scan, x: int, y: int, z: int): seq<Pos>
    decreases sc.radius + 1 - z
  {
    if z > sc.radius then []
    else if Kept(sc, x, y, z) then [Offset(sc.center, x, y, z)] + Row(sc, x, y, z + 1)
    else Row(sc, x, y, z + 1)
  }

  /** One round of the z loop of getBlocks: a list that ends where Row(z) begins, extended by the
      cell at z when it is kept, ends where Row(z + 1) begins. */
  lemma RowAppend(sc: Scan, x: int, y: int, z: int, done: seq<Pos>, total: seq<Pos>)
    requires z <= sc.radius && done + Row(sc, x, y, z) == total
    ensures Kept(sc, x, y, z) ==> (done + [Offset(sc.center, x, y, z)]) + Row(sc, x, y, z + 1) == total
    ensures !Kept(sc, x, y, z) ==> done + Row(sc, x, y, z + 1) == total
  {
  }

  /** The cells taken on plane x, lines y up to the radius. */
  function Plane(sc: Scan, x: int, y: int): seq<Pos>
    decreases sc.radius + 1 - y
  {
    if y > sc.radius then [] else Row(sc, x, y, -(sc.radius as int)) + Plane(sc, x, y + 1)
  }

  /** The cells taken on planes x up to the radius. */
  function Slab(sc: Scan, x: int): seq<Pos>
    decreases sc.radius + 1 - x
  {
    if x > sc.radius then [] else Plane(sc, x, -(sc.radius as int)) + Slab(sc, x + 1)
  }

  /** One round of the y loop of getBlocks: appending row y. */
  lemma PlaneAppend(sc: Scan, x: int, y: int, done: seq<Pos>, total: seq<Pos>)
    requires y <= sc.radius && done + Plane(sc, x, y) == total
    ensures (done + Row(sc, x, y, -(sc.radius as int))) + Plane(sc, x, y + 1) == total
  {
  }

  /** One round of the x loop of getBlocks: appending plane x. */
  lemma SlabAppend(sc: Scan, x: int, done: seq<Pos>, total: seq<Pos>)
    requires x <= sc.radius && done + Slab(sc, x) == total
    ensures (done + Plane(sc, x, -(sc.radius as int))) + Slab(sc, x + 1) == total
  {
  }

  /** The list getBlocks returns: the whole cube [-radius, radius]³, visited x, then y, then z. */
  function Sample(sc: Scan): seq<Pos>
  {
    Slab(sc, -(sc.radius as int))
  }

  /** getBlocks: walk the cube [-radius, radius]³ around the centre, x then y then z, and collect
      the cells the pass keeps. The y and z loops are ScanPlane and ScanLine. */
  method ScanCube(sc: Scan) returns (blocks: seq<Pos>)
    ensures blocks == Sample(sc)
  {
    var r: int := sc.radius;
    blocks := [];
    var x := -r;
    while x <= r
      invariant -r <= x <= r + 1
      invariant blocks + Slab(sc, x) == Sample(sc)
    {
      var plane := ScanPlane(sc, x);
      SlabAppend(sc, x, blocks, Sample(sc));
      blocks := blocks + plane;
      x := x + 1;
    }
    assert Slab(sc, x) == [];
  }

  /** The y loop of getBlocks for plane x. */
  method ScanPlane(sc: Scan, x: int) returns (plane: seq<Pos>)
    ensures plane == Plane(sc, x, -(sc.radius as int))
  {
    var r: int := sc.radius;
    plane := [];
    var y := -r;
    while y <= r
      invariant -r <= y <= r + 1
      invariant plane + Plane(sc, x, y) == Plane(sc, x, -r)
    {
      var line := ScanLine(sc, x, y);
      PlaneAppend(sc, x, y, plane, Plane(sc, x, -r));
      plane := plane + line;
      y := y + 1;
    }
    assert Plane(sc, x, y) == [];
  }

  /** The z loop of getBlocks for line (x, y): the cell at each offset is taken when the pass's
      test holds there. */
  method ScanLine(sc: Scan, x: int, y: int) returns (line: seq<Pos>)
    ensures line == Row(sc, x, y, -(sc.radius as int))
  {
    var r: int := sc.radius;
    line := [];
    var z := -r;
    while z <= r
      invariant -r <= z <= r + 1
      invariant line + Row(sc, x, y, z) == Row(sc, x, y, -r)
    {
      var blockPos := Offset(sc.center, x, y, z);
      RowAppend(sc, x, y, z, line, Row(sc, x, y, -r));
      if Kept(sc, x, y, z) {
        line := line + [blockPos];
      }
      z := z + 1;
    }
    assert Row(sc, x, y, z) == [];
  }

  /** p lies in the cube [-radius, radius]³ around the centre. */
  predicate InCube(sc: Scan, p: Pos)
  {
    var c, r := sc.center, sc.radius as int;
    -r <= p.x - c.x <= r && -r <= p.y - c.y <= r && -r <= p.z - c.z <= r
  }

  /** p is within the radius along z and the pass keeps it. */
  predicate InLine(sc: Scan, p: Pos)
  {
    var c := sc.center;
    -(sc.radius as int) <= p.z - c.z <= sc.radius && Kept(sc, p.x - c.x, p.y - c.y, p.z - c.z)
  }

  /** A row holds exactly the kept cells of its line from z on. */
  lemma {:induction false} RowMembers(sc: Scan, x: int, y: int, z: int, p: Pos)
    ensures p in Row(sc, x, y, z) <==>
      p.x == sc.center.x + x && p.y == sc.center.y + y && z <= p.z - sc.center.z <= sc.radius
      && Kept(sc, x, y, p.z - sc.center.z)
    decreases sc.radius + 1 - z
  {
    if z <= sc.radius {
      var c := sc.center;
      var rest := Row(sc, x, y, z + 1);
      RowMembers(sc, x, y, z + 1, p);
      if Kept(sc, x, y, z) {
        var cell := Pos(c.x + x, c.y + y, c.z + z);
        assert Row(sc, x, y, z) == [cell] + rest;
        assert p in [cell] + rest <==> p == cell || p in rest;
      }
    }
  }

  /** A row whose first cell is kept starts with that cell. */
  lemma RowCons(sc: Scan, x: int, y: int, z: int)
    requires z <= sc.radius && Kept(sc, x, y, z)
    ensures Row(sc, x, y, z) == [Pos(sc.center.x + x, sc.center.y + y, sc.center.z + z)] + Row(sc, x, y, z + 1)
  {
  }

  /** A row lists its cells in increasing z, all on line (x, y) and from z on. */
  lemma {:induction false} RowOrdered(sc: Scan, x: int, y: int, z: int)
    ensures StrictlyOrdered(Row(sc, x, y, z))
    ensures OnLine(Row(sc, x, y, z), sc.center.x + x, sc.center.y + y, sc.center.z + z)
    decreases sc.radius + 1 - z
  {
    if z <= sc.radius {
      var c := sc.center;
      var rest := Row(sc, x, y, z + 1);
      RowOrdered(sc, x, y, z + 1);
      if Kept(sc, x, y, z) {
        RowCons(sc, x, y, z);
        JoinLine([Pos(c.x + x, c.y + y, c.z + z)], rest, c.x + x, c.y + y, c.z + z);
      } else {
        LowerLine(rest, c.x + x, c.y + y, c.z + z);
      }
    }
  }

  /** A plane holds exactly the kept cells of its lines from y on. */
  lemma {:induction false} PlaneMembers(sc: Scan, x: int, y: int, p: Pos)
    ensures p in Plane(sc, x, y) <==>
      p.x == sc.center.x + x && y <= p.y - sc.center.y <= sc.radius && InLine(sc, p)
    decreases sc.radius + 1 - y
  {
    if y <= sc.radius {
      var row, rest := Row(sc, x, y, -(sc.radius as int)), Plane(sc, x, y + 1);
      RowMembers(sc, x, y, -(sc.radius as int), p);
      PlaneMembers(sc, x, y + 1, p);
      assert p in row + rest <==> p in row || p in rest;
    }
  }

  /** A plane lists its cells in (y, z) order, all on plane x and from line y on. */
  lemma {:induction false} PlaneOrdered(sc: Scan, x: int, y: int)
    ensures StrictlyOrdered(Plane(sc, x, y)) && OnPlane(Plane(sc, x, y), sc.center.x + x, sc.center.y + y)
    decreases sc.radius + 1 - y
  {
    if y <= sc.radius {
      var c, r := sc.center, sc.radius as int;
      var row, rest := Row(sc, x, y, -r), Plane(sc, x, y + 1);
      RowOrdered(sc, x, y, -r);
      PlaneOrdered(sc, x, y + 1);
      assert Plane(sc, x, y) == row + rest;
      JoinPlane(row, rest, c.x + x, c.y + y, c.z - r);
    }
  }

  /** A slab holds exactly the kept cells of its planes from x on. */
  lemma {:induction false} SlabMembers(sc: Scan, x: int, p: Pos)
    ensures p in Slab(sc, x) <==>
      x <= p.x - sc.center.x <= sc.radius && -(sc.radius as int) <= p.y - sc.center.y <= sc.radius
      && InLine(sc, p)
    decreases sc.radius + 1 - x
  {
    if x <= sc.radius {
      var plane, rest := Plane(sc, x, -(sc.radius as int)), Slab(sc, x + 1);
      PlaneMembers(sc, x, -(sc.radius as int), p);
      SlabMembers(sc, x + 1, p);
      assert p in plane + rest <==> p in plane || p in rest;
    }
  }

  /** A slab lists its cells in (x, y, z) order, all from plane x on. */
  lemma {:induction false} SlabOrdered(sc: Scan, x: int)
    ensures StrictlyOrdered(Slab(sc, x)) && FromPlane(Slab(sc, x), sc.center.x + x)
    decreases sc.radius + 1 - x
  {
    if x <= sc.radius {
      var c, r := sc.center, sc.radius as int;
      var plane, rest := Plane(sc, x, -r), Slab(sc, x + 1);
      PlaneOrdered(sc, x, -r);
      SlabOrdered(sc, x + 1);
      assert Slab(sc, x) == plane + rest;
      JoinSlab(plane, rest, c.x + x, c.y - r);
    }
  }

  /** getBlocks lists the cube in x-then-y-then-z order, each cell once. */
  lemma SampleOrdered(sc: Scan)
    ensures StrictlyOrdered(Sample(sc)) && NoDuplicates(Sample(sc))
  {
    SlabOrdered(sc, -(sc.radius as int));
    StrictlyOrderedHasNoDuplicates(Sample(sc));
  }

  /** getBlocks takes exactly the kept cells of the cube. */
  lemma SampleMembers(sc: Scan)
    ensures forall p :: p in Sample(sc) <==>
      InCube(sc, p) && Kept(sc, p.x - sc.center.x, p.y - sc.center.y, p.z - sc.center.z)
  {
    forall p ensures p in Sample(sc) <==>
      InCube(sc, p) && Kept(sc, p.x - sc.center.x, p.y - sc.center.y, p.z - sc.center.z)
    {
      SampleAt(sc, p);
    }
  }

  /** getBlocks returns exactly the kept cells of the cube, in x-then-y-then-z order, each once. */
  lemma SampleContents(sc: Scan)
    ensures StrictlyOrdered(Sample(sc)) && NoDuplicates(Sample(sc))
    ensures forall p :: p in Sample(sc) <==>
      InCube(sc, p) && Kept(sc, p.x - sc.center.x, p.y - sc.center.y, p.z - sc.center.z)
  {
    SampleOrdered(sc);
    SampleMembers(sc);
  }

  /** Without jitter (randomness 0) and with an exact square root, the test keeps the cell at offset
      (dx, dy, dz) exactly when dx² + dy² + dz² <= r² and the cell is neither bedrock nor air. */
  lemma ExactTest(cells: map<Pos, Block>, center: Pos, radius: nat, jitter: Pos -> real,
                  root: nat -> real, dx: int, dy: int, dz: int)
    requires ExactRoot(root, SquaredLength(dx, dy, dz))
    ensures var p := Offset(center, dx, dy, dz);
      Test(cells, center, radius, 0.0, jitter, root)(dx, dy, dz) <==>
        SquaredLength(dx, dy, dz) <= radius * radius && BlockAt(cells, p) != Bedrock && BlockAt(cells, p) != Air
  {
    var s := SquaredLength(dx, dy, dz);
    TestAt(cells, center, radius, 0.0, jitter, root, dx, dy, dz);
    assert 0.0 * (jitter(Offset(center, dx, dy, dz)) - 0.5) == 0.0;
    RootWithin(root, s, radius);
  }

  /** Membership of one cell in the sample. */
  lemma SampleAt(sc: Scan, p: Pos)
    ensures p in Sample(sc) <==>
      -(sc.radius as int) <= p.x - sc.center.x <= sc.radius && -(sc.radius as int) <= p.y - sc.center.y <= sc.radius
      && InLine(sc, p)
  {
    SlabMembers(sc, -(sc.radius as int), p);
  }

  /** Membership of one cell in the sample, given what the pass's test answers there. */
  lemma SampleAtTest(sc: Scan, p: Pos, kept: bool)
    requires Kept(sc, p.x - sc.center.x, p.y - sc.center.y, p.z - sc.center.z) == kept
    ensures p in Sample(sc) <==> InCube(sc, p) && kept
  {
    SampleAt(sc, p);
  }

  /** Without jitter (randomness 0) and with an exact square root, getBlocks takes a cell exactly
      when it lies in the cube, within the radius (x² + y² + z² <= r²) and is neither bedrock nor air. */
  lemma ExactSample(cells: map<Pos, Block>, center: Pos, radius: nat, jitter: Pos -> real,
                    root: nat -> real, p: Pos)
    requires ExactRoot(root, SquaredDistance(p, center))
    ensures var sc := Scan(center, radius, Test(cells, center, radius, 0.0, jitter, root));
      p in Sample(sc) <==>
        InCube(sc, p) && SquaredDistance(p, center) <= radius * radius
        && BlockAt(cells, p) != Bedrock && BlockAt(cells, p) != Air
  {
    var sc := Scan(center, radius, Test(cells, center, radius, 0.0, jitter, root));
    var dx, dy, dz := p.x - center.x, p.y - center.y, p.z - center.z;
    assert Offset(center, dx, dy, dz) == p;
    assert SquaredLength(dx, dy, dz) == SquaredDistance(p, center);
    ExactTest(cells, center, radius, jitter, root, dx, dy, dz);
    SampleAtTest(sc, p, SquaredDistance(p, center) <= radius * radius
                        && BlockAt(cells, p) != Bedrock && BlockAt(cells, p) != Air);
  }

  /** With the same draws, a larger radius keeps every cell a smaller one keeps. */
  lemma TestGrows(cells: map<Pos, Block>, center: Pos, r: nat, r': nat, randomness: real,
                  jitter: Pos -> real, root: nat -> real, x: int, y: int, z: int)
    requires r <= r'
    requires Test(cells, center, r, randomness, jitter, root)(x, y, z)
    ensures Test(cells, center, r', randomness, jitter, root)(x, y, z)
  {
    TestAt(cells, center, r, randomness, jitter, root, x, y, z);
    TestAt(cells, center, r', randomness, jitter, root, x, y, z);
  }

  /** A scan with the same centre, a radius at least as large and a test that keeps p's offset
      whenever the smaller scan's does, samples p whenever the smaller scan does. */
  lemma SampleWider(small: Scan, large: Scan, p: Pos)
    requires small.center == large.center && small.radius <= large.radius
    requires var c := small.center;
      Kept(small, p.x - c.x, p.y - c.y, p.z - c.z) ==> Kept(large, p.x - c.x, p.y - c.y, p.z - c.z)
    requires p in Sample(small)
    ensures p in Sample(large)
  {
    var c, r, r' := small.center, small.radius as int, large.radius as int;
    SampleAt(small, p);
    assert -r <= p.x - c.x <= r && -r <= p.y - c.y <= r && InLine(small, p);
    assert -r' <= p.x - c.x <= r' && -r' <= p.y - c.y <= r' && InLine(large, p);
    SampleAt(large, p);
  }

  /** With the same blocks and draws, getBlocks at a larger radius returns every cell it returns at
      a smaller one. */
  lemma SampleGrows(cells: map<Pos, Block>, center: Pos, r: nat, r': nat, randomness: real,
                    jitter: Pos -> real, root: nat -> real, p: Pos)
    requires r <= r'
    requires p in Sample(Scan(center, r, Test(cells, center, r, randomness, jitter, root)))
    ensures p in Sample(Scan(center, r', Test(cells, center, r', randomness, jitter, root)))
  {
    var small := Scan(center, r, Test(cells, center, r, randomness, jitter, root));
    var large := Scan(center, r', Test(cells, center, r', randomness, jitter, root));
    var dx, dy, dz := p.x - center.x, p.y - center.y, p.z - center.z;
    if Kept(small, dx, dy, dz) {
      TestGrows(cells, center, r, r', randomness, jitter, root, dx, dy, dz);
    }
    SampleWider(small, large, p);
  }

  /** Whatever the draws and the square root, getBlocks returns only cells that shouldDestroy
      accepts: never bedrock, never air. */
  lemma SampleDestructible(cells: map<Pos, Block>, center: Pos, radius: nat, randomness: real,
                           jitter: Pos -> real, root: nat -> real, p: Pos)
    requires p in Sample(Scan(center, radius, Test(cells, center, radius, randomness, jitter, root)))
    ensures ShouldDestroy(cells, p) && BlockAt(cells, p) != Bedrock && BlockAt(cells, p) != Air
  {
    var sc := Scan(center, radius, Test(cells, center, radius, randomness, jitter, root));
    var dx, dy, dz := p.x - center.x, p.y - center.y, p.z - center.z;
    SampleAt(sc, p);
    TestAt(cells, center, radius, randomness, jitter, root, dx, dy, dz);
    assert Offset(center, dx, dy, dz) == p;
  }
}
