/** Cells of the block grid: positions, block kinds and the order in which the sampler visits them. */
module Grid {

  /** A block position (BlockPos): an integer triple. */
  datatype Pos = Pos(x: int, y: int, z: int)

  /** The block kinds the explosion distinguishes: the two it never touches (AIR, BEDROCK),
      one of the mod's own TNT blocks (a BaseTNTBlock) and everything else. */
  datatype Block = Air | Bedrock | Tnt(variant: nat) | Other(id: nat)

  /** The block stored at a position; positions the map does not mention hold air. */
  function BlockAt(cells: map<Pos, Block>, p: Pos): Block
  {
    if p in cells then cells[p] else Air
  }

  /** The position at offset (dx, dy, dz) from a centre. */
  function Offset(c: Pos, dx: int, dy: int, dz: int): Pos
  {
    Pos(c.x + dx, c.y + dy, c.z + dz)
  }

  /** x² + y² + z², the squared length of an offset. */
  function SquaredLength(x: int, y: int, z: int): nat
  {
    x * x + y * y + z * z
  }

  /** The squared Euclidean distance between two positions. */
  function SquaredDistance(a: Pos, b: Pos): nat
  {
    SquaredLength(a.x - b.x, a.y - b.y, a.z - b.z)
  }

  /** The host's square root (Math.sqrt) gives the true root of s. */
  predicate ExactRoot(root: nat -> real, s: nat)
  {
    0.0 <= root(s) && root(s) * root(s) == s as real
  }

  /** Squaring is monotone on the non-negative reals. */
  lemma SquareMonotone(d: real, b: real)
    requires 0.0 <= d <= b
    ensures d * d <= b * b
  {
    assert d * d <= d * b by {
      assert d * (b - d) >= 0.0;
    }
    assert d * b <= b * b by {
      assert b * (b - d) >= 0.0;
    }
  }

  /** With an exact root, "sqrt(s) <= r" is the integer test s <= r². */
  lemma RootWithin(root: nat -> real, s: nat, r: nat)
    requires ExactRoot(root, s)
    ensures root(s) <= r as real <==> s <= r * r
  {
    var d, b := root(s), r as real;
    assert (r * r) as real == b * b;
    if d <= b {
      SquareMonotone(d, b);
    } else {
      SquareMonotone(b, d);
      var e, f := d - b, d + b;
      assert e * f > 0.0;
      assert d * d - b * b == e * f;
    }
  }

  /** Lexicographic order on (x, y, z): the order of a loop over x, then y, then z. */
  predicate Before(a: Pos, b: Pos)
  {
    a.x < b.x || (a.x == b.x && (a.y < b.y || (a.y == b.y && a.z < b.z)))
  }

  /** Every element comes strictly before every later one. */
  predicate StrictlyOrdered(s: seq<Pos>)
  {
    forall i, j :: 0 <= i < j < |s| ==> Before(s[i], s[j])
  }

  /** No position occurs twice. */
  predicate NoDuplicates(s: seq<Pos>)
  {
    forall i, j :: 0 <= i < j < |s| ==> s[i] != s[j]
  }

  lemma StrictlyOrderedHasNoDuplicates(s: seq<Pos>)
    requires StrictlyOrdered(s)
    ensures NoDuplicates(s)
  {
  }

  /** Two strictly ordered sequences, the first entirely before the second, concatenate to one. */
  lemma OrderedConcat(a: seq<Pos>, b: seq<Pos>)
    requires StrictlyOrdered(a) && StrictlyOrdered(b)
    requires forall i, j :: 0 <= i < |a| && 0 <= j < |b| ==> Before(a[i], b[j])
    ensures StrictlyOrdered(a + b)
  {
    forall i, j | 0 <= i < j < |a + b| ensures Before((a + b)[i], (a + b)[j]) {
      if j < |a| {
      } else if i >= |a| {
        assert (a + b)[i] == b[i - |a|] && (a + b)[j] == b[j - |a|];
      } else {
        assert (a + b)[j] == b[j - |a|];
      }
    }
  }

  /** Every cell lies on line (x, y), from height z on. */
  predicate OnLine(s: seq<Pos>, x: int, y: int, z: int)
  {
    forall i :: 0 <= i < |s| ==> s[i].x == x && s[i].y == y && s[i].z >= z
  }

  /** Every cell lies on plane x, from line y on. */
  predicate OnPlane(s: seq<Pos>, x: int, y: int)
  {
    forall i :: 0 <= i < |s| ==> s[i].x == x && s[i].y >= y
  }

  /** Every cell lies on plane x or beyond. */
  predicate FromPlane(s: seq<Pos>, x: int)
  {
    forall i :: 0 <= i < |s| ==> s[i].x >= x
  }

  /** A line above z + 1 is a line above z. */
  lemma LowerLine(s: seq<Pos>, x: int, y: int, z: int)
    requires OnLine(s, x, y, z + 1)
    ensures OnLine(s, x, y, z)
  {
  }

  /** The cell at (x, y, z) put before an ordered line above z. */
  lemma JoinLine(a: seq<Pos>, b: seq<Pos>, x: int, y: int, z: int)
    requires a == [Pos(x, y, z)]
    requires StrictlyOrdered(b) && OnLine(b, x, y, z + 1)
    ensures StrictlyOrdered(a + b) && OnLine(a + b, x, y, z)
  {
    OrderedConcat(a, b);
    forall k | 0 <= k < |a + b| ensures (a + b)[k].x == x && (a + b)[k].y == y && (a + b)[k].z >= z {
      if k >= |a| {
        assert (a + b)[k] == b[k - |a|];
      }
    }
  }

  /** An ordered line y put before an ordered run of later lines of the same plane. */
  lemma JoinPlane(a: seq<Pos>, b: seq<Pos>, x: int, y: int, z: int)
    requires StrictlyOrdered(a) && OnLine(a, x, y, z)
    requires StrictlyOrdered(b) && OnPlane(b, x, y + 1)
    ensures StrictlyOrdered(a + b) && OnPlane(a + b, x, y)
  {
    OrderedConcat(a, b);
    forall k | 0 <= k < |a + b| ensures (a + b)[k].x == x && (a + b)[k].y >= y {
      if k < |a| {
        assert (a + b)[k] == a[k];
      } else {
        assert (a + b)[k] == b[k - |a|];
      }
    }
  }

  /** An ordered plane x put before an ordered run of later planes. */
  lemma JoinSlab(a: seq<Pos>, b: seq<Pos>, x: int, y: int)
    requires StrictlyOrdered(a) && OnPlane(a, x, y)
    requires StrictlyOrdered(b) && FromPlane(b, x + 1)
    ensures StrictlyOrdered(a + b) && FromPlane(a + b, x)
  {
    OrderedConcat(a, b);
    forall k | 0 <= k < |a + b| ensures (a + b)[k].x >= x {
      if k < |a| {
        assert (a + b)[k] == a[k];
      } else {
        assert (a + b)[k] == b[k - |a|];
      }
    }
  }
}
