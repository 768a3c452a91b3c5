/** Two-dimensional integer geometry shared by every placement computation:
    positions, inclusive pixel intervals, Java's truncating division and the
    per-axis maximum trackers the generators keep in `int[2]` arrays. */
module Geometry {

  /** A 2-D integer position or extent; x is axis 0 (width, columns), y is axis 1 (height, rows). */
  datatype Pos = Pos(x: int, y: int)

  /** An interval with inclusive bounds on both axes, as an imglib2 `FinalInterval` of two dimensions. */
  datatype Box = Box(lo: Pos, hi: Pos)

  function Add(a: Pos, b: Pos): Pos
  {
    Pos(a.x + b.x, a.y + b.y)
  }

  function Max(a: int, b: int): int
  {
    if a >= b then a else b
  }

  function Min(a: int, b: int): int
  {
    if a <= b then a else b
  }

  function Abs(a: int): nat
  {
    if a < 0 then -a else a
  }

  /** Per-axis maximum of two positions. */
  function MaxPos(a: Pos, b: Pos): Pos
  {
    Pos(Max(a.x, b.x), Max(a.y, b.y))
  }

  /** The point lies in the interval on every axis (min <= c <= max). */
  predicate Contains(b: Box, p: Pos)
  {
    b.lo.x <= p.x <= b.hi.x && b.lo.y <= p.y <= b.hi.y
  }

  /** The two inclusive intervals share at least one point. */
  predicate Intersecting(a: Box, b: Box)
  {
    a.lo.x <= b.hi.x && b.lo.x <= a.hi.x && a.lo.y <= b.hi.y && b.lo.y <= a.hi.y
  }

  /** imglib2's `Intervals.union`: the smallest interval holding both. */
  function Union(a: Box, b: Box): (r: Box)
    ensures forall p :: Contains(a, p) || Contains(b, p) ==> Contains(r, p)
    ensures r.hi == MaxPos(a.hi, b.hi)
  {
    Box(Pos(Min(a.lo.x, b.lo.x), Min(a.lo.y, b.lo.y)), MaxPos(a.hi, b.hi))
  }

  // ---------------------------------------------------------------------------
  // Java integer division
  // ---------------------------------------------------------------------------

  /** Java's `int` division `a / b`: the quotient truncated toward zero. */
  function JavaDiv(a: int, b: int): int
    requires b != 0
  {
    var q := Abs(a) / Abs(b);
    if (a < 0) == (b < 0) then q else -q
  }

  /** Java's `int` remainder `a % b`, defined by `(a / b) * b + a % b == a`. */
  function JavaRem(a: int, b: int): int
    requires b != 0
  {
    a - b * JavaDiv(a, b)
  }

  /** Java's remainder takes the sign of the dividend and is smaller than the divisor
      in magnitude; for a non-negative dividend and a positive divisor Java's and
      Dafny's division agree. */
  lemma JavaDivision(a: int, b: int)
    requires b != 0
    ensures b * JavaDiv(a, b) + JavaRem(a, b) == a
    ensures Abs(JavaRem(a, b)) < Abs(b)
    ensures a >= 0 ==> JavaRem(a, b) >= 0
    ensures a <= 0 ==> JavaRem(a, b) <= 0
    ensures a >= 0 && b > 0 ==> JavaDiv(a, b) == a / b && JavaRem(a, b) == a % b
  {
    JavaRemMagnitude(a, b);
    if a >= 0 && b > 0 {
      JavaDivNonNegative(a, b);
    }
  }

  /** For a non-negative dividend and a positive divisor, truncation is Euclidean division. */
  lemma JavaDivNonNegative(a: int, b: int)
    requires a >= 0 && b > 0
    ensures JavaDiv(a, b) == a / b && JavaRem(a, b) == a % b
  {
    assert Abs(a) == a && Abs(b) == b;
    assert JavaDiv(a, b) == a / b;
    DivModRecompose(a, b);
  }

  /** Dafny's quotient and remainder recompose the dividend. */
  lemma DivModRecompose(x: int, n: int)
    requires n > 0
    ensures (x / n) * n + x % n == x
  {
  }

  /** Java's remainder is the remainder of the magnitudes, with the dividend's sign. */
  lemma JavaRemMagnitude(a: int, b: int)
    requires b != 0
    ensures a >= 0 ==> JavaRem(a, b) == Abs(a) % Abs(b)
    ensures a < 0 ==> JavaRem(a, b) == -(Abs(a) % Abs(b))
  {
    var aa, bb := Abs(a), Abs(b);
    var q: int, m: int := aa / bb, aa % bb;
    assert aa == bb * q + m;
    var d := JavaDiv(a, b);
    NegatedProduct(bb, q);
    if a >= 0 && b > 0 {
      assert b * d == bb * q;
    } else if a >= 0 {
      assert b * d == (-bb) * (-q);
    } else if b < 0 {
      assert b * d == (-bb) * q;
    } else {
      assert b * d == bb * (-q);
    }
  }

  lemma NegatedProduct(x: int, y: int)
    ensures (-x) * (-y) == x * y && x * (-y) == -(x * y) && (-x) * y == -(x * y)
  {
  }

  /** Euclidean division recovers quotient and remainder of `q * k + r`. */
  lemma DivModUnique(q: int, r: int, k: int)
    requires k > 0 && 0 <= r < k
    ensures (q * k + r) / k == q && (q * k + r) % k == r
  {
    var a := q * k + r;
    var q', r' := a / k, a % k;
    assert a == k * q' + r' && 0 <= r' < k;
    assert k * (q' - q) == r - r';
    if q' > q {
      MulAtLeastDivisor(k, q' - q);
    } else if q' < q {
      MulAtLeastDivisor(k, q - q');
    }
  }

  lemma MulAtLeastDivisor(k: int, d: int)
    requires k > 0 && d >= 1
    ensures k * d >= k
  {
    assert k * d == k + k * (d - 1);
  }

  /** Multiplication by a non-negative factor keeps order. */
  lemma MulMonotone(a: int, b: int, t: int)
    requires a <= b && t >= 0
    ensures a * t <= b * t
  {
    assert b * t - a * t == (b - a) * t;
  }

  // ---------------------------------------------------------------------------
  // Tile intervals
  // ---------------------------------------------------------------------------

  /** The pixel interval of grid cell `cell` when every image is `tile` pixels:
      min = cell * tile and max = min + tile - 1 on each axis. */
  function TileInterval(cell: Pos, tile: Pos): (r: Box)
    ensures r.hi.x - r.lo.x + 1 == tile.x && r.hi.y - r.lo.y + 1 == tile.y
    ensures r.lo == Pos(cell.x * tile.x, cell.y * tile.y)
  {
    var lo := Pos(cell.x * tile.x, cell.y * tile.y);
    Box(lo, Pos(lo.x + tile.x - 1, lo.y + tile.y - 1))
  }

  /** The grid cell a pixel falls in. */
  function CellOfPixel(p: Pos, tile: Pos): Pos
    requires tile.x > 0 && tile.y > 0
  {
    Pos(p.x / tile.x, p.y / tile.y)
  }

  /** A pixel lies in a cell's tile interval exactly when that cell is the pixel's cell. */
  lemma TileIntervalMembership(cell: Pos, tile: Pos, p: Pos)
    requires tile.x > 0 && tile.y > 0
    ensures Contains(TileInterval(cell, tile), p) <==> CellOfPixel(p, tile) == cell
  {
    AxisMembership(cell.x, tile.x, p.x);
    AxisMembership(cell.y, tile.y, p.y);
  }

  lemma AxisMembership(c: int, t: int, v: int)
    requires t > 0
    ensures c * t <= v <= c * t + t - 1 <==> v / t == c
  {
    if c * t <= v <= c * t + t - 1 {
      DivModUnique(c, v - c * t, t);
    }
    if v / t == c {
      assert v == t * (v / t) + v % t;
    }
  }

  /** Tiles of distinct cells never overlap when the tile size is positive. */
  lemma TileIntervalsDisjoint(c1: Pos, c2: Pos, tile: Pos)
    requires tile.x > 0 && tile.y > 0
    requires c1 != c2
    ensures !Intersecting(TileInterval(c1, tile), TileInterval(c2, tile))
  {
    var b1, b2 := TileInterval(c1, tile), TileInterval(c2, tile);
    if Intersecting(b1, b2) {
      var p := Pos(Max(b1.lo.x, b2.lo.x), Max(b1.lo.y, b2.lo.y));
      assert Contains(b1, p) && Contains(b2, p);
      TileIntervalMembership(c1, tile, p);
      TileIntervalMembership(c2, tile, p);
      assert false;
    }
  }

  // ---------------------------------------------------------------------------
  // Maximum trackers
  // ---------------------------------------------------------------------------

  /** The running per-axis maximum of `start` and every position of `ps`, in order. */
  function Track(start: Pos, ps: seq<Pos>): Pos
    decreases |ps|
  {
    if ps == [] then start else Track(MaxPos(start, ps[0]), ps[1..])
  }

  /** The tracked maximum is at least the start and every position, and on each axis it
      is the start's or some position's coordinate. */
  lemma {:induction false} TrackBounds(start: Pos, ps: seq<Pos>)
    decreases |ps|
    ensures start.x <= Track(start, ps).x && start.y <= Track(start, ps).y
    ensures forall i :: 0 <= i < |ps| ==> ps[i].x <= Track(start, ps).x && ps[i].y <= Track(start, ps).y
    ensures Track(start, ps).x == start.x || exists i :: 0 <= i < |ps| && Track(start, ps).x == ps[i].x
    ensures Track(start, ps).y == start.y || exists i :: 0 <= i < |ps| && Track(start, ps).y == ps[i].y
  {
    if ps != [] {
      var next := MaxPos(start, ps[0]);
      TrackBounds(next, ps[1..]);
      var r := Track(start, ps);
      assert r == Track(next, ps[1..]);
      forall i | 0 <= i < |ps|
        ensures ps[i].x <= r.x && ps[i].y <= r.y
      {
        if i > 0 {
          assert ps[i] == ps[1..][i - 1];
        }
      }
      if r.x != next.x {
        var j :| 0 <= j < |ps[1..]| && r.x == ps[1..][j].x;
        assert r.x == ps[j + 1].x;
      } else if r.x != start.x {
        assert r.x == ps[0].x;
      }
      if r.y != next.y {
        var j :| 0 <= j < |ps[1..]| && r.y == ps[1..][j].y;
        assert r.y == ps[j + 1].y;
      } else if r.y != start.y {
        assert r.y == ps[0].y;
      }
    }
  }

  /** Feeding one more position to the tracker. */
  lemma {:induction false} TrackSnoc(start: Pos, ps: seq<Pos>, p: Pos)
    decreases |ps|
    ensures Track(start, ps + [p]) == MaxPos(Track(start, ps), p)
  {
    if ps != [] {
      assert (ps + [p])[1..] == ps[1..] + [p];
      TrackSnoc(MaxPos(start, ps[0]), ps[1..], p);
    }
  }

  /** A tracker already at least `p` on both axes is unchanged by it (idempotence),
      and raising never lowers an axis (monotonicity). */
  lemma RaiseMaxLaws(t: Pos, p: Pos)
    ensures MaxPos(MaxPos(t, p), p) == MaxPos(t, p)
    ensures t.x <= MaxPos(t, p).x && t.y <= MaxPos(t, p).y
  {
  }

  /** The tracker held in an `int[2]` array. */
  function TrackerValue(a: array<int>): Pos
    requires a.Length == 2
    reads a
  {
    Pos(a[0], a[1])
  }

  /** `updateMax...DimensionInData`: for each axis d, `tracker[d] := pos[d]` when `pos[d] >= tracker[d]`. */
  method RaiseMax(tracker: array<int>, pos: Pos)
    requires tracker.Length == 2
    modifies tracker
    ensures TrackerValue(tracker) == MaxPos(old(TrackerValue(tracker)), pos)
  {
    for d := 0 to 2
      invariant tracker[0] == if d >= 1 then Max(old(tracker[0]), pos.x) else old(tracker[0])
      invariant tracker[1] == if d >= 2 then Max(old(tracker[1]), pos.y) else old(tracker[1])
    {
      var v := if d == 0 then pos.x else pos.y;
      if v >= tracker[d] {
        tracker[d] := v;
      }
    }
  }
}
