/** The arithmetic of the uniform grid: cell coordinates, the 64-bit cell key, and how many cells
around its own a query has to visit. Coordinates are real numbers. */
module SectorMath {

  type int32 = x: int | -0x8000_0000 <= x < 0x8000_0000
  type int64 = x: int | -0x8000_0000_0000_0000 <= x < 0x8000_0000_0000_0000

  const TWO32 := 0x1_0000_0000

  function SectorCoord(v: real, cellSize: real): int
    requires cellSize > 0.0
  {
    (v / cellSize).Floor
  }

  lemma DivBounds(v: real, s: real, c: int)
    requires s > 0.0
    ensures c as real <= v / s <==> c as real * s <= v
    ensures v / s < c as real <==> v < c as real * s
  {
    var q := v / s;
    assert q * s == v;
    if c as real <= q {
      MulMono(c as real, q, s);
    } else {
      MulStrict(q, c as real, s);
    }
  }

  lemma MulMono(a: real, b: real, s: real)
    requires a <= b && s > 0.0
    ensures a * s <= b * s
  {
  }

  lemma MulStrict(a: real, b: real, s: real)
    requires a < b && s > 0.0
    ensures a * s < b * s
  {
  }

  /** A point lies in cell c exactly if c*s <= v < (c+1)*s, also left of zero. */
  lemma CellInterval(v: real, s: real, c: int)
    requires s > 0.0
    ensures SectorCoord(v, s) == c <==> c as real * s <= v < (c + 1) as real * s
  {
    DivBounds(v, s, c);
    DivBounds(v, s, c + 1);
  }

  /** The low half of the key is the second coordinate as an unsigned 32-bit number. */
  function Unsigned32(y: int32): (u: int)
    ensures 0 <= u < TWO32 && (u - y) % TWO32 == 0
  {
    if y < 0 then y + TWO32 else y
  }

  function Signed32(u: int): (y: int32)
    requires 0 <= u < TWO32
    ensures Unsigned32(y) == u
  {
    if u >= 0x8000_0000 then u - TWO32 else u
  }

  function MakeSectorKey(sx: int32, sy: int32): int64 {
    sx * TWO32 + Unsigned32(sy)
  }

  function KeyX(key: int64): int32 {
    key / TWO32
  }

  function KeyY(key: int64): int32 {
    Signed32(key % TWO32)
  }

  /** Both coordinates can be read back from the key. */
  lemma KeyRoundTrip(sx: int32, sy: int32)
    ensures KeyX(MakeSectorKey(sx, sy)) == sx && KeyY(MakeSectorKey(sx, sy)) == sy
    ensures MakeSectorKey(sx, sy) / 0x1_0000_0000 == sx && (MakeSectorKey(sx, sy) - sy) % 0x1_0000_0000 == 0
  {
    assert MakeSectorKey(sx, sy) / TWO32 == sx;
  }

  lemma KeyInjective(sx: int32, sy: int32, tx: int32, ty: int32)
    ensures MakeSectorKey(sx, sy) == MakeSectorKey(tx, ty) <==> sx == tx && sy == ty
  {
    KeyRoundTrip(sx, sy);
    KeyRoundTrip(tx, ty);
  }

  /** The key as the bits that the source puts together: the sign extension of the first coordinate is
  shifted out, so only its 32 bits matter. */
  function KeyBits(sx: bv32, sy: bv32): bv64 {
    ((sx as bv64) << 32) | (sy as bv64)
  }

  lemma KeyBitsInjective(sx: bv32, sy: bv32, tx: bv32, ty: bv32)
    ensures KeyBits(sx, sy) == KeyBits(tx, ty) <==> sx == tx && sy == ty
  {
    KeyBitsApart(sx, sy);
    KeyBitsApart(tx, ty);
  }

  /** Both halves can be cut out of the bits again. */
  lemma KeyBitsApart(sx: bv32, sy: bv32)
    ensures KeyBits(sx, sy) >> 32 == sx as bv64 && KeyBits(sx, sy) & 0xFFFF_FFFF == sy as bv64
  {
  }

  function Abs(v: real): real {
    if v < 0.0 then -v else v
  }

  function AbsInt(v: int): int {
    if v < 0 then -v else v
  }

  function Ceiling(v: real): int {
    if v.Floor as real == v then v.Floor else v.Floor + 1
  }

  /** What the room computes: the cast of a non-negative quotient, which cuts the fraction off. */
  function TruncatedSpan(radius: real, cellSize: real): int
    requires radius >= 0.0 && cellSize > 0.0
  {
    (radius / cellSize).Floor
  }

  function CeilingSpan(radius: real, cellSize: real): int
    requires radius >= 0.0 && cellSize > 0.0
  {
    Ceiling(radius / cellSize)
  }

  lemma DivDifference(a: real, b: real, r: real, s: real)
    requires s > 0.0 && a - b <= r
    ensures a / s - b / s <= r / s
  {
    var qa, qb, qr := a / s, b / s, r / s;
    assert qa * s == a && qb * s == b && qr * s == r;
    assert (qa - qb) * s == qa * s - qb * s;
    if qa - qb > qr {
      MulStrict(qr, qa - qb, s);
    }
  }

  /** Two points within the radius lie in cells that differ by at most the rounded-up span. */
  lemma CeilingSpanSuffices(a: real, b: real, radius: real, cellSize: real)
    requires cellSize > 0.0 && radius >= 0.0 && Abs(a - b) <= radius
    ensures AbsInt(SectorCoord(a, cellSize) - SectorCoord(b, cellSize)) <= CeilingSpan(radius, cellSize)
  {
    DivDifference(a, b, radius, cellSize);
    DivDifference(b, a, radius, cellSize);
  }

  /** Every pair within the radius is at most the truncated span of cells apart. */
  ghost predicate TruncatedSpanSuffices(radius: real, cellSize: real)
    requires cellSize > 0.0 && radius >= 0.0
  {
    forall a: real, b: real :: Abs(a - b) <= radius ==>
      AbsInt(SectorCoord(a, cellSize) - SectorCoord(b, cellSize)) <= TruncatedSpan(radius, cellSize)
  }

  /** For a radius that the cell size does not divide, this pair is missed. */
  lemma TruncatedSpanMisses(radius: real, cellSize: real) returns (a: real, b: real)
    requires cellSize > 0.0 && radius >= 0.0
    requires TruncatedSpan(radius, cellSize) as real * cellSize != radius
    ensures Abs(a - b) <= radius
    ensures SectorCoord(b, cellSize) - SectorCoord(a, cellSize) == TruncatedSpan(radius, cellSize) + 1
  {
    var n := TruncatedSpan(radius, cellSize);
    CellInterval(radius, cellSize, n);
    b := (n + 1) as real * cellSize;
    a := b - radius;
    assert (n + 1) as real * cellSize == n as real * cellSize + cellSize;
    assert (n + 2) as real * cellSize == (n + 1) as real * cellSize + cellSize;
    CellInterval(a, cellSize, 0);
    CellInterval(b, cellSize, n + 1);
  }

  /** The truncated span is enough exactly when the cell size divides the radius. */
  lemma TruncatedSpanSufficesIff(radius: real, cellSize: real)
    requires cellSize > 0.0 && radius >= 0.0
    ensures TruncatedSpanSuffices(radius, cellSize) <==>
            TruncatedSpan(radius, cellSize) as real * cellSize == radius
  {
    var n := TruncatedSpan(radius, cellSize);
    if n as real * cellSize == radius {
      var q := radius / cellSize;
      assert q * cellSize == n as real * cellSize;
      assert q == n as real by {
        if q < n as real { MulStrict(q, n as real, cellSize); }
        if q > n as real { MulStrict(n as real, q, cellSize); }
      }
      forall a: real, b: real | Abs(a - b) <= radius
        ensures AbsInt(SectorCoord(a, cellSize) - SectorCoord(b, cellSize)) <= n
      {
        CeilingSpanSuffices(a, b, radius, cellSize);
      }
    } else {
      var a, b := TruncatedSpanMisses(radius, cellSize);
      var cells := SectorCoord(a, cellSize) - SectorCoord(b, cellSize);
      assert cells == -(n + 1) && n >= 0 by { CellInterval(radius, cellSize, n); }
      assert TruncatedSpanSuffices(radius, cellSize) ==> AbsInt(cells) <= n;
    }
  }
}
