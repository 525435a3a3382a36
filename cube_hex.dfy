/** Integer cube coordinates of a hex grid (src/cube_hex.py, duplicated in
    src/drawing.py).  A hex is a triple (q, r, s); nothing checks at
    construction that q + r + s == 0, so that invariant is the predicate
    Valid, carried by the operations that preserve it. */
module CubeHexes {

  datatype CubeHex = CubeHex(q: int, r: int, s: int)

  /** A point of the world plane as the corner code produces it. */
  type Point = (real, real)

  /** One side of a hex: its two corner points, in order. */
  type Edge = (Point, Point)

  /** The cube-coordinate invariant. */
  predicate Valid(h: CubeHex) {
    h.q + h.r + h.s == 0
  }

  function Abs(x: int): (n: nat)
    ensures n == x || n == -x
  {
    if x < 0 then -x else x
  }

  function AbsReal(x: real): (y: real)
    ensures y >= 0.0 && (y == x || y == -x)
  {
    if x < 0.0 then -x else x
  }

  function Max3(a: int, b: int, c: int): (m: int)
    ensures m >= a && m >= b && m >= c
    ensures m == a || m == b || m == c
  {
    if a >= b && a >= c then a else if b >= c then b else c
  }

  /** `__add__`: componentwise sum. */
  function Add(a: CubeHex, b: CubeHex): (h: CubeHex)
    ensures Valid(a) && Valid(b) ==> Valid(h)
    ensures Sub(h, b) == a
  {
    CubeHex(a.q + b.q, a.r + b.r, a.s + b.s)
  }

  /** `__sub__`: componentwise difference. */
  function Sub(a: CubeHex, b: CubeHex): (h: CubeHex)
    ensures Valid(a) && Valid(b) ==> Valid(h)
  {
    CubeHex(a.q - b.q, a.r - b.r, a.s - b.s)
  }

  function Negate(a: CubeHex): CubeHex {
    CubeHex(-a.q, -a.r, -a.s)
  }

  /** `__eq__`: the three components compared one by one; this is exactly
      the structural equality of the datatype. */
  function Equals(a: CubeHex, b: CubeHex): (eq: bool)
    ensures eq <==> a == b
  {
    a.q == b.q && a.r == b.r && a.s == b.s
  }

  /** `distance`: the largest absolute component of the difference. */
  function Distance(a: CubeHex, b: CubeHex): (n: nat)
    ensures n == 0 <==> a == b
    ensures n >= Abs(a.q - b.q) && n >= Abs(a.r - b.r) && n >= Abs(a.s - b.s)
    ensures n == Abs(a.q - b.q) || n == Abs(a.r - b.r) || n == Abs(a.s - b.s)
  {
    var v := Sub(a, b);
    Max3(Abs(v.q), Abs(v.r), Abs(v.s))
  }

  /** The six unit offsets, indexed by direction (DIRECTION_VECTORS). */
  const DIRECTION_VECTORS: seq<CubeHex> :=
    [CubeHex(1, 0, -1), CubeHex(1, -1, 0), CubeHex(0, -1, 1),
     CubeHex(-1, 0, 1), CubeHex(-1, 1, 0), CubeHex(0, 1, -1)]

  /** `neighbor`: the direction is first reduced modulo 6 (Python's `%`
      with a positive divisor, which agrees with Dafny's), so any integer
      is accepted. */
  function Neighbor(h: CubeHex, direction: int): (n: CubeHex)
    ensures Distance(h, n) == 1
    ensures Valid(h) ==> Valid(n)
  {
    Add(h, DIRECTION_VECTORS[direction % 6])
  }

  /** `from_axial_rs`, `from_axial_qs`, `from_axial_qr`: keep the two given
      axes and derive the third from the invariant. */
  function FromAxialRs(r: int, s: int): (h: CubeHex)
    ensures Valid(h) && h.r == r && h.s == s
  {
    CubeHex(-r - s, r, s)
  }

  function FromAxialQs(q: int, s: int): (h: CubeHex)
    ensures Valid(h) && h.q == q && h.s == s
  {
    CubeHex(q, -q - s, s)
  }

  function FromAxialQr(q: int, r: int): (h: CubeHex)
    ensures Valid(h) && h.q == q && h.r == r
  {
    CubeHex(q, r, -q - r)
  }

  /** The corner-index table of `edge`. */
  const EDGE_INDICES: seq<(int, int)> := [(0, 1), (1, 2), (2, 3), (3, 4), (4, 5), (5, 0)]

  /** The pair of corner indices bounding side `i` (taken modulo 6). */
  function EdgeCorners(i: int): (c: (int, int))
    ensures c == (i % 6, (i + 1) % 6)
  {
    EDGE_INDICES[i % |EDGE_INDICES|]
  }

  /** `edge`: the two corners of side `i`, where `corner(h, k)` stands for the
      trigonometric corner computation at the zone's hex size. */
  function HexEdge(h: CubeHex, i: int, corner: (CubeHex, int) -> Point): (e: Edge)
    ensures e == (corner(h, i % 6), corner(h, (i + 1) % 6))
  {
    (corner(h, EdgeCorners(i).0), corner(h, EdgeCorners(i).1))
  }

  // ---------------------------------------------------------------------
  // Rounding to the nearest hex (`hex_round` inside `from_pixel`)
  // ---------------------------------------------------------------------

  /** Python's `round` on one argument: to the nearest integer, halves to
      the even neighbour. */
  function RoundHalfEven(x: real): (n: int)
    ensures AbsReal(n as real - x) <= 0.5
    ensures AbsReal(n as real - x) == 0.5 ==> n % 2 == 0
    ensures AbsReal(n as real - x) < 0.5 || (x - x.Floor as real == 0.5)
  {
    var f := x.Floor;
    var frac := x - f as real;
    if frac < 0.5 then f
    else if frac > 0.5 then f + 1
    else if f % 2 == 0 then f
    else f + 1
  }

  /** The rounding delta |round(x) - x| of one axis. */
  function RoundingDelta(x: real): real {
    AbsReal(RoundHalfEven(x) as real - x)
  }

  /** `hex_round`: round each axis on its own, then recompute from the other
      two the axis whose delta is largest (q when its delta strictly exceeds
      both others, else r when its delta exceeds s's, else s). */
  function HexRound(qf: real, rf: real, sf: real): (h: CubeHex)
    ensures Valid(h)
    ensures var q, r, s := RoundHalfEven(qf), RoundHalfEven(rf), RoundHalfEven(sf);
            (h.r == r && h.s == s) || (h.q == q && h.s == s) || (h.q == q && h.r == r)
    ensures h.q != RoundHalfEven(qf) ==>
              RoundingDelta(qf) > RoundingDelta(rf) && RoundingDelta(qf) > RoundingDelta(sf)
    ensures h.r != RoundHalfEven(rf) ==>
              RoundingDelta(rf) >= RoundingDelta(qf) && RoundingDelta(rf) > RoundingDelta(sf)
    ensures h.s != RoundHalfEven(sf) ==>
              RoundingDelta(sf) >= RoundingDelta(qf) && RoundingDelta(sf) >= RoundingDelta(rf)
  {
    var q, r, s := RoundHalfEven(qf), RoundHalfEven(rf), RoundHalfEven(sf);
    var qDiff, rDiff, sDiff := AbsReal(q as real - qf), AbsReal(r as real - rf), AbsReal(s as real - sf);
    if qDiff > rDiff && qDiff > sDiff then CubeHex(-r - s, r, s)
    else if rDiff > sDiff then CubeHex(q, -q - s, s)
    else CubeHex(q, r, -q - r)
  }

  /** The rounding step of `from_pixel`, applied to the fractional (q, r)
      that its sqrt(3) step computes, with s derived as -q - r. */
  function FromFractional(qf: real, rf: real): (h: CubeHex)
    ensures Valid(h)
  {
    HexRound(qf, rf, -qf - rf)
  }

  // ---------------------------------------------------------------------
  // Lemmas
  // ---------------------------------------------------------------------

  /** Every direction vector is a valid unit offset, and the opposite
      direction (three steps round) is its negation. */
  lemma DirectionTable(d: int)
    requires 0 <= d < 6
    ensures var v := DIRECTION_VECTORS[d];
            Valid(v) && Max3(Abs(v.q), Abs(v.r), Abs(v.s)) == 1
    ensures DIRECTION_VECTORS[(d + 3) % 6] == Negate(DIRECTION_VECTORS[d])
  {
  }

  lemma {:induction false} DistanceSymmetric(a: CubeHex, b: CubeHex)
    ensures Distance(a, b) == Distance(b, a)
  {
    assert Abs(a.q - b.q) == Abs(b.q - a.q);
    assert Abs(a.r - b.r) == Abs(b.r - a.r);
    assert Abs(a.s - b.s) == Abs(b.s - a.s);
  }

  /** The direction of `neighbor` only matters modulo 6, negatives included. */
  lemma NeighborPeriodic(h: CubeHex, d: int, k: int)
    ensures Neighbor(h, d + 6 * k) == Neighbor(h, d)
  {
    assert (d + 6 * k) % 6 == d % 6;
  }

  /** Stepping in direction d and then in direction d + 3 comes back. */
  lemma NeighborInverse(h: CubeHex, d: int)
    ensures Neighbor(Neighbor(h, d), d + 3) == h
  {
    var m := d % 6;
    assert (d + 3) % 6 == (m + 3) % 6;
    DirectionTable(m);
  }

  /** Two neighbours in different directions are different hexes. */
  lemma NeighborsDistinct(h: CubeHex, d: int, e: int)
    requires 0 <= d < 6 && 0 <= e < 6 && d != e
    ensures Neighbor(h, d) != Neighbor(h, e)
  {
    assert d % 6 == d && e % 6 == e;
  }

  /** The axial constructors undo the projection onto two axes. */
  lemma AxialRoundTrip(h: CubeHex)
    requires Valid(h)
    ensures FromAxialRs(h.r, h.s) == h
    ensures FromAxialQs(h.q, h.s) == h
    ensures FromAxialQr(h.q, h.r) == h
  {
  }

  /** Side i ends at the corner where side i + 1 starts. */
  lemma EdgeChain(i: int)
    ensures EdgeCorners(i).1 == EdgeCorners(i + 1).0
  {
  }

  lemma RoundIntegral(n: int)
    ensures RoundHalfEven(n as real) == n
  {
    assert (n as real).Floor == n;
  }

  /** A lattice point rounds to itself. */
  lemma {:induction false} HexRoundLattice(h: CubeHex)
    requires Valid(h)
    ensures FromFractional(h.q as real, h.r as real) == h
  {
    assert -(h.q as real) - (h.r as real) == h.s as real;
    RoundIntegral(h.q);
    RoundIntegral(h.r);
    RoundIntegral(h.s);
  }

  /** When the fractional coordinates satisfy the invariant, every axis of
      the rounded hex lies within 1 of its fractional value. */
  lemma {:induction false} HexRoundNear(qf: real, rf: real, sf: real)
    requires qf + rf + sf == 0.0
    ensures var h := HexRound(qf, rf, sf);
            AbsReal(h.q as real - qf) <= 1.0 && AbsReal(h.r as real - rf) <= 1.0 &&
            AbsReal(h.s as real - sf) <= 1.0
  {
    var q, r, s := RoundHalfEven(qf), RoundHalfEven(rf), RoundHalfEven(sf);
    var h := HexRound(qf, rf, sf);
    assert h.q as real - qf == -((h.r as real - rf) + (h.s as real - sf));
    assert h.r as real - rf == -((h.q as real - qf) + (h.s as real - sf));
    assert h.s as real - sf == -((h.q as real - qf) + (h.r as real - rf));
  }
}
