/** The parts of src/drawing.py that differ from src/cube_hex.py,
    src/map_region.py and src/map.py: the world hex size chosen by zone,
    the world-space centre and corners of a hex, `world_edge`, the zone
    corner its `Region` stitches with, the decoding of the map hexes of the
    Census data, and its own `world_to_map_outline`.  The rest of the file's
    `CubeHex` and `Region` are the classes modelled in CubeHexes and
    MapRegion.

    The trigonometry of a corner uses angles 60i - 30 degrees, whose sines
    are halves and units and whose cosines are multiples of sqrt(3) / 2; the
    model takes the value used for sqrt(3) as a parameter and the table
    values as exact. */
module Drawing {
  import opened CubeHexes
  import opened MapRegion
  import MapTransforms
  import Wrappers

  /** ZoneID.OSHUR. */
  const OSHUR: int := 344

  /** The world hex size of `to_world` and `world_corner`. */
  function WorldHexSize(oshur: bool): (size: real)
    ensures size > 0.0
    ensures oshur ==> 2.0 * size == WorldHexSize(false)
  {
    if oshur then 57.75 else 115.5
  }

  /** `to_world`: the world-space centre of a hex. */
  function ToWorld(h: CubeHex, oshur: bool, sqrt3: real): Point {
    var size := WorldHexSize(oshur);
    (size * (h.r as real * -1.5 - 0.5), size * sqrt3 * (h.q as real + 0.5 * h.r as real - 0.5))
  }

  /** The centres form a lattice: moving a hex by k moves its centre by the
      same vector wherever the hex is. */
  lemma ToWorldTranslates(h: CubeHex, k: CubeHex, oshur: bool, sqrt3: real)
    ensures var size := WorldHexSize(oshur);
            var a, b := ToWorld(h, oshur, sqrt3), ToWorld(Add(h, k), oshur, sqrt3);
            && b.0 - a.0 == size * -1.5 * k.r as real
            && b.1 - a.1 == size * sqrt3 * (k.q as real + 0.5 * k.r as real)
  {
  }

  /** sin(60i - 30 degrees), for i modulo 6. */
  const SINES: seq<real> := [-0.5, 0.5, 1.0, 0.5, -0.5, -1.0]

  /** cos(60i - 30 degrees) in units of sqrt(3) / 2, for i modulo 6. */
  const COSINE_HALVES: seq<real> := [1.0, 1.0, 0.0, -1.0, -1.0, 0.0]

  /** (sin, cos) of corner i's angle. */
  function CornerAngle(i: int, sqrt3: real): (real, real) {
    (SINES[i % 6], COSINE_HALVES[i % 6] * sqrt3 / 2.0)
  }

  /** The unrounded corner: the centre plus size times (sin, cos). */
  function RawCorner(h: CubeHex, i: int, oshur: bool, sqrt3: real): Point {
    var size := WorldHexSize(oshur);
    var c := ToWorld(h, oshur, sqrt3);
    var a := CornerAngle(i, sqrt3);
    (c.0 + size * a.0, c.1 + size * a.1)
  }

  /** Python's `round(x, 2)`, taken on the exact value. */
  function RoundCents(x: real): (y: real)
    ensures AbsReal(y - x) <= 0.005
  {
    RoundHalfEven(x * 100.0) as real / 100.0
  }

  /** `world_corner`: x rounded to two decimals, z to a whole number. */
  function WorldCorner(h: CubeHex, i: int, oshur: bool, sqrt3: real): (p: Point)
    ensures AbsReal(p.0 - RawCorner(h, i, oshur, sqrt3).0) <= 0.005
    ensures AbsReal(p.1 - RawCorner(h, i, oshur, sqrt3).1) <= 0.5
    ensures p.1 == p.1.Floor as real
  {
    var raw := RawCorner(h, i, oshur, sqrt3);
    (RoundCents(raw.0), RoundHalfEven(raw.1) as real)
  }

  /** `world_edge`: the two corners of side i, from the corner-index table. */
  function WorldEdge(h: CubeHex, i: int, oshur: bool, sqrt3: real): Edge {
    var k := EdgeCorners(i);
    (WorldCorner(h, k.0, oshur, sqrt3), WorldCorner(h, k.1, oshur, sqrt3))
  }

  /** The corner function a `Region` of zone `zoneId` stitches with. */
  function ZoneCorner(zoneId: int, sqrt3: real): (CubeHex, int) -> Point {
    (h: CubeHex, i: int) => WorldCorner(h, i, zoneId == OSHUR, sqrt3)
  }

  /** The decoding of the Census map hexes at src/drawing.py:515. */
  function DecodeMapHex(x: int, y: int): (h: CubeHex)
    ensures Valid(h) && h.s == -x && h.r == -y - 1
  {
    FromAxialRs(-y - 1, -x)
  }

  /** The encoding of src/convert_zone_data.py:32-37 that produced them. */
  function EncodeMapHex(h: CubeHex): (int, int) {
    (-h.s, -h.r - 1)
  }

  /** `world_to_map_outline` of src/drawing.py, which takes no offsets. */
  function WorldToMapOutline(p: Point): (m: Point)
    ensures 8.0 * m.0 == p.1 && 8.0 * m.1 == p.0
  {
    (MapTransforms.MapRatio() * p.1, MapTransforms.MapRatio() * p.0)
  }

  // ---------------------------------------------------------------------
  // Lemmas
  // ---------------------------------------------------------------------

  /** On Oshur every centre coordinate is half the default one. */
  lemma {:induction false} OshurCentreHalf(h: CubeHex, sqrt3: real)
    ensures 2.0 * ToWorld(h, true, sqrt3).0 == ToWorld(h, false, sqrt3).0
    ensures 2.0 * ToWorld(h, true, sqrt3).1 == ToWorld(h, false, sqrt3).1
  {
    var t := sqrt3 * (h.q as real + 0.5 * h.r as real - 0.5);
    assert 57.75 * sqrt3 * (h.q as real + 0.5 * h.r as real - 0.5) == 57.75 * t;
    assert 115.5 * sqrt3 * (h.q as real + 0.5 * h.r as real - 0.5) == 115.5 * t;
  }

  /** The angle table lies on the unit circle when sqrt3 is a square root of 3. */
  lemma UnitCircle(i: int, sqrt3: real)
    requires sqrt3 * sqrt3 == 3.0
    ensures var a := CornerAngle(i, sqrt3);
            a.0 * a.0 + a.1 * a.1 == 1.0
  {
    var k := COSINE_HALVES[i % 6];
    assert k * sqrt3 / 2.0 * (k * sqrt3 / 2.0) == k * k * (sqrt3 * sqrt3) / 4.0;
  }

  /** Sides chain: side i ends where side i + 1 starts. */
  lemma WorldEdgeChain(h: CubeHex, i: int, oshur: bool, sqrt3: real)
    ensures WorldEdge(h, i, oshur, sqrt3).1 == WorldEdge(h, i + 1, oshur, sqrt3).0
  {
    EdgeChain(i);
  }

  /** `world_edge(i)` pairs corners i mod 6 and (i + 1) mod 6, exactly the
      generic `edge` taken with the zone's corner function. */
  lemma ZoneEdge(zoneId: int, sqrt3: real, h: CubeHex, i: int)
    ensures WorldEdge(h, i, zoneId == OSHUR, sqrt3) ==
            (WorldCorner(h, i % 6, zoneId == OSHUR, sqrt3), WorldCorner(h, (i + 1) % 6, zoneId == OSHUR, sqrt3))
    ensures HexEdge(h, i, ZoneCorner(zoneId, sqrt3)) == WorldEdge(h, i, zoneId == OSHUR, sqrt3)
  {
  }

  /** The queue of `get_outline` in src/drawing.py holds, for each boundary
      side, `world_edge(dir, zone == OSHUR)`. */
  lemma {:induction false} ZonePile(sides: seq<Side>, zoneId: int, sqrt3: real)
    ensures var pile := PileOf(sides, ZoneCorner(zoneId, sqrt3));
            forall k :: 0 <= k < |sides| ==>
              pile[k] == WorldEdge(sides[k].hex, sides[k].dir, zoneId == OSHUR, sqrt3)
  {
    forall k | 0 <= k < |sides|
      ensures PileOf(sides, ZoneCorner(zoneId, sqrt3))[k] ==
              WorldEdge(sides[k].hex, sides[k].dir, zoneId == OSHUR, sqrt3)
    {
      ZoneEdge(zoneId, sqrt3, sides[k].hex, sides[k].dir);
    }
  }

  lemma Distribute(a: real, b: real, c: real)
    ensures a * b + a * c == a * (b + c)
  {
  }

  /** Corner i of h along x, in units of the hex size ... */
  function XOffset(h: CubeHex, i: int): real {
    h.r as real * -1.5 - 0.5 + SINES[i % 6]
  }

  /** ... and along z, in units of size * sqrt3. */
  function ZOffset(h: CubeHex, i: int): real {
    h.q as real + 0.5 * h.r as real - 0.5 + COSINE_HALVES[i % 6] / 2.0
  }

  lemma {:induction false} RawCornerX(h: CubeHex, i: int, oshur: bool, sqrt3: real)
    ensures RawCorner(h, i, oshur, sqrt3).0 == WorldHexSize(oshur) * XOffset(h, i)
  {
    Distribute(WorldHexSize(oshur), h.r as real * -1.5 - 0.5, SINES[i % 6]);
  }

  lemma {:induction false} RawCornerZ(h: CubeHex, i: int, oshur: bool, sqrt3: real)
    ensures RawCorner(h, i, oshur, sqrt3).1 == (WorldHexSize(oshur) * sqrt3) * ZOffset(h, i)
  {
    var size := WorldHexSize(oshur);
    var k := COSINE_HALVES[i % 6];
    var a := h.q as real + 0.5 * h.r as real - 0.5;
    assert RawCorner(h, i, oshur, sqrt3).1 == size * sqrt3 * a + size * (k * sqrt3 / 2.0);
    assert size * (k * sqrt3 / 2.0) == (size * sqrt3) * (k / 2.0);
    Distribute(size * sqrt3, a, k / 2.0);
  }

  /** The step to the neighbour in direction d moves corner d + 4 onto
      corner d and corner d + 3 onto corner d + 1. */
  lemma CornerTable(h: CubeHex, d: int)
    requires 0 <= d < 6
    ensures XOffset(Neighbor(h, d), (d + 4) % 6) == XOffset(h, d)
    ensures XOffset(Neighbor(h, d), (d + 3) % 6) == XOffset(h, (d + 1) % 6)
    ensures ZOffset(Neighbor(h, d), (d + 4) % 6) == ZOffset(h, d)
    ensures ZOffset(Neighbor(h, d), (d + 3) % 6) == ZOffset(h, (d + 1) % 6)
  {
    var v := DIRECTION_VECTORS[d];
    assert Neighbor(h, d) == CubeHex(h.q + v.q, h.r + v.r, h.s + v.s);
  }

  /** Raw corners with the same offsets coincide. */
  lemma {:induction false} SameRawCorner(a: CubeHex, i: int, b: CubeHex, j: int, oshur: bool, sqrt3: real)
    requires XOffset(a, i) == XOffset(b, j) && ZOffset(a, i) == ZOffset(b, j)
    ensures RawCorner(a, i, oshur, sqrt3) == RawCorner(b, j, oshur, sqrt3)
  {
    var size := WorldHexSize(oshur);
    RawCornerX(a, i, oshur, sqrt3);
    RawCornerX(b, j, oshur, sqrt3);
    ScaleEqual(size, XOffset(a, i), XOffset(b, j));
    RawCornerZ(a, i, oshur, sqrt3);
    RawCornerZ(b, j, oshur, sqrt3);
    ScaleEqual(size * sqrt3, ZOffset(a, i), ZOffset(b, j));
    var p, q := RawCorner(a, i, oshur, sqrt3), RawCorner(b, j, oshur, sqrt3);
    assert p.0 == q.0;
    assert p.1 == q.1;
  }

  lemma ScaleEqual(k: real, x: real, y: real)
    requires x == y
    ensures k * x == k * y
  {
  }

  /** Corner d of h is corner d + 4 of its neighbour in direction d, and
      corner d + 1 of h is corner d + 3 of that neighbour, before rounding. */
  lemma SharedRawCorners(h: CubeHex, d: int, oshur: bool, sqrt3: real)
    requires 0 <= d < 6
    ensures RawCorner(Neighbor(h, d), (d + 4) % 6, oshur, sqrt3) == RawCorner(h, d, oshur, sqrt3)
    ensures RawCorner(Neighbor(h, d), (d + 3) % 6, oshur, sqrt3) == RawCorner(h, (d + 1) % 6, oshur, sqrt3)
  {
    CornerTable(h, d);
    SameRawCorner(Neighbor(h, d), (d + 4) % 6, h, d, oshur, sqrt3);
    SameRawCorner(Neighbor(h, d), (d + 3) % 6, h, (d + 1) % 6, oshur, sqrt3);
  }

  /** Neighbouring hexes share a side: side d + 3 of the neighbour in
      direction d is side d of h, traversed backwards. */
  lemma SharedSide(h: CubeHex, d: int, oshur: bool, sqrt3: real)
    requires 0 <= d < 6
    ensures var e := WorldEdge(h, d, oshur, sqrt3);
            WorldEdge(Neighbor(h, d), d + 3, oshur, sqrt3) == (e.1, e.0)
  {
    SharedRawCorners(h, d, oshur, sqrt3);
    assert d % 6 == d && (d + 3 + 1) % 6 == (d + 4) % 6;
  }

  /** Decoding undoes the encoding of every valid hex ... */
  lemma DecodeEncode(h: CubeHex)
    requires Valid(h)
    ensures DecodeMapHex(EncodeMapHex(h).0, EncodeMapHex(h).1) == h
  {
  }

  /** ... and encoding undoes the decoding of every (x, y). */
  lemma EncodeDecode(x: int, y: int)
    ensures EncodeMapHex(DecodeMapHex(x, y)) == (x, y)
  {
  }

  /** Without offsets, src/drawing.py's outline transform is src/map.py's. */
  lemma OutlineTransformsAgree(p: Point)
    ensures WorldToMapOutline(p) == MapTransforms.WorldToMapOutline(p, (0.0, 0.0))
  {
  }

  /** A region of a zone, as src/drawing.py builds it (drawing.py:166-190):
      the hex set plus the zone's corner function. */
  method NewZoneRegion(zoneId: int, hexes: seq<CubeHex>, sqrt3: real) returns (region: Region)
    ensures fresh(region)
    ensures region.hexes == (set h | h in hexes) && region.shape == [] && region.dirty
    ensures region.corner == ZoneCorner(zoneId, sqrt3)
  {
    region := new Region(Wrappers.None, hexes, ZoneCorner(zoneId, sqrt3));
  }
}
