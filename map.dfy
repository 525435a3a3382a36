/** The affine transforms between world coordinates and the 1024-pixel map
    (src/map.py; src/drawing.py:25-37 holds a second copy).  A world point
    is (x, z); a map point is (column, row).  All arithmetic is over the
    reals: the scale factors are powers of two, so the float computation of
    the source is exact except for the final rounding of the sums. */
module MapTransforms {
  import opened CubeHexes

  const WORLD_SIZE: int := 8192
  const MAP_SIZE: int := 1024

  /** MAP_SIZE / WORLD_SIZE, as Python's true division computes it. */
  function MapRatio(): (k: real)
    ensures k * 8.0 == 1.0
  {
    MAP_SIZE as real / WORLD_SIZE as real
  }

  /** WORLD_SIZE / MAP_SIZE, the ratio of `map_to_world`. */
  function WorldRatio(): (k: real)
    ensures k == 8.0 && k * MapRatio() == 1.0
  {
    WORLD_SIZE as real / MAP_SIZE as real
  }

  function Shift(p: Point, o: Point): Point {
    (p.0 + o.0, p.1 + o.1)
  }

  /** `world_to_map`: offsets are added first, the axes are swapped, the
      result is scaled down by eight and the second axis is flipped. */
  function WorldToMap(p: Point, o: Point): (m: Point)
    ensures 8.0 * m.0 == p.1 + o.1
    ensures 8.0 * m.1 == -(p.0 + o.0)
  {
    (MapRatio() * (p.1 + o.1), MapRatio() * -(p.0 + o.0))
  }

  /** `world_to_map_outline`: the same without the flip of the second axis. */
  function WorldToMapOutline(p: Point, o: Point): (m: Point)
    ensures 8.0 * m.0 == p.1 + o.1
    ensures 8.0 * m.1 == p.0 + o.0
  {
    (MapRatio() * (p.1 + o.1), MapRatio() * (p.0 + o.0))
  }

  /** `map_to_world`: offsets added, scaled up by eight, the axes swapped
      back, the new first axis flipped. */
  function MapToWorld(m: Point, o: Point): (w: Point)
    ensures w.0 == -8.0 * (m.1 + o.1)
    ensures w.1 == 8.0 * (m.0 + o.0)
  {
    (WorldRatio() * -(m.1 + o.1), WorldRatio() * (m.0 + o.0))
  }

  /** Mapping a world point and mapping it back gives the offset point. */
  lemma {:induction false} MapRoundTrip(p: Point, o: Point)
    ensures MapToWorld(WorldToMap(p, o), (0.0, 0.0)) == Shift(p, o)
  {
    var m := WorldToMap(p, o);
    assert -8.0 * m.1 == p.0 + o.0;
    assert 8.0 * m.0 == p.1 + o.1;
  }

  /** ... and the other way round. */
  lemma {:induction false} WorldRoundTrip(m: Point, o: Point)
    ensures WorldToMap(MapToWorld(m, o), (0.0, 0.0)) == Shift(m, o)
  {
    var w := MapToWorld(m, o);
    assert 8.0 * WorldToMap(w, (0.0, 0.0)).0 == 8.0 * (m.0 + o.0);
    assert 8.0 * WorldToMap(w, (0.0, 0.0)).1 == 8.0 * (m.1 + o.1);
  }

  /** The offsets are added before scaling: they fold into the point. */
  lemma OffsetsFold(p: Point, o: Point)
    ensures WorldToMap(p, o) == WorldToMap(Shift(p, o), (0.0, 0.0))
    ensures WorldToMapOutline(p, o) == WorldToMapOutline(Shift(p, o), (0.0, 0.0))
    ensures MapToWorld(p, o) == MapToWorld(Shift(p, o), (0.0, 0.0))
  {
  }

  /** The outline transform agrees with `world_to_map` on the first axis and
      mirrors it on the second. */
  lemma OutlineMirrors(p: Point, o: Point)
    ensures WorldToMapOutline(p, o).0 == WorldToMap(p, o).0
    ensures WorldToMapOutline(p, o).1 == -WorldToMap(p, o).1
  {
  }

  /** The far corner of the world square lands on the far corner of the map. */
  lemma WorldCornerToMapCorner()
    ensures WorldToMapOutline((WORLD_SIZE as real, WORLD_SIZE as real), (0.0, 0.0)) ==
            (MAP_SIZE as real, MAP_SIZE as real)
  {
    assert MapRatio() == 0.125;
  }
}
