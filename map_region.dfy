/** A map region and its outline (src/map_region.py; src/drawing.py:166-246
    is the same class).  The outline is rebuilt from the region's boundary
    sides: every side of a member hex whose neighbour is not a member is
    queued, the first queued edge seeds the point list, and the remaining
    edges are stitched in by tolerance matching, requeueing an edge that
    touches nothing yet. */
module MapRegion {
  import opened CubeHexes
  import opened Wrappers

  /** A side of a hex: the hex and a direction 0..5. */
  datatype Side = Side(hex: CubeHex, dir: int)

  /** Side k is queued: its hex is a member and its neighbour is not. */
  predicate IsBoundary(hexes: set<CubeHex>, k: Side) {
    k.hex in hexes && 0 <= k.dir < 6 && Neighbor(k.hex, k.dir) !in hexes
  }

  function BoundarySides(hexes: set<CubeHex>): set<Side> {
    set h, d | h in hexes && 0 <= d < 6 && Neighbor(h, d) !in hexes :: Side(h, d)
  }

  predicate Distinct<T(==)>(s: seq<T>) {
    forall i, j :: 0 <= i < j < |s| ==> s[i] != s[j]
  }

  /** The hex set a region starts with: one hex per triple of `hex_tuples`
      when it is given (the triples are not checked to sum to zero), and
      otherwise the hexes of the list. */
  function InitialHexes(hexTuples: Option<seq<(int, int, int)>>, hexList: seq<CubeHex>): (r: set<CubeHex>)
    ensures hexTuples.Some? ==>
              forall h :: h in r <==> exists i :: 0 <= i < |hexTuples.value| && hexTuples.value[i] == (h.q, h.r, h.s)
    ensures hexTuples.None? ==> forall h :: h in r <==> h in hexList
  {
    match hexTuples
    case Some(ts) => set i | 0 <= i < |ts| :: CubeHex(ts[i].0, ts[i].1, ts[i].2)
    case None => set h | h in hexList
  }

  /** The sides of each hex sit together in the queue ... */
  predicate Grouped(sides: seq<Side>) {
    forall i, j, k :: 0 <= i < j < k < |sides| && sides[i].hex == sides[k].hex ==> sides[j].hex == sides[i].hex
  }

  /** ... and in increasing direction. */
  predicate DirectionOrdered(sides: seq<Side>) {
    forall i, j :: 0 <= i < j < |sides| && sides[i].hex == sides[j].hex ==> sides[i].dir < sides[j].dir
  }

  /** The inner loop of the queue filling: the boundary sides of h, in
      direction order, are appended to the queue. */
  method QueueSidesOf(hexes: set<CubeHex>, h: CubeHex, sides0: seq<Side>) returns (sides: seq<Side>)
    requires h in hexes && Distinct(sides0) && forall k :: k in sides0 ==> k.hex != h
    ensures forall k :: k in sides <==> k in sides0 || (k.hex == h && IsBoundary(hexes, k))
    ensures Distinct(sides)
    ensures |sides| >= |sides0| && sides[..|sides0|] == sides0
    ensures forall i :: |sides0| <= i < |sides| ==> sides[i].hex == h
    ensures forall i, j :: |sides0| <= i < j < |sides| ==> sides[i].dir < sides[j].dir
  {
    sides := sides0;
    var d := 0;
    while d < 6
      invariant 0 <= d <= 6
      invariant forall k :: k in sides <==> k in sides0 || (k.hex == h && k.dir < d && IsBoundary(hexes, k))
      invariant Distinct(sides)
      invariant |sides| >= |sides0| && sides[..|sides0|] == sides0
      invariant forall i :: |sides0| <= i < |sides| ==> sides[i].hex == h && 0 <= sides[i].dir < d
      invariant forall i, j :: |sides0| <= i < j < |sides| ==> sides[i].dir < sides[j].dir
    {
      if Neighbor(h, d) !in hexes {
        sides := sides + [Side(h, d)];
      }
      d := d + 1;
    }
  }

  /** The queue-filling loops of `get_outline`.  Python iterates the hex set
      in an unspecified order; here any member may be taken next.  Whatever
      the order, each hex's sides are queued together, in direction order. */
  method CollectBoundary(hexes: set<CubeHex>) returns (sides: seq<Side>)
    ensures forall k :: k in sides <==> IsBoundary(hexes, k)
    ensures Distinct(sides)
    ensures Grouped(sides) && DirectionOrdered(sides)
  {
    sides := [];
    var todo := hexes;
    while todo != {}
      invariant todo <= hexes
      invariant forall k :: k in sides <==> IsBoundary(hexes, k) && k.hex !in todo
      invariant Distinct(sides)
      invariant Grouped(sides) && DirectionOrdered(sides)
      decreases |todo|
    {
      var h :| h in todo;
      ghost var before := sides;
      sides := QueueSidesOf(hexes, h, sides);
      AppendGroup(before, sides, h);
      todo := todo - {h};
    }
  }

  /** Appending a run of one new hex's sides, in direction order, keeps the
      queue grouped and ordered. */
  lemma AppendGroup(before: seq<Side>, after: seq<Side>, h: CubeHex)
    requires Grouped(before) && DirectionOrdered(before)
    requires forall k :: k in before ==> k.hex != h
    requires |after| >= |before| && after[..|before|] == before
    requires forall i :: |before| <= i < |after| ==> after[i].hex == h
    requires forall i, j :: |before| <= i < j < |after| ==> after[i].dir < after[j].dir
    ensures Grouped(after) && DirectionOrdered(after)
  {
  }

  /** The edges of the queued sides, in queue order. */
  function PileOf(sides: seq<Side>, corner: (CubeHex, int) -> Point): (pile: seq<Edge>)
    ensures |pile| == |sides|
  {
    seq(|sides|, i requires 0 <= i < |sides| => HexEdge(sides[i].hex, sides[i].dir, corner))
  }

  // ---------------------------------------------------------------------
  // Stitching
  // ---------------------------------------------------------------------

  /** Two points are the same outline vertex when both coordinates differ
      by less than one unit. */
  predicate Match(a: Point, b: Point) {
    // abs(dx) < 1 and abs(dy) < 1, written as two-sided bounds
    -1.0 < a.0 - b.0 < 1.0 && -1.0 < a.1 - b.1 < 1.0
  }

  predicate HasMatch(s: seq<Point>, p: Point) {
    exists j :: 0 <= j < |s| && Match(s[j], p)
  }

  /** The index of the last point of s[..n] matching p, or -1. */
  function LastMatchBelow(s: seq<Point>, p: Point, n: nat): (i: int)
    requires n <= |s|
    ensures -1 <= i < n
    ensures i >= 0 ==> Match(s[i], p)
    ensures forall j :: i < j < n ==> !Match(s[j], p)
    decreases n
  {
    if n == 0 then -1
    else if Match(s[n - 1], p) then n - 1
    else LastMatchBelow(s, p, n - 1)
  }

  /** The index of the last point of s matching p, or -1 when none does. */
  function LastMatch(s: seq<Point>, p: Point): (i: int)
    ensures -1 <= i < |s|
    ensures i >= 0 ==> Match(s[i], p)
    ensures i == -1 <==> !HasMatch(s, p)
  {
    LastMatchBelow(s, p, |s|)
  }

  /** The scan of one stitch iteration: it records, for each endpoint of e,
      the latest matching index seen, and stops as soon as both are found.
      Both are found exactly when both endpoints match somewhere; when only
      one is found, the scan ran to the end, so it is the last match. */
  method FindEndpoints(shape: seq<Point>, e: Edge) returns (index0: int, index1: int)
    ensures (index0 != -1 && index1 != -1) <==> (HasMatch(shape, e.0) && HasMatch(shape, e.1))
    ensures index1 == -1 ==> index0 == LastMatch(shape, e.0)
    ensures index0 == -1 ==> index1 == LastMatch(shape, e.1)
    ensures index0 != -1 ==> 0 <= index0 < |shape| && Match(shape[index0], e.0)
    ensures index1 != -1 ==> 0 <= index1 < |shape| && Match(shape[index1], e.1)
  {
    index0, index1 := -1, -1;
    var i := 0;
    while i < |shape|
      invariant 0 <= i <= |shape|
      invariant index0 == LastMatchBelow(shape, e.0, i)
      invariant index1 == LastMatchBelow(shape, e.1, i)
      invariant index0 == -1 || index1 == -1
    {
      if Match(shape[i], e.0) {
        index0 := i;
      }
      if Match(shape[i], e.1) {
        index1 := i;
      }
      if index0 != -1 && index1 != -1 {
        break;
      }
      i := i + 1;
    }
  }

  /** The point list and the queue of edges still to place. */
  datatype Stitched = Stitched(shape: seq<Point>, pending: seq<Edge>)

  /** Python's `list.insert(i, x)` for an index within the list. */
  function Insert(s: seq<Point>, i: nat, x: Point): (r: seq<Point>)
    requires i <= |s|
    ensures |r| == |s| + 1 && r[i] == x
  {
    s[..i] + [x] + s[i..]
  }

  /** The elements before i stay, the rest move up by one, and x is the one
      element added. */
  lemma InsertShifts(s: seq<Point>, i: nat, x: Point)
    requires i <= |s|
    ensures var r := Insert(s, i, x);
            && (forall j :: 0 <= j < i ==> r[j] == s[j])
            && (forall j :: i < j <= |s| ==> r[j] == s[j - 1])
            && multiset(r) == multiset(s) + multiset{x}
  {
    assert s == s[..i] + s[i..];
  }

  /** One iteration on edge e, with `rest` queued behind it (see StepCases). */
  function Step(shape: seq<Point>, e: Edge, rest: seq<Edge>): Stitched {
    var i0, i1 := LastMatch(shape, e.0), LastMatch(shape, e.1);
    if i0 != -1 && i1 != -1 then Stitched(shape, rest)
    else if i0 != -1 then Stitched(Insert(shape, i0 + 1, e.1), rest)
    else if i1 != -1 then Stitched(Insert(shape, i1, e.0), rest)
    else Stitched(shape, rest + [e])
  }

  /** Each iteration does exactly one thing: drop the edge when both
      endpoints already match, insert the unmatched endpoint beside the
      last point matching the other when exactly one matches, requeue the
      edge when neither does. */
  lemma {:induction false} StepCases(shape: seq<Point>, e: Edge, rest: seq<Edge>)
    ensures var r := Step(shape, e, rest);
            && (HasMatch(shape, e.0) && HasMatch(shape, e.1) ==> r == Stitched(shape, rest))
            && (!HasMatch(shape, e.0) && !HasMatch(shape, e.1) ==> r == Stitched(shape, rest + [e]))
            && (HasMatch(shape, e.0) && !HasMatch(shape, e.1) ==>
                  var i := LastMatch(shape, e.0);
                  && r.pending == rest
                  && multiset(r.shape) == multiset(shape) + multiset{e.1}
                  && i + 1 < |r.shape| && Match(r.shape[i], e.0) && r.shape[i + 1] == e.1)
            && (!HasMatch(shape, e.0) && HasMatch(shape, e.1) ==>
                  var i := LastMatch(shape, e.1);
                  && r.pending == rest
                  && multiset(r.shape) == multiset(shape) + multiset{e.0}
                  && i + 1 < |r.shape| && r.shape[i] == e.0 && Match(r.shape[i + 1], e.1))
  {
    var i0, i1 := LastMatch(shape, e.0), LastMatch(shape, e.1);
    if i0 != -1 && i1 == -1 {
      InsertShifts(shape, i0 + 1, e.1);
    } else if i0 == -1 && i1 != -1 {
      InsertShifts(shape, i1, e.0);
    }
  }

  /** p is an endpoint of some edge of the queue. */
  predicate IsEndpoint(queue: seq<Edge>, p: Point) {
    exists e :: e in queue && (p == e.0 || p == e.1)
  }

  /** One iteration adds at most one point, and only by taking its edge off
      the queue for good. */
  lemma StepLength(shape: seq<Point>, queue: seq<Edge>)
    requires queue != []
    ensures var st := Step(shape, queue[0], queue[1..]);
            && |shape| <= |st.shape| <= |shape| + 1
            && |st.shape| + |st.pending| <= |shape| + |queue|
  {
    StepCases(shape, queue[0], queue[1..]);
  }

  /** One iteration keeps every point. */
  lemma StepKeeps(shape: seq<Point>, queue: seq<Edge>)
    requires queue != []
    ensures multiset(shape) <= multiset(Step(shape, queue[0], queue[1..]).shape)
  {
    StepCases(shape, queue[0], queue[1..]);
  }

  /** One iteration adds only endpoints of its edge and queues nothing new. */
  lemma StepContents(shape: seq<Point>, queue: seq<Edge>)
    requires queue != []
    ensures var st := Step(shape, queue[0], queue[1..]);
            && (forall e :: e in st.pending ==> e in queue)
            && (forall p :: p in st.shape ==> p in shape || IsEndpoint(queue, p))
  {
    var e := queue[0];
    var st := Step(shape, e, queue[1..]);
    StepCases(shape, e, queue[1..]);
    assert e in queue;
    forall p | p in st.shape ensures p in shape || IsEndpoint(queue, p) {
      assert p in multiset(st.shape);
    }
  }

  lemma EndpointsOfSubqueue(small: seq<Edge>, large: seq<Edge>, p: Point)
    requires forall e :: e in small ==> e in large
    requires IsEndpoint(small, p)
    ensures IsEndpoint(large, p)
  {
    var e :| e in small && (p == e.0 || p == e.1);
    assert e in large;
  }

  /** At most `fuel` iterations of the stitch loop: the list never shrinks
      and gains at most one point per iteration, and every point gained
      takes one edge off the queue for good. */
  function StitchSpec(shape: seq<Point>, queue: seq<Edge>, fuel: nat): (r: Stitched)
    ensures |shape| <= |r.shape| <= |shape| + fuel
    ensures |r.shape| + |r.pending| <= |shape| + |queue|
    decreases fuel
  {
    if queue == [] || fuel == 0 then Stitched(shape, queue)
    else
      var st := Step(shape, queue[0], queue[1..]);
      StepLength(shape, queue);
      StitchSpec(st.shape, st.pending, fuel - 1)
  }

  /** One iteration of the budgeted loop, taken off the front. */
  lemma StitchUnfold(shape: seq<Point>, queue: seq<Edge>, fuel: nat)
    requires queue != [] && fuel > 0
    ensures var st := Step(shape, queue[0], queue[1..]);
            StitchSpec(shape, queue, fuel) == StitchSpec(st.shape, st.pending, fuel - 1)
  {
  }

  /** No point is ever removed from the list. */
  lemma {:induction false} StitchKeepsPoints(shape: seq<Point>, queue: seq<Edge>, fuel: nat)
    ensures multiset(shape) <= multiset(StitchSpec(shape, queue, fuel).shape)
    decreases fuel
  {
    if queue != [] && fuel != 0 {
      var st := Step(shape, queue[0], queue[1..]);
      var r := StitchSpec(st.shape, st.pending, fuel - 1);
      StitchUnfold(shape, queue, fuel);
      StepKeeps(shape, queue);
      StitchKeepsPoints(st.shape, st.pending, fuel - 1);
      SubMultisetTrans(multiset(shape), multiset(st.shape), multiset(r.shape));
    } else {
      assert StitchSpec(shape, queue, fuel).shape == shape;
    }
  }

  lemma SubMultisetTrans(a: multiset<Point>, b: multiset<Point>, c: multiset<Point>)
    requires a <= b && b <= c
    ensures a <= c
  {
  }

  /** The queue only ever holds edges of the original queue. */
  lemma {:induction false} StitchPendingFromQueue(shape: seq<Point>, queue: seq<Edge>, fuel: nat)
    ensures forall e :: e in StitchSpec(shape, queue, fuel).pending ==> e in queue
    decreases fuel
  {
    if queue != [] && fuel != 0 {
      var st := Step(shape, queue[0], queue[1..]);
      var r := StitchSpec(st.shape, st.pending, fuel - 1);
      StitchUnfold(shape, queue, fuel);
      StepContents(shape, queue);
      StitchPendingFromQueue(st.shape, st.pending, fuel - 1);
      forall e | e in r.pending ensures e in queue {
        assert e in st.pending;
      }
    }
  }

  /** The list only gains endpoints of edges of the original queue. */
  lemma {:induction false} StitchEndpoints(shape: seq<Point>, queue: seq<Edge>, fuel: nat)
    ensures forall p :: p in StitchSpec(shape, queue, fuel).shape ==> p in shape || IsEndpoint(queue, p)
    decreases fuel
  {
    if queue != [] && fuel != 0 {
      var st := Step(shape, queue[0], queue[1..]);
      var r := StitchSpec(st.shape, st.pending, fuel - 1);
      StitchUnfold(shape, queue, fuel);
      StepContents(shape, queue);
      StitchEndpoints(st.shape, st.pending, fuel - 1);
      forall p | p in r.shape ensures p in shape || IsEndpoint(queue, p) {
        if p !in st.shape {
          EndpointsOfSubqueue(st.pending, queue, p);
        }
      }
    }
  }

  /** One pass of the loop body of `get_outline` on edge e. */
  method StitchOne(shape: seq<Point>, e: Edge, rest: seq<Edge>) returns (shape': seq<Point>, pending: seq<Edge>)
    ensures Stitched(shape', pending) == Step(shape, e, rest)
  {
    var index0, index1 := FindEndpoints(shape, e);
    shape', pending := shape, rest;
    if index0 != -1 && index1 != -1 {
      // both endpoints already placed: the edge is dropped
    } else if index0 != -1 {
      shape' := Insert(shape, index0 + 1, e.1);
    } else if index1 != -1 {
      shape' := Insert(shape, index1, e.0);
    } else {
      pending := rest + [e];
    }
  }

  /** The stitch loop of `get_outline`, with a budget of `fuel` iterations
      (the source loop has none). */
  method Stitch(shape0: seq<Point>, pile: seq<Edge>, fuel: nat) returns (shape: seq<Point>, pending: seq<Edge>)
    ensures Stitched(shape, pending) == StitchSpec(shape0, pile, fuel)
  {
    shape, pending := shape0, pile;
    var budget := fuel;
    while pending != [] && budget > 0
      invariant StitchSpec(shape, pending, budget) == StitchSpec(shape0, pile, fuel)
      decreases budget
    {
      StitchUnfold(shape, pending, budget);
      shape, pending := StitchOne(shape, pending[0], pending[1..]);
      budget := budget - 1;
    }
  }

  /** Rebuilding on top of a point list: the first edge's two endpoints are
      appended, then the rest of the queue is stitched. */
  function Rebuild(shape0: seq<Point>, pile: seq<Edge>, fuel: nat): (r: Stitched)
    requires |pile| > 0
    ensures |r.shape| >= |shape0| + 2
  {
    StitchSpec(shape0 + [pile[0].0, pile[0].1], pile[1..], fuel)
  }

  datatype OutlineError = BudgetExhausted

  class Region {
    var hexes: set<CubeHex>
    var shape: seq<Point>
    var dirty: bool
    /** The corner computation at this region's zone hex size. */
    const corner: (CubeHex, int) -> Point

    /** `__init__`, with the two ways of giving the hexes. */
    constructor (hexTuples: Option<seq<(int, int, int)>>, hexList: seq<CubeHex>, corner: (CubeHex, int) -> Point)
      ensures hexes == InitialHexes(hexTuples, hexList) && shape == [] && dirty && this.corner == corner
    {
      hexes := InitialHexes(hexTuples, hexList);
      shape := [];
      dirty := true;
      this.corner := corner;
    }

    /** The cached point list is returned as it is. */
    predicate Cached()
      reads this
    {
      (!dirty && |shape| > 0) || |hexes| == 0
    }

    method AddHexes(hs: seq<CubeHex>)
      modifies this
      ensures hexes == old(hexes) + (set h | h in hs)
      ensures dirty && shape == old(shape)
    {
      hexes := hexes + (set h | h in hs);
      dirty := true;
    }

    method AddHex(h: CubeHex)
      modifies this
      ensures hexes == old(hexes) + {h}
      ensures dirty && shape == old(shape)
    {
      hexes := hexes + {h};
      dirty := true;
    }

    /** `get_outline`.  `sides` is the queue order chosen by the iteration
      over the hex set. */
    method GetOutline(fuel: nat) returns (outline: Result<seq<Point>, OutlineError>, ghost sides: seq<Side>)
      modifies this
      ensures hexes == old(hexes)
      ensures old(Cached()) ==> shape == old(shape) && dirty == old(dirty) && outline == Ok(shape)
      ensures !old(Cached()) ==>
                && (forall k :: k in sides <==> IsBoundary(hexes, k))
                && Distinct(sides) && |sides| > 0 && Grouped(sides) && DirectionOrdered(sides)
                && var st := Rebuild(old(shape), PileOf(sides, corner), fuel);
                   && shape == st.shape
                   && (st.pending == [] ==> !dirty && outline == Ok(shape))
                   && (st.pending != [] ==> dirty == old(dirty) && outline == Err(BudgetExhausted))
      ensures outline.Ok? ==> Cached() && outline.value == shape
    {
      outline, sides := OutlineFrom(shape, fuel);
    }

    /** `get_outline` as evidently intended: the rebuild starts from an empty
      point list instead of the stale one. */
    method RefreshOutline(fuel: nat) returns (outline: Result<seq<Point>, OutlineError>, ghost sides: seq<Side>)
      modifies this
      ensures hexes == old(hexes)
      ensures old(Cached()) ==> shape == old(shape) && dirty == old(dirty) && outline == Ok(shape)
      ensures !old(Cached()) ==>
                && (forall k :: k in sides <==> IsBoundary(hexes, k))
                && Distinct(sides) && |sides| > 0 && Grouped(sides) && DirectionOrdered(sides)
                && var st := Rebuild([], PileOf(sides, corner), fuel);
                   && shape == st.shape
                   && (st.pending == [] ==> !dirty && outline == Ok(shape))
                   && (st.pending != [] ==> dirty == old(dirty) && outline == Err(BudgetExhausted))
      ensures outline.Ok? ==> Cached() && outline.value == shape
    {
      outline, sides := OutlineFrom([], fuel);
    }

    /** The body of `get_outline`, with the list the rebuild extends given
      as `seed`: the cache test, then the boundary queue stitched onto
      `seed`. */
    method OutlineFrom(seed: seq<Point>, fuel: nat) returns (outline: Result<seq<Point>, OutlineError>, ghost sides: seq<Side>)
      modifies this
      ensures hexes == old(hexes)
      ensures old(Cached()) ==> shape == old(shape) && dirty == old(dirty) && outline == Ok(shape)
      ensures !old(Cached()) ==>
                && (forall k :: k in sides <==> IsBoundary(hexes, k))
                && Distinct(sides) && |sides| > 0 && Grouped(sides) && DirectionOrdered(sides)
                && var st := Rebuild(seed, PileOf(sides, corner), fuel);
                   && shape == st.shape
                   && (st.pending == [] ==> !dirty && outline == Ok(shape))
                   && (st.pending != [] ==> dirty == old(dirty) && outline == Err(BudgetExhausted))
      ensures outline.Ok? ==> Cached() && outline.value == shape
    {
      sides := [];
      if Cached() {
        return Ok(shape), sides;
      }
      var queued := CollectBoundary(hexes);
      sides := queued;
      NonEmptyHasBoundary(hexes);
      var pile := PileOf(queued, corner);
      var pending;
      shape, pending := Stitch(seed + [pile[0].0, pile[0].1], pile[1..], fuel);
      if pending == [] {
        dirty := false;
        outline := Ok(shape);
      } else {
        outline := Err(BudgetExhausted);
      }
    }
  }

  /** Two calls with no mutation in between give the same list, the second
      from the cache. */
  method OutlineTwice(region: Region, fuel: nat)
    returns (first: Result<seq<Point>, OutlineError>, second: Result<seq<Point>, OutlineError>)
    modifies region
    ensures first.Ok? ==> second == first
  {
    ghost var sides;
    first, sides := region.GetOutline(fuel);
    second, sides := region.GetOutline(fuel);
  }

  // ---------------------------------------------------------------------
  // Lemmas
  // ---------------------------------------------------------------------

  /** The hex with the greatest q of a non-empty set. */
  lemma {:induction false} MaxQHex(hexes: set<CubeHex>) returns (h: CubeHex)
    requires hexes != {}
    ensures h in hexes && forall x :: x in hexes ==> x.q <= h.q
    decreases |hexes|
  {
    var x :| x in hexes;
    if hexes == {x} {
      h := x;
    } else {
      var m := MaxQHex(hexes - {x});
      h := if m.q >= x.q then m else x;
    }
  }

  /** A non-empty hex set has a boundary side: the hex of greatest q has no
      member in direction 0.  So the first take from the queue never waits. */
  lemma NonEmptyHasBoundary(hexes: set<CubeHex>)
    requires hexes != {}
    ensures exists h :: h in hexes && IsBoundary(hexes, Side(h, 0))
  {
    var h := MaxQHex(hexes);
    assert Neighbor(h, 0).q == h.q + 1;
    assert IsBoundary(hexes, Side(h, 0));
  }

  /** A queue of distinct sides holding exactly the boundary sides has one
      entry per boundary side. */
  lemma {:induction false} DistinctCount(sides: seq<Side>, all: set<Side>)
    requires Distinct(sides)
    requires forall k :: k in sides <==> k in all
    ensures |sides| == |all|
    decreases |sides|
  {
    if sides != [] {
      var rest := all - {sides[0]};
      forall k | k in sides[1..] ensures k in rest {
        var j :| 1 <= j < |sides| && sides[j] == k;
        assert sides[0] != sides[j];
      }
      DistinctCount(sides[1..], rest);
    }
  }

  function SixSides(h: CubeHex): set<Side> {
    {Side(h, 0), Side(h, 1), Side(h, 2), Side(h, 3), Side(h, 4), Side(h, 5)}
  }

  lemma SixSidesCount(h: CubeHex)
    ensures |SixSides(h)| == 6
    ensures forall k :: k in SixSides(h) <==> k.hex == h && 0 <= k.dir < 6
  {
  }

  lemma BoundarySidesMember(hexes: set<CubeHex>, k: Side)
    ensures k in BoundarySides(hexes) <==> IsBoundary(hexes, k)
  {
    if IsBoundary(hexes, k) {
      assert k == Side(k.hex, k.dir);
    }
  }

  /** A lone hex has all six sides on the boundary. */
  lemma LoneHexSides(h: CubeHex)
    ensures BoundarySides({h}) == SixSides(h)
    ensures |BoundarySides({h})| == 6
  {
    SixSidesCount(h);
    forall k ensures k in BoundarySides({h}) <==> k in SixSides(h) {
      BoundarySidesMember({h}, k);
      if 0 <= k.dir < 6 {
        assert Distance(k.hex, Neighbor(k.hex, k.dir)) == 1;
      }
    }
  }

  /** When y lies in direction t of x, every side of x except side t is on
      the boundary of the pair {x, y}. */
  lemma PairFacing(x: CubeHex, y: CubeHex, t: int, k: Side)
    requires 0 <= t < 6 && Neighbor(x, t) == y && k.hex == x
    ensures IsBoundary({x, y}, k) <==> 0 <= k.dir < 6 && k.dir != t
  {
    if 0 <= k.dir < 6 {
      assert Distance(x, Neighbor(x, k.dir)) == 1;
      if k.dir != t {
        NeighborsDistinct(x, t, k.dir);
      }
    }
  }

  /** The boundary of two adjacent hexes, side by side. */
  lemma AdjacentPairMembers(h: CubeHex, n: CubeHex, d: int, back: int)
    requires 0 <= d < 6 && 0 <= back < 6
    requires Neighbor(h, d) == n && Neighbor(n, back) == h
    ensures BoundarySides({h, n}) == (SixSides(h) - {Side(h, d)}) + (SixSides(n) - {Side(n, back)})
  {
    var a := SixSides(h) - {Side(h, d)};
    var b := SixSides(n) - {Side(n, back)};
    SixSidesCount(h);
    SixSidesCount(n);
    assert {n, h} == {h, n};
    forall k ensures k in BoundarySides({h, n}) <==> k in a + b {
      BoundarySidesMember({h, n}, k);
      if k.hex == h {
        PairFacing(h, n, d, k);
      } else if k.hex == n {
        PairFacing(n, h, back, k);
      }
    }
  }

  /** Two adjacent hexes: the shared side is queued by neither, so ten
      sides remain. */
  lemma AdjacentPairSides(h: CubeHex, d: int)
    requires 0 <= d < 6
    ensures var n := Neighbor(h, d);
            BoundarySides({h, n}) == (SixSides(h) - {Side(h, d)}) + (SixSides(n) - {Side(n, (d + 3) % 6)})
    ensures |BoundarySides({h, Neighbor(h, d)})| == 10
  {
    var n := Neighbor(h, d);
    var back := (d + 3) % 6;
    NeighborInverse(h, d);
    NeighborPeriodic(n, back, (d + 3) / 6);
    assert Neighbor(n, back) == h;
    assert h != n by {
      assert Distance(h, n) == 1;
    }
    AdjacentPairMembers(h, n, d, back);
    var a := SixSides(h) - {Side(h, d)};
    var b := SixSides(n) - {Side(n, back)};
    FiveSides(h, d);
    FiveSides(n, back);
    assert a !! b by {
      SixSidesCount(h);
      SixSidesCount(n);
    }
  }

  lemma FiveSides(h: CubeHex, d: int)
    requires 0 <= d < 6
    ensures |SixSides(h) - {Side(h, d)}| == 5
  {
    SixSidesCount(h);
    assert Side(h, d) in SixSides(h);
  }

  /** Finding, as written: rebuilding on top of a cached outline keeps every
      old point and appends two more, so rebuilding an unchanged tile set
      never reproduces the cached outline. */
  lemma StaleRebuildGrows(cached: seq<Point>, pile: seq<Edge>, fuel: nat)
    requires |pile| > 0
    ensures multiset(cached) <= multiset(Rebuild(cached, pile, fuel).shape)
    ensures Rebuild(cached, pile, fuel).shape != cached
  {
    StitchKeepsPoints(cached + [pile[0].0, pile[0].1], pile[1..], fuel);
  }

  /** Finding, corrected: rebuilt from an empty list, the outline holds only
      endpoints of the current boundary edges, at most one more point than
      there are edges. */
  lemma FreshRebuildFromBoundary(pile: seq<Edge>, fuel: nat)
    requires |pile| > 0
    ensures var r := Rebuild([], pile, fuel);
            (forall p :: p in r.shape ==> IsEndpoint(pile, p)) && |r.shape| <= |pile| + 1
  {
    var seed := [pile[0].0, pile[0].1];
    var r := Rebuild([], pile, fuel);
    assert [] + seed == seed;
    StitchEndpoints(seed, pile[1..], fuel);
    forall p | p in r.shape ensures IsEndpoint(pile, p) {
      if p in seed {
        assert pile[0] in pile;
      } else {
        var e :| e in pile[1..] && (p == e.0 || p == e.1);
        assert e in pile;
      }
    }
  }
}
