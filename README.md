# PlanetSide 2 map hex overlays, modelled in Dafny

This project models the core of ps2-map-hex-overlays, a tool that draws the
hex-tiled facility regions of PlanetSide 2 continents as SVG and PNG overlays.
The modelled core is:

- the cube-coordinate hex algebra (`CubeHex`);
- the region outline builder, which collects a region's boundary edges and
  stitches them into one point list behind a dirty-flag cache;
- the map and world coordinate transforms;
- the selectable drawing hex of the tile picker;
- the faction colour hex encoder;
- the cairo-like SVG path context: path commands, graphics-state stack,
  group and defs nesting, and fill and stroke.

| file | module | source |
|---|---|---|
| wrappers.dfy | `Wrappers` | `Option` and `Result`, for Python's `None` and exceptions |
| python.dfy | `Python` | Python list indexing, negative indices included |
| cube_hex.dfy | `CubeHexes` | src/cube_hex.py (its copy is src/drawing.py:39-163) |
| map_region.dfy | `MapRegion` | src/map_region.py (its copy is src/drawing.py:166-246) |
| drawing.dfy | `Drawing` | the parts of src/drawing.py that differ from the two above |
| map.dfy | `MapTransforms` | src/map.py, and `Map.world_to_map` of src/drawing.py |
| drawing_hex.dfy | `DrawingHexes` | src/drawing_hex.py |
| faction_colors.dfy | `FactionColors` | src/constants/faction_colors.py |
| path_commands.dfy | `PathCommands` | the command classes and `Point` of src/path_drawer.py |
| path_drawer.dfy | `PathDrawer` | `pathContext` of src/path_drawer.py |

Modelling choices:

- Hexes are integer triples. The cube invariant q + r + s = 0 is a predicate
  (`CubeHexes.Valid`), because the source never checks it.
- Corner points are pairs of reals. `Region` takes its corner computation as
  a function, so the stitcher never sees trigonometry.
- The outline loop is unbounded in the source. The model gives it a budget
  (`fuel`) and reports `BudgetExhausted` when the budget runs out.
- Python's set iteration order is not fixed, so the order of the boundary
  queue is a free choice. Each contract holds for every such order.
- The SVG document is a list of elements. Each element has a tag, the index
  of its parent and an attribute map. Attribute values keep the numbers the
  source formats into strings.
- Python exceptions become `Err` results. On an error, the state is what
  Python leaves when the exception propagates: changes made before the
  raise stay.

## Model

| member | source | states |
|---|---|---|
| CubeHexes.Add | src/cube_hex.py:11-13 | two valid hexes add to a valid hex, and subtracting the second operand gives back the first |
| CubeHexes.Sub | src/cube_hex.py:15-17 | two valid hexes subtract to a valid hex |
| CubeHexes.Equals | src/cube_hex.py:22-23 | `__eq__` is exactly structural equality of (q, r, s) |
| CubeHexes.Max3 | src/cube_hex.py:33 | the maximum is one of the three values and at least each of them |
| CubeHexes.Distance | src/cube_hex.py:31-33 | the largest absolute component of the difference; 0 exactly when the hexes are equal |
| CubeHexes.DistanceSymmetric | src/cube_hex.py:31-33 | distance(a, b) == distance(b, a) |
| CubeHexes.Neighbor | src/cube_hex.py:35-37 | the neighbour in any direction is at distance 1, and valid when h is valid |
| CubeHexes.DirectionTable | src/cube_hex.py:93-94 | every direction vector is valid with unit components, and vector d + 3 is the negation of vector d |
| CubeHexes.NeighborPeriodic | src/cube_hex.py:36 | neighbor(h, d) == neighbor(h, d + 6k) for every integer k, negative ones included |
| CubeHexes.NeighborInverse | src/cube_hex.py:34-94 | stepping in direction d and then in direction d + 3 returns to h, for every integer d (`neighbor` reduces the direction modulo 6; the table is at lines 93-94) |
| CubeHexes.NeighborsDistinct | src/cube_hex.py:35-37 | the neighbours in two different directions 0..5 are different hexes |
| CubeHexes.FromAxialRs | src/cube_hex.py:57-59 | keeps r and s and derives q so that the hex is valid |
| CubeHexes.FromAxialQs | src/cube_hex.py:61-63 | keeps q and s and derives r so that the hex is valid |
| CubeHexes.FromAxialQr | src/cube_hex.py:65-67 | keeps q and r and derives s so that the hex is valid |
| CubeHexes.AxialRoundTrip | src/cube_hex.py:57-67 | each axial constructor rebuilds every valid hex from its two kept axes |
| CubeHexes.EdgeCorners | src/cube_hex.py:50-52 | side i has corners (i mod 6, (i + 1) mod 6) |
| CubeHexes.HexEdge | src/cube_hex.py:49-52 | `edge(i)` is corners i mod 6 and (i + 1) mod 6 of the hex |
| CubeHexes.EdgeChain | src/cube_hex.py:49-52 | side i ends at the corner where side i + 1 starts |
| CubeHexes.RoundHalfEven | src/cube_hex.py:75-77 | Python's `round`: within 1/2 of x, and an exact half goes to the even neighbour |
| CubeHexes.RoundIntegral | src/cube_hex.py:75-77 | an integer rounds to itself |
| CubeHexes.HexRound | src/cube_hex.py:74-90 | the result is valid whatever the inputs; two of its axes are the per-axis roundings; q is recomputed only when its delta strictly exceeds both others, r only when its delta is at least q's and exceeds s's, s only when its delta is at least both |
| CubeHexes.HexRoundLattice | src/cube_hex.py:74-90 | a valid lattice point rounds to itself |
| CubeHexes.HexRoundNear | src/cube_hex.py:74-90 | for inputs with qf + rf + sf = 0, every axis of the result is within 1 of its input |
| CubeHexes.FromFractional | src/cube_hex.py:73-91 | the rounding step of `from_pixel`, with s = -q - r, always gives a valid hex |
| MapRegion.QueueSidesOf | src/map_region.py:83-86 | the queue so far is kept as a prefix, and after it come exactly the sides of the hex whose neighbour is outside the set, each once, in increasing direction |
| MapRegion.CollectBoundary | src/map_region.py:81-86 | the queue holds every boundary side exactly once and nothing else; whatever order the set is iterated in, each hex's sides sit together, in increasing direction |
| MapRegion.AppendGroup | src/map_region.py:81-86 | appending one new hex's sides in direction order keeps the queue grouped by hex and ordered within each hex |
| MapRegion.PileOf | src/map_region.py:85-86 | one queued edge per queued side, in queue order |
| MapRegion.NonEmptyHasBoundary | src/map_region.py:81-88 | a non-empty hex set has a boundary side, so the first `pile.get()` never blocks |
| MapRegion.MaxQHex | src/map_region.py:81-88 | a non-empty set has a member of greatest q |
| MapRegion.DistinctCount | src/map_region.py:81-86 | a queue of distinct boundary sides is as long as the set of boundary sides |
| MapRegion.SixSidesCount | src/map_region.py:83 | a hex has exactly six sides |
| MapRegion.BoundarySidesMember | src/map_region.py:84 | a side is a boundary side exactly when its hex is in the set and its neighbour is not |
| MapRegion.LoneHexSides | src/map_region.py:82-86 | a lone hex queues all six of its sides |
| MapRegion.PairFacing | src/map_region.py:84 | for adjacent x and y, x's side facing y is not queued and its other five sides are |
| MapRegion.AdjacentPairMembers | src/map_region.py:82-86 | when h and n face each other in directions d and back, the boundary of {h, n} is the six sides of each minus the facing one |
| MapRegion.AdjacentPairSides | src/map_region.py:82-86 | two adjacent hexes have ten boundary sides: all but the shared side, seen from either hex |
| MapRegion.FiveSides | src/map_region.py:82-86 | removing one side of a hex leaves five |
| MapRegion.LastMatchBelow | src/map_region.py:93-97 | the last index below n whose point matches, or -1 when none does |
| MapRegion.LastMatch | src/map_region.py:93-97 | the last matching index of the whole list, or -1 when none matches |
| MapRegion.Match | src/map_region.py:94-97 | the test of the scan: both coordinates differ by less than 1 |
| MapRegion.FindEndpoints | src/map_region.py:92-99 | both indices are found exactly when both endpoints match somewhere; one found alone is the last match of its endpoint |
| MapRegion.Insert | src/map_region.py:103-105 | `list.insert`: one element added at i, the rest shifted |
| MapRegion.InsertShifts | src/map_region.py:103-105 | elements before i stay, the rest move up one, and x is the only element added |
| MapRegion.StepCases | src/map_region.py:93-107 | one iteration does exactly one of: drop the edge when both endpoints match; insert edge[1] after edge[0]'s match; insert edge[0] at edge[1]'s match; requeue the edge at the back |
| MapRegion.Step | src/map_region.py:91-107 | one iteration of the stitching loop; characterised by StepCases, StepLength, StepKeeps and StepContents |
| MapRegion.StepLength | src/map_region.py:100-107 | one iteration adds at most one point, and only by taking its edge off the queue for good |
| MapRegion.StepKeeps | src/map_region.py:100-107 | one iteration keeps every point of the list |
| MapRegion.StepContents | src/map_region.py:100-107 | one iteration adds only endpoints of its edge and queues nothing new |
| MapRegion.EndpointsOfSubqueue | src/map_region.py:90-107 | an endpoint of a sub-multiset of the queue is an endpoint of the queue |
| MapRegion.StitchSpec | src/map_region.py:90-107 | the list never shrinks and gains at most one point per iteration, and each point gained takes an edge off the queue |
| MapRegion.StitchUnfold | src/map_region.py:90-107 | with budget left, a run is one iteration followed by a run on the rest of the budget |
| MapRegion.StitchKeepsPoints | src/map_region.py:90-107 | no point is ever removed from the list |
| MapRegion.StitchPendingFromQueue | src/map_region.py:90-107 | the queue only ever holds edges of the original queue |
| MapRegion.StitchEndpoints | src/map_region.py:89-105 | the list only gains endpoints of edges of the original queue |
| MapRegion.StitchOne | src/map_region.py:91-107 | the loop body, imperatively: the new list and queue are those of one iteration |
| MapRegion.Stitch | src/map_region.py:90-107 | the while loop, with a budget: its result is StitchSpec's |
| MapRegion.Rebuild | src/map_region.py:88-107 | the first edge's two endpoints are appended to the list and the rest of the queue is stitched, so the list gains at least those two points |
| MapRegion.Region.constructor | src/map_region.py:27-35 | the hex set of InitialHexes, an empty shape, dirty |
| MapRegion.InitialHexes | src/map_region.py:27-27 | with `hex_tuples`, exactly the hexes built from its triples (unchecked); without, exactly the hexes of the list |
| MapRegion.Region.AddHexes | src/map_region.py:54-56 | the hex set becomes old ∪ new and dirty is set; the shape is kept |
| MapRegion.Region.AddHex | src/map_region.py:58-60 | the hex set becomes old ∪ {h} and dirty is set; the shape is kept |
| MapRegion.Region.GetOutline | src/map_region.py:77-110 | a clean non-empty shape, or an empty hex set, returns the cached shape unchanged; otherwise the queue holds exactly the boundary sides, grouped by hex in direction order, the new shape is Rebuild on top of the old shape, and dirty is cleared when the queue empties |
| MapRegion.Region.Cached | src/map_region.py:78-79 | the cache test of `get_outline`: clean with a non-empty shape, or no hexes |
| MapRegion.Region.OutlineFrom | src/map_region.py:77-109 | the body of `get_outline` with the list the rebuild extends as a parameter: the cached list when the cache test holds, else the boundary queue stitched onto that list |
| MapRegion.OutlineTwice | src/map_region.py:78-109 | a second call with no mutation in between returns the same list as the first |
| MapRegion.StaleRebuildGrows | src/map_region.py:88-89 | a rebuild on top of a non-empty shape keeps every old point and adds two more, so it never reproduces the cached outline |
| MapRegion.Region.RefreshOutline | src/map_region.py:77-110 | `get_outline` as intended: the rebuild starts from an empty shape |
| MapRegion.FreshRebuildFromBoundary | src/map_region.py:81-107 | rebuilt from an empty list, the outline holds only endpoints of the current boundary edges, at most one more point than there are edges |
| Drawing.WorldHexSize | src/drawing.py:89-105 | the world hex size is positive, and the Oshur size 57.75 is exactly half of 115.5 |
| Drawing.OshurCentreHalf | src/drawing.py:88-92 | every coordinate of a hex centre on Oshur is half the default one |
| Drawing.ToWorld | src/drawing.py:88-92 | `to_world`, the world-space centre; characterised by OshurCentreHalf and ToWorldTranslates |
| Drawing.ToWorldTranslates | src/drawing.py:88-92 | moving a hex by k moves its centre by (-1.5 size k.r, size sqrt3 (k.q + k.r / 2)), wherever the hex is |
| Drawing.UnitCircle | src/drawing.py:104-108 | with sqrt3 a square root of 3, each corner angle's (sin, cos) lies on the unit circle |
| Drawing.RoundCents | src/drawing.py:108 | `round(x, 2)` is within 0.005 of x |
| Drawing.WorldCorner | src/drawing.py:104-108 | x is within 0.005 of the exact corner; z is a whole number within 1/2 of it |
| Drawing.WorldEdgeChain | src/drawing.py:115-118 | side i ends at the corner where side i + 1 starts |
| Drawing.WorldEdge | src/drawing.py:115-118 | `world_edge`; ZoneEdge gives it as the corners i mod 6 and (i + 1) mod 6, and WorldEdgeChain chains consecutive sides |
| Drawing.ZoneEdge | src/drawing.py:115-118 | `world_edge(i)` pairs corners i mod 6 and (i + 1) mod 6, which is `edge` with the zone's corner function |
| Drawing.ZonePile | src/drawing.py:218-223 | the queue of `get_outline` holds `world_edge(dir, zone == OSHUR)` for each boundary side |
| Drawing.NewZoneRegion | src/drawing.py:166-190 | a region of a zone has the given hexes, an empty shape, dirty, and the zone's corner function |
| Drawing.RawCornerX | src/drawing.py:91-108 | a corner's x is the hex size times a table offset |
| Drawing.RawCornerZ | src/drawing.py:90-108 | a corner's z is the hex size times sqrt3 times a table offset |
| Drawing.CornerTable | src/drawing.py:106-108 | the neighbour in direction d has corner d + 4 at h's corner d and corner d + 3 at h's corner d + 1 |
| Drawing.SameRawCorner | src/drawing.py:104-108 | corners with equal offsets coincide |
| Drawing.SharedRawCorners | src/drawing.py:104-108 | before rounding, corner d of h is corner d + 4 of its neighbour in direction d, and corner d + 1 is corner d + 3 |
| Drawing.SharedSide | src/drawing.py:115-118 | side d + 3 of the neighbour in direction d is side d of h, traversed backwards |
| Drawing.DecodeMapHex | src/drawing.py:515 | the decoded hex is valid, with s = -x and r = -y - 1 |
| Drawing.EncodeMapHex | src/convert_zone_data.py:32-37 | the (x, y) = (-s, -r - 1) encoding of the map hexes; DecodeEncode and EncodeDecode make it the inverse of DecodeMapHex |
| Drawing.DecodeEncode | src/convert_zone_data.py:34-35 | decoding the encoding x = -s, y = -r - 1 gives back every valid hex |
| Drawing.EncodeDecode | src/drawing.py:515 | encoding the decoding gives back every (x, y) |
| Drawing.WorldToMapOutline | src/drawing.py:35-37 | eight times the result is the point with its axes swapped |
| Drawing.OutlineTransformsAgree | src/drawing.py:35-37 | this transform is src/map.py's `world_to_map_outline` with zero offsets |
| MapTransforms.MapRatio | src/map.py:4-9 | MAP_SIZE / WORLD_SIZE is exactly 1/8 |
| MapTransforms.WorldRatio | src/map.py:19 | WORLD_SIZE / MAP_SIZE is exactly 8 |
| MapTransforms.WorldToMap | src/map.py:8-10 | world_to_map(p, o) == ((p1 + o1)/8, -(p0 + o0)/8); the copy at src/drawing.py:30-32 has the same formula |
| MapTransforms.WorldToMapOutline | src/map.py:13-15 | ((p1 + o1)/8, (p0 + o0)/8) |
| MapTransforms.MapToWorld | src/map.py:18-20 | map_to_world(m, o) == (-8(m1 + o1), 8(m0 + o0)): scaled up by 8 with the axes swapped back |
| MapTransforms.MapRoundTrip | src/map.py:8-20 | map_to_world(world_to_map(p, o)) is p + o, componentwise |
| MapTransforms.WorldRoundTrip | src/map.py:8-20 | world_to_map(map_to_world(m, o)) is m + o, componentwise |
| MapTransforms.OffsetsFold | src/map.py:10-20 | the offsets are added before scaling: each transform at (p, o) equals its zero-offset form at p + o |
| MapTransforms.OutlineMirrors | src/map.py:10-15 | the outline transform agrees on the first output and negates the second |
| MapTransforms.WorldCornerToMapCorner | src/map.py:4-15 | the outline transform takes the world corner (8192, 8192) to the map corner (1024, 1024) |
| DrawingHexes.Shown | src/drawing_hex.py:16-21 | the highlighted colour when selected, the plain one otherwise |
| DrawingHexes.DrawingHex.constructor | src/drawing_hex.py:5-11 | the given (q, r, s), the four default colours, unselected |
| DrawingHexes.DrawingHex.Color | src/drawing_hex.py:13-16 | a given colour replaces the unselected colour, even while selected; nothing else changes; the colour on show is returned |
| DrawingHexes.DrawingHex.Fill | src/drawing_hex.py:18-21 | the same for the fill pair |
| DrawingHexes.DrawingHex.ToggleSelect | src/drawing_hex.py:23-24 | the flag flips and every colour is kept |
| DrawingHexes.ToggleTwice | src/drawing_hex.py:23-24 | toggling twice restores the flag and every colour |
| DrawingHexes.RecolourWhileSelected | src/drawing_hex.py:13-24 | a colour set while selected is hidden until deselection, then shown |
| DrawingHexes.FreshHexShows | src/drawing_hex.py:5-16 | a new hex shows the grey (128, 128, 128, 128) outline and the empty (0, 0, 0, 0) fill |
| FactionColors.MakeColor | src/constants/faction_colors.py:6-10 | the components as given, alpha 255 by default |
| FactionColors.DefaultAlpha | src/constants/faction_colors.py:6 | a colour built without alpha has alpha 255 |
| FactionColors.AsInts | src/constants/faction_colors.py:20-21 | the four stored components, which rebuild the colour |
| FactionColors.Upper | src/constants/faction_colors.py:18 | `.upper()` on one character: a-z become A-Z and nothing else changes |
| FactionColors.UpperString | src/constants/faction_colors.py:18 | `.upper()` character by character |
| FactionColors.DigitChar | src/constants/faction_colors.py:18 | the upper-case digit of a nibble, whose hex value is that nibble |
| FactionColors.UpperDigit | src/constants/faction_colors.py:18 | `hexdigits[n].upper()` is DigitChar(n) for every nibble |
| FactionColors.Lookups | src/constants/faction_colors.py:18 | all eight `hexdigits` lookups succeed exactly when every index lies in -22..21, with Python's negative indexing |
| FactionColors.AsHex | src/constants/faction_colors.py:17-18 | `as_hex`: on success nine characters with alpha or seven without, starting with '#'; AsHexFails gives when it raises and AsHexOfBytes what it returns for bytes |
| FactionColors.AsHexFails | src/constants/faction_colors.py:18 | `as_hex` raises IndexError exactly when a component lies outside -352..351 |
| FactionColors.AsHexAt | src/constants/faction_colors.py:18 | for encodable components, the result has length 9 with alpha or 7 without, starts with '#', and position i is the upper-cased lookup of nibble i - 1 |
| FactionColors.NibblesOfBytes | src/constants/faction_colors.py:18 | for bytes, the nibbles are c >> 4 and c & 0xF of each component, all below 16 |
| FactionColors.AsHexOfBytesAt | src/constants/faction_colors.py:18 | for bytes, position i is the digit of nibble i - 1 |
| FactionColors.AsHexOfBytes | src/constants/faction_colors.py:17-18 | for bytes: "#RRGGBB" (or "#RRGGBBAA" with alpha), only '#', 0-9 and A-F, and each digit pair reads back as its component |
| FactionColors.AsHexPrefix | src/constants/faction_colors.py:18 | the form without alpha succeeds with the alpha form, and is its first seven characters |
| FactionColors.CssColor | src/constants/faction_colors.py:18 | for bytes, the form without alpha is '#' and the six digits of r, g and b |
| FactionColors.DigitValue | src/constants/faction_colors.py:18 | the hex value of a looked-up digit is the index taken modulo 16 |
| FactionColors.AsHexReadsBack | src/constants/faction_colors.py:18 | digit pair j reads back as ReadBack of component j |
| FactionColors.ReadBackExact | src/constants/faction_colors.py:18 | a component reads back as itself exactly when it is a byte; 256..351 read back 96 less, -96..-1 read back 256 more, -352..-97 read back 352 more |
| FactionColors.VsHex | src/constants/faction_colors.py:24 | VS is "#440E62" |
| FactionColors.NcHex | src/constants/faction_colors.py:25 | NC is "#004B80" |
| FactionColors.TrHex | src/constants/faction_colors.py:26 | TR is "#9E0B0F" |
| Python.PyIndex | src/constants/faction_colors.py:18 | `xs[k]` succeeds exactly for -len <= k < len; k >= 0 gives xs[k], a negative k gives xs[len + k] |
| PathCommands.ArityMatchesSvg | src/path_drawer.py:10-185 | every command prints as many numbers as section 8.3 of SVG 1.1 gives its letter |
| PathCommands.RelativeLetters | src/path_drawer.py:10-185 | the relative commands, and only they, print a lower-case letter |
| PathCommands.Letter | src/path_drawer.py:10-185 | the letter each command class's `__str__` prints first; characterised by RelativeLetters |
| PathCommands.Args | src/path_drawer.py:10-185 | the numbers each `__str__` prints after the letter; characterised by ArityMatchesSvg and BuildTokens |
| PathCommands.Nums | src/path_drawer.py:15-16 | one number token per number, in order |
| PathCommands.Values | src/path_drawer.py:15-16 | the numbers of a run of number tokens, one per token |
| PathCommands.BuildTokens | src/path_drawer.py:10-185 | each command's letter and numbers rebuild that command |
| PathCommands.ParsePathTokens | src/path_drawer.py:313 | the "d" attribute of any command list reads back as that list |
| PathCommands.PathTokensAppend | src/path_drawer.py:313 | the path data of two lists is the data of the first followed by that of the second |
| PathCommands.NearReflexiveSymmetric | src/path_drawer.py:192-196 | `Point.__eq__` is reflexive and symmetric |
| PathCommands.NearNotTransitive | src/path_drawer.py:192-193 | `Point.__eq__` is not transitive: 0 ~ 0.006 ~ 0.012, but 0 is not ~ 0.012 |
| PathCommands.NearIsTolerant | src/path_drawer.py:192-193 | equal points are near, and points 0.005 apart are near |
| PathCommands.AsTuple | src/path_drawer.py:204-205 | the pair rebuilds the point |
| PathCommands.AddSubInverse | src/path_drawer.py:198-202 | `+` and `-` undo each other |
| PathCommands.Draw | src/path_drawer.py:10-185 | under the current-point rules of section 8.3 of SVG 1.1, only moves and "Z" change the subpath start |
| PathCommands.Trace | src/path_drawer.py:10-185 | one current point per command |
| PathCommands.RectangleTrace | src/path_drawer.py:403-409 | the rectangle's commands visit (x, y), (x + w, y), (x + w, y + h), (x, y + h) and close back on (x, y) |
| PathCommands.RectangleCommands | src/path_drawer.py:403-409 | the five commands `rectangle` appends; RectangleTrace gives the corners they visit |
| PathCommands.LocationIsCurrentPoint | src/path_drawer.py:293-333 | `curve_to` (293-295), `move_to` and `line_to` (327-333) leave the location at the SVG current point |
| PathCommands.CloseReturnsToStart | src/path_drawer.py:289-291 | in SVG, "Z" after M x y and any run of drawing commands (no move, no close) returns the current point to (x, y) |
| PathDrawer.ClosePathLocation | src/path_drawer.py:289-333 | after `move_to(x, y)`, `line_to` and `close_path` in a fresh context the location is (0, 0) while the SVG current point of the path is (x, y); the two agree only when x = y = 0 |
| PathCommands.CloseForFillSpec | src/path_drawer.py:310-311 | the filled path keeps the original as a prefix and adds at most a "Z"; it ends with "Z" exactly when non-empty; closing twice changes nothing |
| PathCommands.CloseForFillKeeps | src/path_drawer.py:310-311 | a path is left as it is exactly when it is empty or already ends with "Z" |
| PathCommands.CloseForFill | src/path_drawer.py:310-311 | the closing rule of `fill_preserve`; characterised by CloseForFillSpec and CloseForFillKeeps |
| PathDrawer.WithAttr | src/path_drawer.py:315-322 | one attribute of element k is set; every tag and parent, and every other element, stays |
| PathDrawer.Skeleton | src/path_drawer.py:216-230 | the tag and parent of every element |
| PathDrawer.WithAttrSkeleton | src/path_drawer.py:315-322 | setting an attribute leaves the tree shape alone |
| PathDrawer.AppendSkeleton | src/path_drawer.py:312 | a new child extends the shape by its tag and parent |
| PathDrawer.PushKeepsWellFormed | src/path_drawer.py:235-252 | entering a g or defs keeps the tree and parent stack well formed, and ids are required inside defs |
| PathDrawer.PopKeepsWellFormed | src/path_drawer.py:240-256 | leaving a g or defs keeps the tree and parent stack well formed, and the stack is non-empty whenever the root is a g or defs |
| PathDrawer.Placed | src/path_drawer.py:308-322 | the painted element is the one the path went to, or a new path element in the root; nothing else changes |
| PathDrawer.PlacedWithAttr | src/path_drawer.py:315-322 | setting one more attribute on the painted element |
| PathDrawer.RgbPercent | src/path_drawer.py:319-396 | each colour component is multiplied by 100, as in the fill (line 319) and the stroke (line 396) |
| PathDrawer.NewPathAttrs | src/path_drawer.py:312-317 | a new path element's attributes: "d" is the path data, "id" and "class" present exactly when set, and nothing else |
| PathDrawer.FillOutcome | src/path_drawer.py:318-322 | the attribute steps of `fill_preserve`; characterised by FillOutcomeSpec |
| PathDrawer.FillOutcomeSpec | src/path_drawer.py:318-322 | fill fails (TypeError, nothing set) exactly with neither class nor colour; otherwise fill-rule is nonzero, fill and fill-opacity come from the colour only without a class, and no other attribute changes |
| PathDrawer.StrokeNames | src/path_drawer.py:393-396 | cap and join names are chosen by Python indexing: -3..2 select a name, anything else raises IndexError |
| PathDrawer.StrokeFresh | src/path_drawer.py:383-392 | a new stroked element's attributes: those of NewPathAttrs, plus fill "none" exactly when there is no class |
| PathDrawer.StrokeOutcome | src/path_drawer.py:393-401 | the attribute steps of `stroke_preserve`; characterised by StrokeOutcomeSpec |
| PathDrawer.StrokeLines | src/path_drawer.py:395-401 | the join, cap, width and miter steps, stopping at the first IndexError; characterised by StrokeOutcomeSpec and StrokeNames |
| PathDrawer.StrokeOutcomeSpec | src/path_drawer.py:395-401 | stroke succeeds exactly with a class or colour and a join and cap in -3..2; TypeError comes first; on success the join, cap, width and miter limit are set |
| PathDrawer.PathContext.AddElement | src/path_drawer.py:312-314 | `SubElement`: one path element appended under the root, invariant kept |
| PathDrawer.PathContext.SetAttr | src/path_drawer.py:315-322 | one attribute set, invariant kept |
| PathDrawer.PathContext.constructor | src/path_drawer.py:208-230 | default graphics state (no colour, cap 0, join 0, width 1, miter 4), an empty stack and path, and an svg root with its five attributes |
| PathDrawer.PathContext.EnterDefs | src/path_drawer.py:235-238 | the old root is pushed, a new defs child becomes the root, and ids are required |
| PathDrawer.PathContext.ExitDefs | src/path_drawer.py:240-243 | AssertionError "Not in defs!" with nothing changed unless the root is a defs; otherwise the stack is popped into the root and ids are no longer required |
| PathDrawer.PathContext.EnterGroup | src/path_drawer.py:245-252 | a new g child, with the id given and the pending class, becomes the root; the class is used up |
| PathDrawer.PathContext.ExitGroup | src/path_drawer.py:254-256 | AssertionError "Not in group!" unless the root is a g; otherwise the stack is popped into the root |
| PathDrawer.PathContext.SetClass | src/path_drawer.py:286-287 | the pending class is set |
| PathDrawer.PathContext.SetId | src/path_drawer.py:324-325 | the pending id is set |
| PathDrawer.PathContext.ClosePathCmd | src/path_drawer.py:289-291 | appends exactly "Z", and the location becomes (0, 0) |
| PathDrawer.PathContext.MoveTo | src/path_drawer.py:327-329 | appends exactly one Move, and the location becomes (x, y) |
| PathDrawer.PathContext.LineTo | src/path_drawer.py:331-333 | appends exactly one Line, and the location becomes (x, y) |
| PathDrawer.PathContext.CurveTo | src/path_drawer.py:293-295 | appends exactly one CubicCurve, and the location becomes its end point |
| PathDrawer.PathContext.Rectangle | src/path_drawer.py:403-409 | appends exactly M x y, h w, v h, h -w, Z, and the location becomes (x, y) |
| PathDrawer.PathContext.Finalize | src/path_drawer.py:297-301 | element, path, id and class are cleared |
| PathDrawer.PathContext.FillPreserve | src/path_drawer.py:307-322 | AssertionError with nothing changed when an id is required but missing; otherwise the path is closed as CloseForFill says when no element exists yet, and the document becomes Placed(FillOutcome) |
| PathDrawer.PathContext.FillElement | src/path_drawer.py:309-317 | without an element, the closed path goes to a new path element with id and class |
| PathDrawer.PathContext.PaintFill | src/path_drawer.py:318-322 | the painted element's attributes become FillOutcome's |
| PathDrawer.PathContext.Fill | src/path_drawer.py:303-305 | as FillPreserve; on success element, path, id and class are cleared; on an error id and class stay, and so does what `fill_preserve` did before raising: after a TypeError the element is the one painted (possibly just created) and the path is the closed one; after the missing-id AssertionError nothing changed |
| PathDrawer.PathContext.StrokePreserve | src/path_drawer.py:381-401 | AssertionError with nothing changed when an id is required but missing; otherwise the unclosed path goes to a new element with fill "none" when there is no class, and the document becomes Placed(StrokeOutcome); path and location untouched |
| PathDrawer.PathContext.PaintStroke | src/path_drawer.py:394-401 | the painted element's attributes become StrokeOutcome's |
| PathDrawer.PathContext.PaintLines | src/path_drawer.py:397-401 | join, cap, width and miter limit are set in that order, and what was set before an IndexError stays |
| PathDrawer.PathContext.Stroke | src/path_drawer.py:377-379 | as StrokePreserve; on success element, path, id and class are cleared; on an error path, id and class stay, and after a TypeError or IndexError the element is the one painted (possibly just created), so the next `stroke` paints it again; after the missing-id AssertionError nothing changed |
| PathDrawer.PathContext.Save | src/path_drawer.py:335-344 | pushes (colour, cap, join, width, miter limit) |
| PathDrawer.PathContext.Restore | src/path_drawer.py:346-354 | with an empty stack nothing changes; otherwise the last saved five values come back and are popped |
| PathDrawer.PathContext.SetMiterLimit | src/path_drawer.py:356-357 | sets the miter limit |
| PathDrawer.PathContext.SetLineWidth | src/path_drawer.py:359-360 | sets the line width |
| PathDrawer.PathContext.GetLineWidth | src/path_drawer.py:362-363 | returns the line width |
| PathDrawer.PathContext.SetLineCap | src/path_drawer.py:365-366 | sets the line cap |
| PathDrawer.PathContext.SetLineJoin | src/path_drawer.py:368-369 | sets the line join |
| PathDrawer.PathContext.SetSourceRgba | src/path_drawer.py:371-372 | sets the colour |
| PathDrawer.PathContext.SetSourceRgb | src/path_drawer.py:374-375 | sets an opaque colour, alpha 1 |
| PathDrawer.SaveRestore | src/path_drawer.py:335-354 | whatever is changed between a save and its restore, the five values and the stack come back |
| PathDrawer.NestingRoundTrip | src/path_drawer.py:235-256 | entering and leaving a group, then defs, returns to the same root and stack, and ids are no longer required |
| PathDrawer.RectangleContext | src/path_drawer.py:208-409 | a fresh context (208-230) after `set_source_rgb` (374-375) and `rectangle` (403-409) holds exactly the rectangle's path, with an opaque colour, one svg element as root and no element painted yet |
| PathDrawer.FillRectangle | src/path_drawer.py:303-409 | a rectangle (403-409) filled (303-322) in a fresh context becomes one path element in the svg root, whose data is exactly the rectangle and whose fill is the colour times 100; the path is then empty |

## Left out

- CubeHexes.Add: `__add__` and `__sub__` assert that the right operand's type is exactly `CubeHex` (src/cube_hex.py:12,16), so with a `DrawingHex` operand (for example `h.distance(drawing_hex)`) they raise AssertionError; the model has one hex type and does not capture that error.
- Floating point. Reals are exact here, and the sqrt(3) of `to_world`,
  `world_corner` and `from_pixel` is a parameter or is left out. So are
  `to_pixel`, `corner`, `to_pixel_qr`, `corner_size`, `vertices`,
  `world_vertices`, and the fractional step of `from_pixel`. Python's
  `round(x, 2)` is modelled on the exact value, not on a double.
- CubeHexes.FromFractional: covers only the rounding half of `from_pixel`. Its
  first step is float division by sqrt(3) and the hex size.
- `CubeHex.__hash__`, `__str__` and `__repr__`: hexes are compared and
  stored in sets by value, which is what `__eq__` says; the hash only affects
  how Python finds them.
- Region fields that `get_outline` does not use (`id`, `facility_id`,
  `name`, `location`, `connections`, `color`), their getters, and
  `as_embeddable_json`: `BADGE_SIZES` and the Census data are not part of this
  model.
- MapRegion.Region.GetOutline, MapRegion.Region.OutlineFrom, MapRegion.Region.RefreshOutline: the source loop is unbounded. The model stops
  after `fuel` iterations with `BudgetExhausted`, with the shape as it stands
  and dirty kept. An edge that never matches is requeued forever in the source.
- Aliasing: `get_outline` returns `self.__shape` itself, so a caller that
  mutates the list changes the cache. The model returns a value.
- Drawing: the cairo and Pango drawing methods (src/drawing.py:248-435), the
  Census queries, the JSON cache and `main` are I/O and are not modelled;
  only the line-515 decoding is.
- `color.as_percents`: float division by 255.
- FactionColors: `.upper()` is modelled on ASCII only, which covers every
  character `as_hex` can produce.
- PathDrawer: the ElementTree document is a list of elements. The serialised
  XML is not modelled, and neither is how numbers print (`str(float)`,
  `:.2f`, `px`). An attribute value keeps the numbers it is made of, and the
  path data is the command list.
- PathDrawer: `embed`, `arc`, `circle`, `text`, `use`, `write` and `target` are
  XML or file output, or trigonometry, and are not modelled.
- PathDrawer.PathContext.SetLineCap, PathDrawer.PathContext.SetLineJoin:
  cairo's `LineCap` and `LineJoin` enums are taken as their integer values.
- PathDrawer.PathContext.ExitGroup, PathDrawer.PathContext.ExitDefs: the
  source pops the parent stack after the tag assertion. Under the class
  invariant the stack is never empty there, so the IndexError of popping an
  empty list cannot happen.

## Findings

| source | as written | input that shows it | evidently intended | confidence | as-written member | corrected member |
|---|---|---|---|---|---|---|
| src/map_region.py:88-89 | after `add_hex`/`add_hexes` on a region whose outline was already built, `get_outline` extends the stale `__shape` instead of starting a new list | build the outline of {h}, `add_hex` a neighbour of h, and call `get_outline` again: the six old corners stay in the list and the new boundary is stitched onto them | the rebuild starts from an empty list, so the outline holds only points of the current boundary | not executed | MapRegion.StaleRebuildGrows | MapRegion.Region.RefreshOutline |
