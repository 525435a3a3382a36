/** The SVG drawing context of src/path_drawer.py (`pathContext`): a
    cairo-like interface that accumulates path commands and writes them as
    SVG elements.  The ElementTree document is abstracted to a list of
    elements, each with its tag, the index of its parent and its attributes;
    attribute values that the source formats from numbers keep the numbers
    (see `AttrValue`).  Python exceptions are `Err` results; the state a
    method leaves behind when it fails is the state Python leaves when the
    exception propagates. */
module PathDrawer {
  import opened Wrappers
  import opened Python
  import opened PathCommands

  /** An RGBA colour, components in 0 .. 1 as cairo passes them. */
  type Rgba = (real, real, real, real)

  /** The five values `save` pushes and `restore` pops. */
  datatype GState = GState(color: Option<Rgba>, cap: int, join: int, width: real, miter: real)

  datatype Tag = Svg | Group | Defs | PathTag

  /** An attribute value: literal text, or the numbers a formatted value is
      made of ("{w}px", "rgb(r%,g%,b%)" with each component times 100, a
      plain number, the path data). */
  datatype AttrValue = Text(s: string) | Px(px: real) | Rgb(r: real, g: real, b: real) | Number(n: real) | Data(cmds: seq<Command>)

  datatype Element = Element(tag: Tag, parent: Option<nat>, attrs: map<string, AttrValue>)

  datatype DrawError = AssertionError(message: string) | TypeError | IndexError

  const ID_REQUIRED: string := "An ID was required but was not provided!"
  const NOT_IN_DEFS: string := "Not in defs!"
  const NOT_IN_GROUP: string := "Not in group!"

  const LINE_CAPS: seq<string> := ["butt", "round", "square"]
  const LINE_JOINS: seq<string> := ["miter", "round", "bevel"]

  /** Element k with one attribute set. */
  function WithAttr(es: seq<Element>, k: nat, key: string, v: AttrValue): (r: seq<Element>)
    requires k < |es|
    ensures |r| == |es|
    ensures forall j :: 0 <= j < |es| ==> r[j].tag == es[j].tag && r[j].parent == es[j].parent
    ensures r[k].attrs == es[k].attrs[key := v]
    ensures forall j :: 0 <= j < |es| && j != k ==> r[j] == es[j]
  {
    es[k := es[k].(attrs := es[k].attrs[key := v])]
  }

  /** The shape of the document: each element's tag and parent. */
  function Skeleton(es: seq<Element>): (sk: seq<(Tag, Option<nat>)>)
    ensures |sk| == |es| && forall k :: 0 <= k < |es| ==> sk[k] == (es[k].tag, es[k].parent)
  {
    seq(|es|, k requires 0 <= k < |es| => (es[k].tag, es[k].parent))
  }

  /** Setting an attribute leaves the shape of the document alone. */
  lemma WithAttrSkeleton(es: seq<Element>, k: nat, key: string, v: AttrValue)
    requires k < |es|
    ensures Skeleton(WithAttr(es, k, key, v)) == Skeleton(es)
  {
  }

  /** Appending an element extends the shape by its tag and parent. */
  lemma AppendSkeleton(es: seq<Element>, e: Element)
    ensures Skeleton(es + [e]) == Skeleton(es) + [(e.tag, e.parent)]
  {
  }

  /** Some element of the open chain (the root or an ancestor on the
      stack) is a defs. */
  predicate InDefs(sk: seq<(Tag, Option<nat>)>, root: nat, parents: seq<nat>)
    requires root < |sk| && forall i :: 0 <= i < |parents| ==> parents[i] < |sk|
  {
    sk[root].0 == Defs || exists i :: 0 <= i < |parents| && sk[parents[i]].0 == Defs
  }

  /** The svg element is first and the only one without a parent; every
      other element's parent comes before it; the parent stack is the chain
      of ancestors of the root, from the svg element down; no element of
      that chain is a path; and ids are required only while that chain holds a defs. */
  predicate WellFormed(sk: seq<(Tag, Option<nat>)>, root: nat, parents: seq<nat>,
                       elem: Option<nat>, idsRequired: bool)
  {
    && |sk| > 0
    && sk[0] == (Svg, None)
    && (forall k :: 1 <= k < |sk| ==> sk[k].0 != Svg && sk[k].1.Some? && sk[k].1.value < k)
    && root < |sk| && sk[root].0 != PathTag
    && (parents == [] <==> root == 0)
    && (forall i :: 0 <= i < |parents| ==> parents[i] < |sk| && sk[parents[i]].0 != PathTag)
    && (parents != [] ==> parents[0] == 0 && sk[root].1 == Some(parents[|parents| - 1]))
    && (forall i :: 1 <= i < |parents| ==> sk[parents[i]].1 == Some(parents[i - 1]))
    && (elem.Some? ==> elem.value < |sk|)
    && (idsRequired ==> InDefs(sk, root, parents))
  }

  /** The stroke attributes chosen from the cap and join by Python list
      indexing, so -3 .. 2 select and anything else raises IndexError. */
  lemma StrokeNames(cap: int, join: int)
    ensures PyIndex(LINE_CAPS, cap).Some? <==> -3 <= cap < 3
    ensures PyIndex(LINE_JOINS, join).Some? <==> -3 <= join < 3
    ensures PyIndex(LINE_CAPS, 0) == Some("butt") && PyIndex(LINE_CAPS, 1) == Some("round")
    ensures PyIndex(LINE_CAPS, 2) == Some("square") && PyIndex(LINE_CAPS, -1) == Some("square")
    ensures PyIndex(LINE_JOINS, 0) == Some("miter") && PyIndex(LINE_JOINS, 1) == Some("round")
    ensures PyIndex(LINE_JOINS, 2) == Some("bevel") && PyIndex(LINE_JOINS, -1) == Some("bevel")
  {
  }

  /** Entering a g or a defs: the new element, a child of the root, becomes
      the root and the old root goes on the stack. */
  lemma PushKeepsWellFormed(sk: seq<(Tag, Option<nat>)>, root: nat, parents: seq<nat>,
                            elem: Option<nat>, ids: bool, tag: Tag)
    requires WellFormed(sk, root, parents, elem, ids) && (tag == Group || tag == Defs)
    ensures WellFormed(sk + [(tag, Some(root))], |sk|, parents + [root], elem, ids || tag == Defs)
  {
    var sk', parents' := sk + [(tag, Some(root))], parents + [root];
    forall i | 1 <= i < |parents'|
      ensures sk'[parents'[i]].1 == Some(parents'[i - 1])
    {
      if i == |parents| {
        assert parents != [];
      }
    }
    if tag != Defs && ids {
      if sk[root].0 == Defs {
        assert sk'[parents'[|parents|]].0 == Defs;
      } else {
        var i :| 0 <= i < |parents| && sk[parents[i]].0 == Defs;
        assert sk'[parents'[i]].0 == Defs;
      }
    }
  }

  /** Leaving a g or a defs: the top of the stack, the root's parent,
      becomes the root again; ids may stay required only when the chain
      still holds a defs. */
  lemma PopKeepsWellFormed(sk: seq<(Tag, Option<nat>)>, root: nat, parents: seq<nat>,
                           elem: Option<nat>, ids: bool, newIds: bool)
    requires WellFormed(sk, root, parents, elem, ids) && (sk[root].0 == Group || sk[root].0 == Defs)
    requires newIds ==> ids && sk[root].0 != Defs
    ensures parents != []
    ensures WellFormed(sk, parents[|parents| - 1], parents[..|parents| - 1], elem, newIds)
  {
    var n := |parents|;
    assert root != 0;
    var root', parents' := parents[n - 1], parents[..n - 1];
    if n > 1 {
      assert sk[root'].1 == Some(parents[n - 2]);
      assert root' != 0;
    }
    if newIds {
      var i :| 0 <= i < n && sk[parents[i]].0 == Defs;
      if i < n - 1 {
        assert sk[parents'[i]].0 == Defs;
      }
    }
  }

  /** The attributes a new path element starts with: its data, then the id
      and the class when they are set. */
  function NewPathAttrs(path: seq<Command>, id: Option<string>, cls: Option<string>): (a: map<string, AttrValue>)
    ensures a.Keys <= {"d", "id", "class"}
    ensures "d" in a && a["d"] == Data(path)
    ensures ("id" in a <==> id.Some?) && (id.Some? ==> a["id"] == Text(id.value))
    ensures ("class" in a <==> cls.Some?) && (cls.Some? ==> a["class"] == Text(cls.value))
  {
    var withId := if id.Some? then map["d" := Data(path), "id" := Text(id.value)] else map["d" := Data(path)];
    if cls.Some? then withId["class" := Text(cls.value)] else withId
  }

  /** The attributes of the painted element before painting: those of the
      element the path was already written to, or those a new one starts
      with. */
  function PathBase(es: seq<Element>, elem: Option<nat>, initial: map<string, AttrValue>): map<string, AttrValue>
    requires elem.Some? ==> elem.value < |es|
  {
    if elem.Some? then es[elem.value].attrs else initial
  }

  /** The document with the painted element's attributes set: the element
      the path was written to, or a new path element in the root. */
  function Placed(es: seq<Element>, elem: Option<nat>, root: nat, attrs: map<string, AttrValue>): (r: seq<Element>)
    requires elem.Some? ==> elem.value < |es|
    ensures elem.Some? ==> |r| == |es| && r[elem.value].attrs == attrs
    ensures elem.None? ==> |r| == |es| + 1 && r[|es|] == Element(PathTag, Some(root), attrs)
    ensures forall k :: 0 <= k < |es| && elem != Some(k) ==> r[k] == es[k]
    ensures forall k :: 0 <= k < |es| ==> r[k].tag == es[k].tag && r[k].parent == es[k].parent
  {
    if elem.Some? then es[elem.value := es[elem.value].(attrs := attrs)]
    else es + [Element(PathTag, Some(root), attrs)]
  }

  /** Setting one more attribute on the painted element. */
  lemma PlacedWithAttr(es: seq<Element>, elem: Option<nat>, root: nat, attrs: map<string, AttrValue>,
                       key: string, v: AttrValue)
    requires elem.Some? ==> elem.value < |es|
    ensures var k := if elem.Some? then elem.value else |es|;
            k < |Placed(es, elem, root, attrs)| &&
            Placed(es, elem, root, attrs[key := v]) == WithAttr(Placed(es, elem, root, attrs), k, key, v)
  {
    var k := if elem.Some? then elem.value else |es|;
    var before, after := Placed(es, elem, root, attrs), Placed(es, elem, root, attrs[key := v]);
    var updated := WithAttr(before, k, key, v);
    assert |after| == |updated|;
    forall j | 0 <= j < |after|
      ensures after[j] == updated[j]
    {
    }
  }

  /** "rgb(r%,g%,b%)": each component times 100. */
  function RgbPercent(c: Rgba): (v: AttrValue)
    ensures v.Rgb? && v.r == 100.0 * c.0 && v.g == 100.0 * c.1 && v.b == 100.0 * c.2
  {
    Rgb(c.0 * 100.0, c.1 * 100.0, c.2 * 100.0)
  }

  /** What `fill_preserve` does to the element once it exists: the fill and
      its opacity from the colour unless a class styles the element (a
      TypeError, before anything is set, when no colour was ever set), then
      the fill rule. */
  function FillOutcome(a: map<string, AttrValue>, cls: Option<string>, color: Option<Rgba>)
    : (Result<(), DrawError>, map<string, AttrValue>)
  {
    if cls.Some? then (Ok(()), a["fill-rule" := Text("nonzero")])
    else if color.None? then (Err(TypeError), a)
    else (Ok(()), a["fill" := RgbPercent(color.value)]["fill-opacity" := Number(color.value.3)]
                   ["fill-rule" := Text("nonzero")])
  }

  /** Filling fails exactly when there is neither a class nor a colour, and
      then changes nothing; otherwise the fill rule is nonzero, the colour
      and its alpha become the fill only without a class, and no attribute
      outside the three fill ones changes. */
  lemma FillOutcomeSpec(a: map<string, AttrValue>, cls: Option<string>, color: Option<Rgba>)
    ensures var (r, b) := FillOutcome(a, cls, color);
            && (r.Ok? <==> cls.Some? || color.Some?)
            && (r.Err? ==> r.error == TypeError && b == a)
            && (r.Ok? ==> "fill-rule" in b && b["fill-rule"] == Text("nonzero"))
            && (r.Ok? && cls.None? ==> "fill" in b && "fill-opacity" in b &&
                                       b["fill"] == RgbPercent(color.value) && b["fill-opacity"] == Number(color.value.3))
            && (cls.Some? ==> b.Keys == a.Keys + {"fill-rule"})
            && (forall key :: key in a && key != "fill" && key != "fill-opacity" && key != "fill-rule" ==>
                  key in b && b[key] == a[key])
  {
  }

  /** The attributes `stroke_preserve` gives a new path element: the
      unclosed path, the id and class, and no fill when there is no class. */
  function StrokeFresh(path: seq<Command>, id: Option<string>, cls: Option<string>): (a: map<string, AttrValue>)
    ensures a.Keys == NewPathAttrs(path, id, cls).Keys + (if cls.None? then {"fill"} else {})
    ensures cls.None? ==> a["fill"] == Text("none")
    ensures forall key :: key in a && key != "fill" ==> a[key] == NewPathAttrs(path, id, cls)[key]
  {
    var a := NewPathAttrs(path, id, cls);
    if cls.None? then a["fill" := Text("none")] else a
  }

  /** What `stroke_preserve` does to the element once it exists, step by
      step: the stroke colour (TypeError without a class or colour), the
      join and the cap by Python list indexing (IndexError, with the steps
      before it kept), the width and the miter limit. */
  function StrokeOutcome(a: map<string, AttrValue>, cls: Option<string>, color: Option<Rgba>,
                         join: int, cap: int, width: real, miter: real)
    : (Result<(), DrawError>, map<string, AttrValue>)
  {
    if cls.None? && color.None? then (Err(TypeError), a)
    else
      var a1 := if cls.None? then a["stroke" := RgbPercent(color.value)]["stroke-opacity" := Number(color.value.3)] else a;
      StrokeLines(a1, join, cap, width, miter)
  }

  /** The steps of `stroke_preserve` after the colour. */
  function StrokeLines(a: map<string, AttrValue>, join: int, cap: int, width: real, miter: real)
    : (Result<(), DrawError>, map<string, AttrValue>)
  {
    match PyIndex(LINE_JOINS, join)
    case None => (Err(IndexError), a)
    case Some(j) =>
      var a2 := a["stroke-linejoin" := Text(j)];
      match PyIndex(LINE_CAPS, cap)
      case None => (Err(IndexError), a2)
      case Some(c) =>
        (Ok(()), a2["stroke-linecap" := Text(c)]["stroke-width" := Number(width)]["stroke-miterlimit" := Number(miter)])
  }

  /** Stroking succeeds exactly when a class or a colour is there and both
      the join and the cap index the name lists (-3 .. 2); the colour comes
      first, so a missing one is the TypeError even with a bad join; on
      success the four stroke values are the names and numbers chosen. */
  lemma StrokeOutcomeSpec(a: map<string, AttrValue>, cls: Option<string>, color: Option<Rgba>,
                          join: int, cap: int, width: real, miter: real)
    ensures var (r, b) := StrokeOutcome(a, cls, color, join, cap, width, miter);
            && (r.Ok? <==> (cls.Some? || color.Some?) && -3 <= join < 3 && -3 <= cap < 3)
            && (cls.None? && color.None? ==> r == Err(TypeError) && b == a)
            && (r.Err? && (cls.Some? || color.Some?) ==> r.error == IndexError)
            && (r.Ok? ==> "stroke-linejoin" in b && b["stroke-linejoin"] == Text(LINE_JOINS[join % 3]))
            && (r.Ok? ==> "stroke-linecap" in b && b["stroke-linecap"] == Text(LINE_CAPS[cap % 3]))
            && (r.Ok? ==> "stroke-width" in b && b["stroke-width"] == Number(width))
            && (r.Ok? ==> "stroke-miterlimit" in b && b["stroke-miterlimit"] == Number(miter))
            && (cls.None? && color.Some? ==> "stroke" in b && b["stroke"] == RgbPercent(color.value))
            && (cls.Some? ==> "stroke" !in a ==> "stroke" !in b)
  {
    StrokeNames(cap, join);
  }

  class PathContext {
    var lineCap: int
    var lineJoin: int
    var lineWidth: real
    var miterLimit: real
    var color: Option<Rgba>
    var saved: seq<GState>
    /** The document: element 0 is the svg root. */
    var elements: seq<Element>
    /** The element new elements go into, and the stack of its ancestors. */
    var root: nat
    var parents: seq<nat>
    var path: seq<Command>
    var location: Point
    /** The element the current path was written to, if any. */
    var elem: Option<nat>
    var idsRequired: bool
    var id: Option<string>
    var cls: Option<string>

    /** The graphics state `save` records. */
    function Graphics(): GState
      reads this
    {
      GState(color, lineCap, lineJoin, lineWidth, miterLimit)
    }

    ghost predicate Valid()
      reads this`elements, this`root, this`parents, this`elem, this`idsRequired
    {
      WellFormed(Skeleton(elements), root, parents, elem, idsRequired)
    }

    /** `ET.SubElement(self.__root, tag, attrs)`. */
    method AddElement(tag: Tag, attrs: map<string, AttrValue>) returns (k: nat)
      requires Valid() && tag == PathTag
      modifies this`elements
      ensures Valid()
      ensures elements == old(elements) + [Element(tag, Some(root), attrs)] && k == |old(elements)|
    {
      AppendSkeleton(elements, Element(tag, Some(root), attrs));
      elements := elements + [Element(tag, Some(root), attrs)];
      k := |elements| - 1;
    }

    /** `elem.attrib[key] = v`. */
    method SetAttr(k: nat, key: string, v: AttrValue)
      requires Valid() && k < |elements|
      modifies this`elements
      ensures Valid()
      ensures elements == WithAttr(old(elements), k, key, v)
    {
      WithAttrSkeleton(elements, k, key, v);
      elements := WithAttr(elements, k, key, v);
    }

    constructor (width: real, height: real)
      ensures Valid()
      ensures Graphics() == GState(None, 0, 0, 1.0, 4.0) && saved == []
      ensures elements == [Element(Svg, None, map[
                "xmlns" := Text("http://www.w3.org/2000/svg"), "version" := Text("1.1"),
                "viewBox" := Text("0 0 1024 1024"), "width" := Px(width), "height" := Px(height)])]
      ensures root == 0 && parents == [] && path == [] && location == Point(0.0, 0.0)
      ensures elem == None && !idsRequired && id == None && cls == None
    {
      lineCap, lineJoin, lineWidth, miterLimit := 0, 0, 1.0, 4.0;
      color := None;
      saved := [];
      elements := [Element(Svg, None, map[
                    "xmlns" := Text("http://www.w3.org/2000/svg"), "version" := Text("1.1"),
                    "viewBox" := Text("0 0 1024 1024"), "width" := Px(width), "height" := Px(height)])];
      root, parents := 0, [];
      path, location := [], Point(0.0, 0.0);
      elem, idsRequired, id, cls := None, false, None, None;
    }

    // -------------------------------------------------------------------
    // Groups and defs
    // -------------------------------------------------------------------

    /** `enter_defs`: a defs element becomes the root, inside the old one,
        and ids become required. */
    method EnterDefs()
      requires Valid()
      modifies this`elements, this`root, this`parents, this`idsRequired
      ensures Valid()
      ensures elements == old(elements) + [Element(Defs, Some(old(root)), map[])]
      ensures root == |old(elements)| && parents == old(parents) + [old(root)]
      ensures idsRequired
    {
      PushKeepsWellFormed(Skeleton(elements), root, parents, elem, idsRequired, Defs);
      AppendSkeleton(elements, Element(Defs, Some(root), map[]));
      parents := parents + [root];
      elements := elements + [Element(Defs, Some(root), map[])];
      root := |elements| - 1;
      idsRequired := true;
    }

    /** `exit_defs`: fails unless the root is a defs; otherwise the
        enclosing element becomes the root again and ids are no longer
        required. */
    method ExitDefs() returns (r: Result<(), DrawError>)
      requires Valid()
      modifies this`root, this`parents, this`idsRequired
      ensures Valid()
      ensures old(elements[root].tag) != Defs ==>
                r == Err(AssertionError(NOT_IN_DEFS)) && root == old(root) && parents == old(parents) &&
                idsRequired == old(idsRequired)
      ensures old(elements[root].tag) == Defs ==>
                r.Ok? && old(parents) != [] && root == old(parents[|parents| - 1]) &&
                parents == old(parents[..|parents| - 1]) && !idsRequired
    {
      if elements[root].tag != Defs {
        return Err(AssertionError(NOT_IN_DEFS));
      }
      PopKeepsWellFormed(Skeleton(elements), root, parents, elem, idsRequired, false);
      root := parents[|parents| - 1];
      parents := parents[..|parents| - 1];
      idsRequired := false;
      r := Ok(());
    }

    /** `enter_group`: a g element, with the id given and the pending class,
        becomes the root; the class is used up. */
    method EnterGroup(name: Option<string>)
      requires Valid()
      modifies this`elements, this`root, this`parents, this`cls
      ensures Valid()
      ensures var withId := if name.Some? then map["id" := Text(name.value)] else map[];
              var attrs := if old(cls).Some? then withId["class" := Text(old(cls).value)] else withId;
              elements == old(elements) + [Element(Group, Some(old(root)), attrs)]
      ensures root == |old(elements)| && parents == old(parents) + [old(root)] && cls == None
    {
      var attrs: map<string, AttrValue> := if name.Some? then map["id" := Text(name.value)] else map[];
      if cls.Some? {
        attrs := attrs["class" := Text(cls.value)];
      }
      PushKeepsWellFormed(Skeleton(elements), root, parents, elem, idsRequired, Group);
      AppendSkeleton(elements, Element(Group, Some(root), attrs));
      parents := parents + [root];
      elements := elements + [Element(Group, Some(root), attrs)];
      root := |elements| - 1;
      cls := None;
    }

    /** `exit_group`: fails unless the root is a g; otherwise the enclosing
        element becomes the root again. */
    method ExitGroup() returns (r: Result<(), DrawError>)
      requires Valid()
      modifies this`root, this`parents
      ensures Valid()
      ensures old(elements[root].tag) != Group ==>
                r == Err(AssertionError(NOT_IN_GROUP)) && root == old(root) && parents == old(parents)
      ensures old(elements[root].tag) == Group ==>
                r.Ok? && old(parents) != [] && root == old(parents[|parents| - 1]) &&
                parents == old(parents[..|parents| - 1])
    {
      if elements[root].tag != Group {
        return Err(AssertionError(NOT_IN_GROUP));
      }
      PopKeepsWellFormed(Skeleton(elements), root, parents, elem, idsRequired, idsRequired);
      root := parents[|parents| - 1];
      parents := parents[..|parents| - 1];
      r := Ok(());
    }

    /** `_class` and `id`: set what the next element will carry. */
    method SetClass(name: string)
      modifies this`cls
      ensures cls == Some(name)
    {
      cls := Some(name);
    }

    method SetId(name: string)
      modifies this`id
      ensures id == Some(name)
    {
      id := Some(name);
    }

    // -------------------------------------------------------------------
    // Path construction
    // -------------------------------------------------------------------

    /** `close_path`: appends Z and moves the location to (0, 0). */
    method ClosePathCmd()
      modifies this`path, this`location
      ensures path == old(path) + [ClosePath] && location == Point(0.0, 0.0)
    {
      path := path + [ClosePath];
      location := Point(0.0, 0.0);
    }

    method MoveTo(x: real, y: real)
      modifies this`path, this`location
      ensures path == old(path) + [Move(x, y)] && location == Point(x, y)
    {
      path := path + [Move(x, y)];
      location := Point(x, y);
    }

    method LineTo(x: real, y: real)
      modifies this`path, this`location
      ensures path == old(path) + [Line(x, y)] && location == Point(x, y)
    {
      path := path + [Line(x, y)];
      location := Point(x, y);
    }

    method CurveTo(x1: real, y1: real, x2: real, y2: real, x3: real, y3: real)
      modifies this`path, this`location
      ensures path == old(path) + [CubicCurve(x1, y1, x2, y2, x3, y3)] && location == Point(x3, y3)
    {
      path := path + [CubicCurve(x1, y1, x2, y2, x3, y3)];
      location := Point(x3, y3);
    }

    /** `rectangle`: the five commands of RectangleCommands; the location
        ends at the corner the rectangle closes on. */
    method Rectangle(x: real, y: real, w: real, h: real)
      modifies this`path, this`location
      ensures path == old(path) + RectangleCommands(x, y, w, h) && location == Point(x, y)
    {
      path := path + [Move(x, y), HorizontalRel(w), VerticalRel(h), HorizontalRel(-w)];
      ClosePathCmd();
      location := Point(x, y);
    }

    /** `_finalize`: forgets the element, the path, the id and the class. */
    method Finalize()
      requires Valid()
      modifies this`elem, this`path, this`id, this`cls
      ensures Valid()
      ensures elem == None && path == [] && id == None && cls == None
    {
      elem, path, id, cls := None, [], None, None;
    }

    // -------------------------------------------------------------------
    // Painting
    // -------------------------------------------------------------------

    /** The check both painting operations start with. */
    predicate MissingId()
      reads this`idsRequired, this`id
    {
      idsRequired && id.None?
    }

    /** `fill_preserve`.  Without an element yet, the path is closed as
        CloseForFill says and written to a new path element in the root;
        then FillOutcome is applied to the element's attributes (a
        TypeError leaves the new element and the closed path behind). */
    method FillPreserve() returns (r: Result<(), DrawError>)
      requires Valid()
      modifies this`elements, this`elem, this`path, this`location
      ensures Valid()
      ensures old(MissingId()) ==>
                r == Err(AssertionError(ID_REQUIRED)) && elements == old(elements) && elem == old(elem) &&
                path == old(path) && location == old(location)
      ensures !old(MissingId()) ==>
                var out := FillOutcome(PathBase(old(elements), old(elem), NewPathAttrs(CloseForFill(old(path)), id, cls)), cls, color);
                && r == out.0
                && elements == Placed(old(elements), old(elem), root, out.1)
                && elem == Some(if old(elem).Some? then old(elem).value else |old(elements)|)
                && path == (if old(elem).None? then CloseForFill(old(path)) else old(path))
                && location == (if old(elem).None? && CloseForFill(old(path)) != old(path) then Point(0.0, 0.0) else old(location))
    {
      if idsRequired && id.None? {
        return Err(AssertionError(ID_REQUIRED));
      }
      ghost var es0, e0 := elements, elem;
      FillElement();
      r := PaintFill(es0, e0, PathBase(es0, e0, NewPathAttrs(path, id, cls)));
    }

    /** The first half of `fill_preserve`: without an element yet, the path
        is closed as CloseForFill says and written to a new path element. */
    method FillElement()
      requires Valid()
      modifies this`elements, this`elem, this`path, this`location
      ensures Valid()
      ensures path == (if old(elem).None? then CloseForFill(old(path)) else old(path))
      ensures location == (if old(elem).None? && CloseForFill(old(path)) != old(path) then Point(0.0, 0.0) else old(location))
      ensures elem == Some(if old(elem).Some? then old(elem).value else |old(elements)|)
      ensures elements == Placed(old(elements), old(elem), root, PathBase(old(elements), old(elem), NewPathAttrs(path, id, cls)))
    {
      if elem.None? {
        if |path| > 0 && path[|path| - 1] != ClosePath {
          ClosePathCmd();
        }
        var k := AddElement(PathTag, NewPathAttrs(path, id, cls));
        elem := Some(k);
      }
    }

    /** The painting half of `fill_preserve`, on the element the path was
        written to (`Placed(es0, e0, root, _)`), whose attributes are a0. */
    method PaintFill(ghost es0: seq<Element>, ghost e0: Option<nat>, ghost a0: map<string, AttrValue>)
      returns (r: Result<(), DrawError>)
      requires Valid() && (e0.Some? ==> e0.value < |es0|)
      requires elem == Some(if e0.Some? then e0.value else |es0|)
      requires elements == Placed(es0, e0, root, a0)
      modifies this`elements
      ensures Valid()
      ensures r == FillOutcome(a0, cls, color).0
      ensures elements == Placed(es0, e0, root, FillOutcome(a0, cls, color).1)
    {
      ghost var a := a0;
      var k := elem.value;
      if cls.None? {
        if color.None? {
          return Err(TypeError);
        }
        var c := color.value;
        PlacedWithAttr(es0, e0, root, a, "fill", RgbPercent(c));
        SetAttr(k, "fill", RgbPercent(c));
        a := a["fill" := RgbPercent(c)];
        PlacedWithAttr(es0, e0, root, a, "fill-opacity", Number(c.3));
        SetAttr(k, "fill-opacity", Number(c.3));
        a := a["fill-opacity" := Number(c.3)];
      }
      PlacedWithAttr(es0, e0, root, a, "fill-rule", Text("nonzero"));
      SetAttr(k, "fill-rule", Text("nonzero"));
      r := Ok(());
    }

    /** `fill`: `fill_preserve`, then `_finalize` unless it raised. */
    method Fill() returns (r: Result<(), DrawError>)
      requires Valid()
      modifies this`elements, this`elem, this`path, this`location, this`id, this`cls
      ensures Valid()
      ensures r == (if old(MissingId()) then Err(AssertionError(ID_REQUIRED))
                    else FillOutcome(PathBase(old(elements), old(elem), NewPathAttrs(CloseForFill(old(path)), old(id), old(cls))), old(cls), color).0)
      ensures !old(MissingId()) ==>
                elements == Placed(old(elements), old(elem), root,
                                   FillOutcome(PathBase(old(elements), old(elem), NewPathAttrs(CloseForFill(old(path)), old(id), old(cls))), old(cls), color).1)
      ensures old(MissingId()) ==> elements == old(elements)
      ensures location == (if !old(MissingId()) && old(elem).None? && CloseForFill(old(path)) != old(path)
                           then Point(0.0, 0.0) else old(location))
      ensures r.Ok? ==> elem == None && path == [] && id == None && cls == None
      ensures r.Err? ==> id == old(id) && cls == old(cls)
      ensures r.Err? && !old(MissingId()) ==>
                elem == Some(if old(elem).Some? then old(elem).value else |old(elements)|) &&
                path == (if old(elem).None? then CloseForFill(old(path)) else old(path))
      ensures old(MissingId()) ==> elem == old(elem) && path == old(path)
    {
      r := FillPreserve();
      if r.Ok? {
        Finalize();
      }
    }

    /** `stroke_preserve`.  Without an element yet, the path is written
        unclosed to a new path element (StrokeFresh); then StrokeOutcome is
        applied to the element's attributes, keeping what was set before an
        exception.  The path and the location are left alone. */
    method StrokePreserve() returns (r: Result<(), DrawError>)
      requires Valid()
      modifies this`elements, this`elem
      ensures Valid()
      ensures old(MissingId()) ==> r == Err(AssertionError(ID_REQUIRED)) && elements == old(elements) && elem == old(elem)
      ensures !old(MissingId()) ==>
                var out := StrokeOutcome(PathBase(old(elements), old(elem), StrokeFresh(path, id, cls)), cls, color,
                                         lineJoin, lineCap, lineWidth, miterLimit);
                && r == out.0
                && elements == Placed(old(elements), old(elem), root, out.1)
                && elem == Some(if old(elem).Some? then old(elem).value else |old(elements)|)
    {
      if idsRequired && id.None? {
        return Err(AssertionError(ID_REQUIRED));
      }
      ghost var es0, e0 := elements, elem;
      if elem.None? {
        var attrs := NewPathAttrs(path, id, cls);
        if cls.None? {
          attrs := attrs["fill" := Text("none")];
        }
        var k := AddElement(PathTag, attrs);
        elem := Some(k);
      }
      ghost var a0 := PathBase(es0, e0, StrokeFresh(path, id, cls));
      r := PaintStroke(es0, e0, a0);
    }

    /** The painting half of `stroke_preserve`, on the element the path was
        written to, whose attributes are a0. */
    method PaintStroke(ghost es0: seq<Element>, ghost e0: Option<nat>, ghost a0: map<string, AttrValue>)
      returns (r: Result<(), DrawError>)
      requires Valid() && (e0.Some? ==> e0.value < |es0|)
      requires elem == Some(if e0.Some? then e0.value else |es0|)
      requires elements == Placed(es0, e0, root, a0)
      modifies this`elements
      ensures Valid()
      ensures r == StrokeOutcome(a0, cls, color, lineJoin, lineCap, lineWidth, miterLimit).0
      ensures elements == Placed(es0, e0, root, StrokeOutcome(a0, cls, color, lineJoin, lineCap, lineWidth, miterLimit).1)
    {
      ghost var a := a0;
      var k := elem.value;
      if cls.None? {
        if color.None? {
          return Err(TypeError);
        }
        var c := color.value;
        PlacedWithAttr(es0, e0, root, a, "stroke", RgbPercent(c));
        SetAttr(k, "stroke", RgbPercent(c));
        a := a["stroke" := RgbPercent(c)];
        PlacedWithAttr(es0, e0, root, a, "stroke-opacity", Number(c.3));
        SetAttr(k, "stroke-opacity", Number(c.3));
        a := a["stroke-opacity" := Number(c.3)];
      }
      r := PaintLines(es0, e0, a);
    }

    /** The join, cap, width and miter limit steps of `stroke_preserve`. */
    method PaintLines(ghost es0: seq<Element>, ghost e0: Option<nat>, ghost a0: map<string, AttrValue>)
      returns (r: Result<(), DrawError>)
      requires Valid() && (e0.Some? ==> e0.value < |es0|)
      requires elem == Some(if e0.Some? then e0.value else |es0|)
      requires elements == Placed(es0, e0, root, a0)
      modifies this`elements
      ensures Valid()
      ensures r == StrokeLines(a0, lineJoin, lineCap, lineWidth, miterLimit).0
      ensures elements == Placed(es0, e0, root, StrokeLines(a0, lineJoin, lineCap, lineWidth, miterLimit).1)
    {
      ghost var a := a0;
      var k := elem.value;
      var join := PyIndex(LINE_JOINS, lineJoin);
      if join.None? {
        return Err(IndexError);
      }
      PlacedWithAttr(es0, e0, root, a, "stroke-linejoin", Text(join.value));
      SetAttr(k, "stroke-linejoin", Text(join.value));
      a := a["stroke-linejoin" := Text(join.value)];
      var cap := PyIndex(LINE_CAPS, lineCap);
      if cap.None? {
        return Err(IndexError);
      }
      PlacedWithAttr(es0, e0, root, a, "stroke-linecap", Text(cap.value));
      SetAttr(k, "stroke-linecap", Text(cap.value));
      a := a["stroke-linecap" := Text(cap.value)];
      PlacedWithAttr(es0, e0, root, a, "stroke-width", Number(lineWidth));
      SetAttr(k, "stroke-width", Number(lineWidth));
      a := a["stroke-width" := Number(lineWidth)];
      PlacedWithAttr(es0, e0, root, a, "stroke-miterlimit", Number(miterLimit));
      SetAttr(k, "stroke-miterlimit", Number(miterLimit));
      r := Ok(());
    }

    /** `stroke`: `stroke_preserve`, then `_finalize` unless it raised. */
    method Stroke() returns (r: Result<(), DrawError>)
      requires Valid()
      modifies this`elements, this`elem, this`path, this`id, this`cls
      ensures Valid()
      ensures r == (if old(MissingId()) then Err(AssertionError(ID_REQUIRED))
                    else StrokeOutcome(PathBase(old(elements), old(elem), StrokeFresh(old(path), old(id), old(cls))), old(cls), color,
                                       lineJoin, lineCap, lineWidth, miterLimit).0)
      ensures !old(MissingId()) ==>
                elements == Placed(old(elements), old(elem), root,
                                   StrokeOutcome(PathBase(old(elements), old(elem), StrokeFresh(old(path), old(id), old(cls))), old(cls), color,
                                                 lineJoin, lineCap, lineWidth, miterLimit).1)
      ensures old(MissingId()) ==> elements == old(elements)
      ensures r.Ok? ==> elem == None && path == [] && id == None && cls == None
      ensures r.Err? ==> path == old(path) && id == old(id) && cls == old(cls)
      ensures r.Err? && !old(MissingId()) ==> elem == Some(if old(elem).Some? then old(elem).value else |old(elements)|)
      ensures old(MissingId()) ==> elem == old(elem)
    {
      r := StrokePreserve();
      if r.Ok? {
        Finalize();
      }
    }

    // -------------------------------------------------------------------
    // Graphics state
    // -------------------------------------------------------------------

    /** `save`: pushes the five graphics values. */
    method Save()
      modifies this`saved
      ensures saved == old(saved) + [Graphics()]
    {
      saved := saved + [Graphics()];
    }

    /** `restore`: pops the last saved values back into the five fields;
        with nothing saved, nothing happens. */
    method Restore()
      modifies this`saved, this`color, this`lineCap, this`lineJoin, this`lineWidth, this`miterLimit
      ensures old(saved) == [] ==> saved == [] && Graphics() == old(Graphics())
      ensures old(saved) != [] ==> saved == old(saved[..|saved| - 1]) && Graphics() == old(saved[|saved| - 1])
    {
      if |saved| == 0 {
        return;
      }
      var values := saved[|saved| - 1];
      saved := saved[..|saved| - 1];
      color := values.color;
      lineCap := values.cap;
      lineJoin := values.join;
      lineWidth := values.width;
      miterLimit := values.miter;
    }

    method SetMiterLimit(m: real)
      modifies this`miterLimit
      ensures miterLimit == m
    {
      miterLimit := m;
    }

    method SetLineWidth(w: real)
      modifies this`lineWidth
      ensures lineWidth == w
    {
      lineWidth := w;
    }

    method GetLineWidth() returns (w: real)
      ensures w == lineWidth
    {
      w := lineWidth;
    }

    method SetLineCap(cap: int)
      modifies this`lineCap
      ensures lineCap == cap
    {
      lineCap := cap;
    }

    method SetLineJoin(join: int)
      modifies this`lineJoin
      ensures lineJoin == join
    {
      lineJoin := join;
    }

    method SetSourceRgba(r: real, g: real, b: real, a: real)
      modifies this`color
      ensures color == Some((r, g, b, a))
    {
      color := Some((r, g, b, a));
    }

    /** `set_source_rgb`: an opaque colour. */
    method SetSourceRgb(r: real, g: real, b: real)
      modifies this`color
      ensures color == Some((r, g, b, 1.0))
    {
      color := Some((r, g, b, 1.0));
    }
  }

  /** Whatever is changed between a `save` and its `restore` (here: every
      graphics value), the five values come back and the stack is as
      before. */
  method SaveRestore(ctx: PathContext, c: Rgba, cap: int, join: int, width: real, miter: real)
    modifies ctx
    ensures ctx.Graphics() == old(ctx.Graphics()) && ctx.saved == old(ctx.saved)
  {
    ctx.Save();
    ctx.SetSourceRgba(c.0, c.1, c.2, c.3);
    ctx.SetLineCap(cap);
    ctx.SetLineJoin(join);
    ctx.SetLineWidth(width);
    ctx.SetMiterLimit(miter);
    ctx.Restore();
  }

  /** Entering and leaving a group returns to the same root and parent
      stack; entering and leaving defs does too, and ids are no longer
      required afterwards. */
  method NestingRoundTrip(ctx: PathContext, name: Option<string>)
    requires ctx.Valid()
    modifies ctx
    ensures ctx.Valid()
    ensures ctx.root == old(ctx.root) && ctx.parents == old(ctx.parents) && !ctx.idsRequired
  {
    ctx.EnterGroup(name);
    var r := ctx.ExitGroup();
    ctx.EnterDefs();
    r := ctx.ExitDefs();
  }

  /** A fresh context with an opaque red colour and a rectangle path. */
  method RectangleContext(x: real, y: real, w: real, h: real) returns (ctx: PathContext)
    ensures fresh(ctx) && ctx.Valid()
    ensures |ctx.elements| == 1 && ctx.root == 0 && ctx.elem == None && !ctx.MissingId()
    ensures ctx.id == None && ctx.cls == None && ctx.color == Some((1.0, 0.0, 0.0, 1.0))
    ensures ctx.path == RectangleCommands(x, y, w, h) && ctx.location == Point(x, y)
  {
    ctx := new PathContext(1024.0, 1024.0);
    ctx.SetSourceRgb(1.0, 0.0, 0.0);
    ctx.Rectangle(x, y, w, h);
  }

  /** After `move_to(x, y)`, `line_to(x1, y1)` and `close_path()` in a
      fresh context the location is (0, 0), while the SVG current point
      the path data describes is (x, y): the two differ unless x = y = 0. */
  method ClosePathLocation(x: real, y: real, x1: real, y1: real) returns (ctx: PathContext)
    ensures fresh(ctx) && ctx.Valid()
    ensures ctx.path == [Move(x, y), Line(x1, y1), ClosePath]
    ensures ctx.location == Point(0.0, 0.0)
    ensures Trace(Pen(Point(0.0, 0.0), Point(0.0, 0.0)), ctx.path)[2] == Point(x, y)
    ensures ctx.location == Trace(Pen(Point(0.0, 0.0), Point(0.0, 0.0)), ctx.path)[2] <==> x == 0.0 && y == 0.0
  {
    ctx := new PathContext(1024.0, 1024.0);
    ctx.MoveTo(x, y);
    ctx.LineTo(x1, y1);
    ctx.ClosePathCmd();
    CloseReturnsToStart(Pen(Point(0.0, 0.0), Point(0.0, 0.0)), x, y, [Line(x1, y1)]);
    assert [Move(x, y)] + [Line(x1, y1)] + [ClosePath] == ctx.path;
  }

  /** A rectangle filled in a fresh context becomes one path element in the
      svg root, whose data is exactly the rectangle (it already ends with
      Z) and whose fill is the colour set, and the path is then empty. */
  method FillRectangle(x: real, y: real, w: real, h: real) returns (ctx: PathContext, r: Result<(), DrawError>)
    ensures ctx.Valid() && r.Ok?
    ensures |ctx.elements| == 2 && ctx.elements[1].tag == PathTag && ctx.elements[1].parent == Some(0)
    ensures "d" in ctx.elements[1].attrs && ctx.elements[1].attrs["d"] == Data(RectangleCommands(x, y, w, h))
    ensures "fill" in ctx.elements[1].attrs && ctx.elements[1].attrs["fill"] == Rgb(100.0, 0.0, 0.0)
    ensures ctx.path == [] && ctx.location == Point(x, y)
  {
    ctx := RectangleContext(x, y, w, h);
    CloseForFillKeeps(ctx.path);
    FillOutcomeSpec(NewPathAttrs(ctx.path, None, None), None, ctx.color);
    r := ctx.Fill();
  }
}
