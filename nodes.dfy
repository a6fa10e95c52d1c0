/**
 * One drawable of the scene graph as a value: its variant, its two-layer
 * property store (the initial values and the overlay its accessors write),
 * the own data properties written where it has no accessor, its id, class,
 * transform list and reference; how each variant's bounding edges are read
 * from it; how one is built from a markup element; and the style cascade a
 * group applies to a child.
 */
module Nodes {
  import opened JsValues
  import opened Styles
  import opened Geometry
  import PathParsing

  type Point = PathParsing.Point

  /** The variant of a drawable, with what it holds outside its property store. */
  datatype Shape =
    | Rect
    | Circle
    | Ellipse
    | Line
    | Path(points: seq<Point>)
    | Polygon(points: seq<Point>)
    | Polyline(points: seq<Point>)
    | Group(children: seq<nat>, forceCascade: bool, childReference: Option<nat>)

  /** The four bound getters. */
  datatype Edge = Left | Top | Right | Bottom

  datatype Node = Node(
    shape: Shape,
    initial: map<string, Value>,   // initialValues
    properties: seq<string>,       // the names given accessors
    overlay: map<string, Value>,   // the `_name` fields that hold a value
    plain: map<string, Value>,     // own data properties of names without an accessor
    id: Option<string>,
    cls: Option<string>,
    transforms: seq<Matrix>,
    reference: Option<nat>)

  // ------------------------------------------------------------ the property store

  /**
   * `node[p]`: through the accessor when `p` has one (the overlay value when
   * defined, else the initial value), otherwise the own data property.
   */
  function Get(n: Node, p: string): Option<Value>
  {
    if p in n.properties then
      if p in n.overlay then Some(n.overlay[p])
      else if p in n.initial then Some(n.initial[p])
      else None
    else if p in n.plain then Some(n.plain[p])
    else None
  }

  /** `node[p] = v`: the accessor's setter writes the overlay; without an accessor an own data property is written. */
  function Put(n: Node, p: string, v: Value): Node
  {
    if p in n.properties then n.(overlay := n.overlay[p := v]) else n.(plain := n.plain[p := v])
  }

  /** The overlay only holds names that have accessors. */
  predicate OverlayOnAccessors(n: Node)
  {
    forall p :: p in n.overlay ==> p in n.properties
  }

  /** `restoreState` of one drawable: every accessor's field is set to undefined. */
  function Restored(n: Node): Node
  {
    n.(overlay := map[])
  }

  /** A write is read back, and no other name changes. */
  lemma PutThenGet(n: Node, p: string, v: Value, q: string)
    ensures Get(Put(n, p, v), q) == if q == p then Some(v) else Get(n, q)
    ensures OverlayOnAccessors(n) ==> OverlayOnAccessors(Put(n, p, v))
  {
  }

  /**
   * After `restoreState` every name with an accessor reads its initial value
   * again; own data properties (written where there is no accessor) stay.
   */
  lemma RestoreReadsInitial(n: Node, p: string)
    ensures Get(Restored(n), p) == if p !in n.properties then Get(n, p) else if p in n.initial then Some(n.initial[p]) else None
    ensures OverlayOnAccessors(Restored(n))
  {
  }

  /** Writing through an accessor and then restoring is the same as only restoring. */
  lemma SetThenRestore(n: Node, p: string, v: Value)
    requires p in n.properties
    ensures Restored(Put(n, p, v)) == Restored(n)
  {
  }

  // ------------------------------------------------------------ numbers read from the store

  /** A stored value used in arithmetic; anything that is not a number reads as NaN. */
  function AsNum(v: Option<Value>): Num
  {
    if v.Some? && v.value.Number? then v.value.n else NaN
  }

  /** `this.p` as a number. */
  function Current(n: Node, p: string): Num
  {
    AsNum(Get(n, p))
  }

  /** `this.initialValues.p` as a number. */
  function InitialNum(n: Node, p: string): Num
  {
    if p in n.initial then AsNum(Some(n.initial[p])) else NaN
  }

  /** `this.p.x` and `this.p.y` of a point-valued property. */
  function PointX(v: Option<Value>): Num
  {
    if v.Some? && v.value.Pair? then v.value.x else NaN
  }

  function PointY(v: Option<Value>): Num
  {
    if v.Some? && v.value.Pair? then v.value.y else NaN
  }

  // ------------------------------------------------------------ bounds

  /** `points.map(point => point.x)` (or `.y`). */
  function Coords(pts: seq<Point>, horizontal: bool): (r: seq<Num>)
    ensures |r| == |pts|
    ensures forall i :: 0 <= i < |pts| ==> r[i] == if horizontal then pts[i].x else pts[i].y
  {
    if |pts| == 0 then [] else Coords(pts[..|pts| - 1], horizontal) + [if horizontal then pts[|pts| - 1].x else pts[|pts| - 1].y]
  }

  /** The variants whose bound getters cache their result. */
  predicate Memoized(s: Shape)
  {
    s.Path? || s.Polygon? || s.Polyline?
  }

  predicate IsHorizontal(e: Edge)
  {
    e == Left || e == Right
  }

  function DirectionOf(e: Edge): Direction
  {
    if e == Left || e == Top then Least else Greatest
  }

  /** The bounds of a point list: `Math.min`/`Math.max` for a Path, the seeded loop for a Polygon or Polyline. */
  function PointEdge(s: Shape, e: Edge): Num
    requires Memoized(s)
  {
    var xs := Coords(s.points, IsHorizontal(e));
    if s.Path? then (if DirectionOf(e) == Least then MathMin(xs) else MathMax(xs))
    else Extreme(xs, DirectionOf(e))
  }

  /** `getLeft()`, `getTop()`, `getRight()`, `getBottom()`, ignoring the cache. */
  function EdgeOf(n: Node, e: Edge): Num
  {
    match n.shape
    case Rect | Group(_, _, _) =>
      (match e
       case Left => Current(n, "x")
       case Top => Current(n, "y")
       case Right => Add(Current(n, "x"), Current(n, "width"))
       case Bottom => Add(Current(n, "y"), Current(n, "height")))
    case Circle =>
      (match e
       case Left => Sub(Current(n, "cx"), Current(n, "radius"))
       case Top => Sub(Current(n, "cy"), Current(n, "radius"))
       case Right => Add(Current(n, "cx"), Current(n, "radius"))
       case Bottom => Add(Current(n, "cy"), Current(n, "radius")))
    case Ellipse =>
      (match e
       case Left => Sub(Current(n, "cx"), Current(n, "rx"))
       case Top => Sub(Current(n, "cy"), Current(n, "ry"))
       case Right => Add(Current(n, "cx"), Current(n, "rx"))
       case Bottom => Add(Current(n, "cy"), Current(n, "ry")))
    case Line =>
      var s := Get(n, "startPoint");
      var t := Get(n, "endPoint");
      (match e
       case Left => Min2(PointX(s), PointX(t))
       case Top => Min2(PointY(s), PointY(t))
       case Right => Max2(PointX(s), PointX(t))
       case Bottom => Max2(PointY(s), PointY(t)))
    case Path(_) | Polygon(_) | Polyline(_) => PointEdge(n.shape, e)
  }

  /** `a <= b` for numbers that are not NaN. */
  predicate AtMost(a: Num, b: Num)
  {
    !a.NaN? && !b.NaN? && !Less(b, a)
  }

  /**
   * The bounds of a point list enclose every point whose coordinates are
   * numbers, for the Math.min/max of a Path and the seeded loop of a
   * Polygon or Polyline alike.
   */
  lemma PointEdgesEnclose(s: Shape, i: nat)
    requires Memoized(s) && i < |s.points|
    requires !s.points[i].x.NaN? && !s.points[i].y.NaN?
    ensures !Less(s.points[i].x, PointEdge(s, Left)) && !Greater(s.points[i].x, PointEdge(s, Right))
    ensures !Less(s.points[i].y, PointEdge(s, Top)) && !Greater(s.points[i].y, PointEdge(s, Bottom))
  {
    PointOnEdgeSide(s, i, Left);
    PointOnEdgeSide(s, i, Right);
    PointOnEdgeSide(s, i, Top);
    PointOnEdgeSide(s, i, Bottom);
  }

  /** One edge of a point list's box: the point's coordinate is not beyond it. */
  lemma PointOnEdgeSide(s: Shape, i: nat, e: Edge)
    requires Memoized(s) && i < |s.points|
    requires !(if IsHorizontal(e) then s.points[i].x else s.points[i].y).NaN?
    ensures var v := if IsHorizontal(e) then s.points[i].x else s.points[i].y;
      if DirectionOf(e) == Least then !Less(v, PointEdge(s, e)) else !Greater(v, PointEdge(s, e))
  {
    var xs := Coords(s.points, IsHorizontal(e));
    if !s.Path? {
      ExtremeIsBest(xs, DirectionOf(e));
    }
    assert xs[i] == if IsHorizontal(e) then s.points[i].x else s.points[i].y;
  }

  /** A line's box is spanned by its two end points: left is one of the x's and at most both, right one of them and at least both, and likewise top and bottom. */
  lemma LineEdgesAreEndPoints(n: Node)
    requires n.shape.Line?
    requires var s := Get(n, "startPoint"); var t := Get(n, "endPoint");
      !PointX(s).NaN? && !PointX(t).NaN? && !PointY(s).NaN? && !PointY(t).NaN?
    ensures var s := Get(n, "startPoint"); var t := Get(n, "endPoint");
      && (EdgeOf(n, Left) == PointX(s) || EdgeOf(n, Left) == PointX(t))
      && (EdgeOf(n, Right) == PointX(s) || EdgeOf(n, Right) == PointX(t))
      && AtMost(EdgeOf(n, Left), PointX(s)) && AtMost(EdgeOf(n, Left), PointX(t))
      && AtMost(PointX(s), EdgeOf(n, Right)) && AtMost(PointX(t), EdgeOf(n, Right))
    ensures var s := Get(n, "startPoint"); var t := Get(n, "endPoint");
      && (EdgeOf(n, Top) == PointY(s) || EdgeOf(n, Top) == PointY(t))
      && (EdgeOf(n, Bottom) == PointY(s) || EdgeOf(n, Bottom) == PointY(t))
      && AtMost(EdgeOf(n, Top), PointY(s)) && AtMost(EdgeOf(n, Top), PointY(t))
      && AtMost(PointY(s), EdgeOf(n, Bottom)) && AtMost(PointY(t), EdgeOf(n, Bottom))
  {
  }

  /** A circle's box is centred on its centre and is twice its radius wide. */
  lemma CircleBoxIsCentred(n: Node, cx: real, cy: real, r: real)
    requires n.shape.Circle?
    requires Current(n, "cx") == Fin(cx) && Current(n, "cy") == Fin(cy) && Current(n, "radius") == Fin(r)
    ensures EdgeOf(n, Left).Fin? && EdgeOf(n, Right).Fin?
    ensures EdgeOf(n, Left).v + EdgeOf(n, Right).v == 2.0 * cx
    ensures EdgeOf(n, Right).v - EdgeOf(n, Left).v == 2.0 * r
    ensures EdgeOf(n, Bottom).v - EdgeOf(n, Top).v == 2.0 * r
  {
  }

  // ------------------------------------------------------------ building a drawable from markup

  /** The part of a markup element a drawable is built from. */
  datatype Element = Element(
    tag: string,
    attrs: map<string, string>,     // getAttribute
    lengths: map<string, Num>,      // elem[name].baseVal.value, where present
    points: seq<Point>,             // elem.points
    transforms: seq<Matrix>)        // elem.transform.baseVal

  /** `this._getAttr(svg, name) || 0` */
  function LengthOrZero(e: Element, name: string): Num
  {
    Or(if name in e.lengths then e.lengths[name] else NaN, 0.0)
  }

  /** The parser's output for a path string, with `parseFloat` as given. */
  function PathPoints(read: NumberReader, d: string): seq<Point>
  {
    PathParsing.GetParamsIsValid(read);
    PathParsing.Points(PathParsing.ParamsOf(read), d)
  }

  /** The variant `mapping[tag]` constructs; an unmapped tag, or a path without `d`, throws. */
  function ShapeOf(read: NumberReader, e: Element): Result<Shape, string>
  {
    if e.tag == "rect" then Ok(Rect)
    else if e.tag == "circle" then Ok(Circle)
    else if e.tag == "ellipse" then Ok(Ellipse)
    else if e.tag == "line" then Ok(Line)
    else if e.tag == "polygon" then Ok(Polygon(e.points))
    else if e.tag == "polyline" then Ok(Polyline(e.points))
    else if e.tag == "path" then
      (if "d" in e.attrs then Ok(Path(PathPoints(read, e.attrs["d"]))) else Err("null has no length"))
    else Err("not a constructor")
  }

  /** `mapping` holds no group: groups are made by the traversal, not looked up. */
  lemma ShapeIsNoGroup(read: NumberReader, e: Element)
    ensures ShapeOf(read, e).Ok? ==> !ShapeOf(read, e).value.Group?
  {
  }

  /** What `_setup` stores: the `visible` flag. */
  function Setup(e: Element): Store
  {
    Store(map["visible" := Flag(InitiallyVisible(e.attrs))], ["visible"])
  }

  /** The geometric values a variant's constructor stores before it handles styles. */
  function OwnValues(s: Shape, e: Element, st: Store): Store
  {
    match s
    case Rect =>
      Store(st.initial["x" := Number(LengthOrZero(e, "x"))]["y" := Number(LengthOrZero(e, "y"))]
                      ["width" := Number(LengthOrZero(e, "width"))]["height" := Number(LengthOrZero(e, "height"))],
            st.properties + ["x", "y", "width", "height"])
    case Circle =>
      Store(st.initial["cx" := Number(LengthOrZero(e, "cx"))]["cy" := Number(LengthOrZero(e, "cy"))]
                      ["radius" := Number(LengthOrZero(e, "r"))],
            st.properties + ["cx", "cy", "radius"])
    case Ellipse =>
      // the names are pushed only after the styles are handled
      st.(initial := st.initial["cx" := Number(LengthOrZero(e, "cx"))]["cy" := Number(LengthOrZero(e, "cy"))]
                               ["rx" := Number(LengthOrZero(e, "rx"))]["ry" := Number(LengthOrZero(e, "ry"))])
    case Line =>
      Store(st.initial["startPoint" := Pair(LengthOrZero(e, "x1"), LengthOrZero(e, "y1"))]
                      ["endPoint" := Pair(LengthOrZero(e, "x2"), LengthOrZero(e, "y2"))],
            st.properties + ["startPoint", "endPoint"])
    case _ => st
  }

  /** The names a variant's constructor pushes after handling styles. */
  function LateNames(s: Shape): seq<string>
  {
    if s.Ellipse? then ["cx", "cy", "rx", "ry"] else []
  }

  /** The drawable a shape element's constructor builds, from the stores it goes through. */
  function Assemble(s: Shape, e: Element, st: Store): Node
  {
    Node(s, st.initial, st.properties, map[], map[], Attribute(e.attrs, "id"), Attribute(e.attrs, "class"), e.transforms, None)
  }

  /** The constructor of variant `s`: Err where it throws. */
  function Construct(read: NumberReader, s: Shape, e: Element): Result<Node, string>
  {
    match HandleStyles(read, OwnValues(s, e, Setup(e)), e.attrs)
    case Err(m) => Err(m)
    case Ok(st) =>
      var names := st.properties + LateNames(s);
      if Distinct(names) then Ok(Assemble(s, e, st.(properties := names))) else Err("cannot redefine property")
  }

  /** `new mapping[tag](elem)` for a shape element: Err where the lookup or the constructor throws. */
  function Built(read: NumberReader, e: Element): Result<Node, string>
  {
    match ShapeOf(read, e)
    case Err(m) => Err(m)
    case Ok(s) => Construct(read, s, e)
  }

  /** The names a variant's constructor gives values to, with the attribute each is read from. */
  function GeometricNames(s: Shape): seq<(string, string)>
  {
    match s
    case Rect => [("x", "x"), ("y", "y"), ("width", "width"), ("height", "height")]
    case Circle => [("cx", "cx"), ("cy", "cy"), ("radius", "r")]
    case Ellipse => [("cx", "cx"), ("cy", "cy"), ("rx", "rx"), ("ry", "ry")]
    case _ => []
  }

  /** A freshly constructed drawable holds the stores its constructor went through, with nothing written yet. */
  lemma ConstructFromStores(read: NumberReader, s: Shape, e: Element, n: Node)
    requires Construct(read, s, e) == Ok(n)
    ensures n.shape == s
    ensures n.overlay == map[] && n.plain == map[] && n.reference == None
    ensures SameOffStyle(n.initial, OwnValues(s, e, Setup(e)).initial)
    ensures forall p :: p in OwnValues(s, e, Setup(e)).properties ==> p in n.properties
    ensures forall p :: p in LateNames(s) ==> p in n.properties
    ensures forall p :: IsStyleName(p) && p in e.attrs && |e.attrs[p]| > 0 ==>
              p in n.properties && p in n.initial && n.initial[p] == StyleValue(read, p, e.attrs[p])
  {
    HandleStylesKeeps(read, OwnValues(s, e, Setup(e)), e.attrs);
  }

  /** A freshly built drawable holds the stores its constructor went through, with nothing written yet. */
  lemma BuiltFromStores(read: NumberReader, e: Element, n: Node)
    requires Built(read, e) == Ok(n)
    ensures ShapeOf(read, e) == Ok(n.shape)
    ensures n.overlay == map[] && n.plain == map[] && n.reference == None
    ensures SameOffStyle(n.initial, OwnValues(n.shape, e, Setup(e)).initial)
    ensures forall p :: p in OwnValues(n.shape, e, Setup(e)).properties ==> p in n.properties
    ensures forall p :: p in LateNames(n.shape) ==> p in n.properties
    ensures forall p :: IsStyleName(p) && p in e.attrs && |e.attrs[p]| > 0 ==>
              p in n.properties && p in n.initial && n.initial[p] == StyleValue(read, p, e.attrs[p])
  {
    ConstructFromStores(read, ShapeOf(read, e).value, e, n);
  }

  /** A name that is not a style name, listed before the styles were handled, reads its value from then. */
  lemma ReadsOwnValue(n: Node, st: Store, p: string)
    requires n.overlay == map[] && SameOffStyle(n.initial, st.initial)
    requires p in n.properties && p in st.initial && !IsStyleName(p)
    ensures Get(n, p) == Some(st.initial[p])
  {
  }

  /**
   * What a constructor stores first: `visible`, read from the visibility
   * attribute, under a name that is not a style name; a Path, Polygon or
   * Polyline stores nothing else before it handles styles.
   */
  lemma OwnValuesVisible(s: Shape, e: Element)
    ensures Memoized(s) ==> OwnValues(s, e, Setup(e)) == Setup(e)
    ensures var st := OwnValues(s, e, Setup(e));
      && "visible" in st.properties && "visible" in st.initial && !IsStyleName("visible")
      && st.initial["visible"] == Flag(InitiallyVisible(e.attrs))
  {
    if IsStyleName("visible") { StyleNameShape("visible"); }
  }

  /**
   * Each geometric value a constructor stores before it handles styles is
   * read from its attribute, under a name that is not a style name and is
   * listed now or (for an ellipse) after the styles.
   */
  lemma OwnValuesGeometry(s: Shape, e: Element)
    ensures var st := OwnValues(s, e, Setup(e));
      forall i :: 0 <= i < |GeometricNames(s)| ==>
        var (name, attr) := GeometricNames(s)[i];
        && !IsStyleName(name) && name in st.initial && st.initial[name] == Number(LengthOrZero(e, attr))
        && (name in st.properties || name in LateNames(s))
  {
    forall p | p in {"x", "y", "width", "height", "cx", "cy", "radius", "rx", "ry"}
      ensures !IsStyleName(p)
    {
      if IsStyleName(p) { StyleNameShape(p); }
    }
  }

  /** A line's constructor stores its two end points, read from x1/y1 and x2/y2, under names that are not style names. */
  lemma OwnValuesLine(s: Shape, e: Element)
    requires s.Line?
    ensures var st := OwnValues(s, e, Setup(e));
      && "startPoint" in st.properties && "endPoint" in st.properties
      && "startPoint" in st.initial && "endPoint" in st.initial
      && !IsStyleName("startPoint") && !IsStyleName("endPoint")
      && st.initial["startPoint"] == Pair(LengthOrZero(e, "x1"), LengthOrZero(e, "y1"))
      && st.initial["endPoint"] == Pair(LengthOrZero(e, "x2"), LengthOrZero(e, "y2"))
  {
    if IsStyleName("startPoint") { StyleNameShape("startPoint"); }
    if IsStyleName("endPoint") { StyleNameShape("endPoint"); }
  }

  /** The initial `visible` of a built drawable is false exactly for visibility "hidden" or "collapse". */
  lemma BuiltVisibility(read: NumberReader, e: Element, n: Node)
    requires Built(read, e) == Ok(n)
    ensures var v := Attribute(e.attrs, "visibility");
      Get(n, "visible") == Some(Flag(!(v == Some("hidden") || v == Some("collapse"))))
  {
    BuiltFromStores(read, e, n);
    OwnValuesVisible(n.shape, e);
    ReadsOwnValue(n, OwnValues(n.shape, e, Setup(e)), "visible");
  }

  /** Each geometric value of a built drawable is its attribute, or 0 when that is missing, zero or NaN. */
  lemma BuiltGeometry(read: NumberReader, e: Element, n: Node)
    requires Built(read, e) == Ok(n)
    ensures forall i :: 0 <= i < |GeometricNames(n.shape)| ==>
              Get(n, GeometricNames(n.shape)[i].0) == Some(Number(LengthOrZero(e, GeometricNames(n.shape)[i].1)))
  {
    BuiltFromStores(read, e, n);
    OwnValuesGeometry(n.shape, e);
    forall i | 0 <= i < |GeometricNames(n.shape)|
      ensures Get(n, GeometricNames(n.shape)[i].0) == Some(Number(LengthOrZero(e, GeometricNames(n.shape)[i].1)))
    {
      ReadsOwnValue(n, OwnValues(n.shape, e, Setup(e)), GeometricNames(n.shape)[i].0);
    }
  }

  /** A built line's end points are its x1/y1 and x2/y2 attributes, each 0 when missing, zero or NaN. */
  lemma BuiltLine(read: NumberReader, e: Element, n: Node)
    requires Built(read, e) == Ok(n) && n.shape == Line
    ensures Get(n, "startPoint") == Some(Pair(LengthOrZero(e, "x1"), LengthOrZero(e, "y1")))
    ensures Get(n, "endPoint") == Some(Pair(LengthOrZero(e, "x2"), LengthOrZero(e, "y2")))
  {
    BuiltFromStores(read, e, n);
    OwnValuesLine(n.shape, e);
    ReadsOwnValue(n, OwnValues(n.shape, e, Setup(e)), "startPoint");
    ReadsOwnValue(n, OwnValues(n.shape, e, Setup(e)), "endPoint");
  }

  /**
   * Each style name with a non-empty presentation attribute reads that
   * attribute's value (trimmed, or parsed for the numeric styles), whatever
   * the inline style said.
   */
  lemma BuiltStyles(read: NumberReader, e: Element, n: Node, p: string)
    requires Built(read, e) == Ok(n)
    requires IsStyleName(p) && p in e.attrs && |e.attrs[p]| > 0
    ensures Get(n, p) == Some(StyleValue(read, p, e.attrs[p]))
  {
    BuiltFromStores(read, e, n);
  }

  /** A list with a repeated name still has it after more names are pushed. */
  lemma RepeatStaysRepeated(a: seq<string>, b: seq<string>)
    requires !Distinct(a)
    ensures !Distinct(a + b)
  {
    var i, j :| 0 <= i < j < |a| && a[i] == a[j];
    assert (a + b)[i] == (a + b)[j];
  }

  /** The inline and presentation conditions under which `_handleStyles` lists a style name twice. */
  predicate StyledTwice(attrs: map<string, string>, i: nat)
  {
    "style" in attrs && |attrs["style"]| > 0 && i < |Split(attrs["style"], ';')| &&
    var entry := Split(attrs["style"], ';')[i];
    var p := Trim(EntryName(entry));
    |EntryName(entry)| > 0 && IsStyleName(p) && ':' in entry && p in attrs && |attrs[p]| > 0
  }

  /**
   * A style name given both in the inline style and as a presentation
   * attribute is pushed twice, and the second `Object.defineProperty` of the
   * same name throws: no drawable is built.
   */
  lemma ConstructStyledTwiceThrows(read: NumberReader, s: Shape, e: Element, i: nat)
    requires StyledTwice(e.attrs, i)
    ensures Construct(read, s, e).Err?
  {
    var st0 := OwnValues(s, e, Setup(e));
    InlineAndPresentationDuplicate(read, st0, e.attrs, i);
    if HandleStyles(read, st0, e.attrs).Ok? {
      RepeatStaysRepeated(HandleStyles(read, st0, e.attrs).value.properties, LateNames(s));
    }
  }

  /** The same for a shape element as a whole. */
  lemma BuiltStyledTwiceThrows(read: NumberReader, e: Element, i: nat)
    requires StyledTwice(e.attrs, i)
    ensures Built(read, e).Err?
  {
    if ShapeOf(read, e).Ok? {
      ConstructStyledTwiceThrows(read, ShapeOf(read, e).value, e, i);
    }
  }

  // ------------------------------------------------------------ the style cascade

  /** `child.hasOwnProperty(p)`: an accessor or an own data property. */
  predicate HasOwn(n: Node, p: string)
  {
    p in n.properties || p in n.plain
  }

  /**
   * The test in `_propagateProperties`: the group has an accessor for `p` with a
   * truthy value, and the child has no own value for `p` (or it is undefined),
   * unless the group forces the cascade.
   */
  predicate Inherits(g: Node, c: Node, p: string, force: bool)
  {
    p in g.properties && Get(g, p).Some? && IsTruthy(Get(g, p).value)
    && (!HasOwn(c, p) || Get(c, p).None? || force)
  }

  /** One pass of the loop in `_propagateProperties`. */
  function CascadeOne(g: Node, c: Node, p: string, force: bool): Node
  {
    if Inherits(g, c, p, force) then Put(c, p, Get(g, p).value) else c
  }

  /** `_propagateProperties(child)` over the names that remain. */
  function Cascade(g: Node, c: Node, names: seq<string>, force: bool): Node
    decreases |names|
  {
    if |names| == 0 then c else Cascade(g, CascadeOne(g, c, names[0], force), names[1..], force)
  }

  /**
   * The cascade over distinct names: a listed name the group passes on reads the
   * group's value, every other name reads what it read before, and only the
   * overlay and own data properties change.
   */
  lemma {:induction false} CascadeReads(g: Node, c: Node, names: seq<string>, force: bool, p: string)
    requires Distinct(names)
    ensures var r := Cascade(g, c, names, force);
      && Get(r, p) == (if p in names && Inherits(g, c, p, force) then Get(g, p) else Get(c, p))
      && HasOwn(r, p) == (HasOwn(c, p) || (p in names && Inherits(g, c, p, force)))
      && r == c.(overlay := r.overlay, plain := r.plain)
      && (OverlayOnAccessors(c) ==> OverlayOnAccessors(r))
    decreases |names|
  {
    if |names| > 0 {
      var c1 := CascadeOne(g, c, names[0], force);
      CascadeOneReads(g, c, names[0], force, p);
      DistinctTail(names);
      CascadeReads(g, c1, names[1..], force, p);
      assert p in names <==> p == names[0] || p in names[1..] by {
        assert names == [names[0]] + names[1..];
      }
    }
  }

  /** One pass of the cascade, for name `q`, seen from any name `p`. */
  lemma CascadeOneReads(g: Node, c: Node, q: string, force: bool, p: string)
    ensures var c1 := CascadeOne(g, c, q, force);
      && Get(c1, p) == (if p == q && Inherits(g, c, q, force) then Get(g, p) else Get(c, p))
      && HasOwn(c1, p) == (HasOwn(c, p) || (p == q && Inherits(g, c, q, force)))
      && c1 == c.(overlay := c1.overlay, plain := c1.plain)
      && (OverlayOnAccessors(c) ==> OverlayOnAccessors(c1))
      && (p != q ==> Inherits(g, c1, p, force) == Inherits(g, c, p, force))
  {
    if Inherits(g, c, q, force) {
      PutThenGet(c, q, Get(g, q).value, p);
    }
  }

  /**
   * `_propagateProperties(child)`: a style name the group holds with a truthy
   * value is written into the child when the child has no own, defined value or
   * the group forces the cascade; every other name keeps its value.
   */
  lemma CascadeEffect(g: Node, c: Node, force: bool, p: string)
    ensures var r := Cascade(g, c, StyleNames, force);
      && Get(r, p) == (if IsStyleName(p) && Inherits(g, c, p, force) then Get(g, p) else Get(c, p))
      && (!IsStyleName(p) ==> HasOwn(r, p) == HasOwn(c, p))
      && r == c.(overlay := r.overlay, plain := r.plain)
      && (OverlayOnAccessors(c) ==> OverlayOnAccessors(r))
  {
    StyleNamesDistinct();
    CascadeReads(g, c, StyleNames, force, p);
  }

  /** Without forcing, a child that already holds a defined value keeps it. */
  lemma CascadeKeepsOwnValue(g: Node, c: Node, p: string)
    requires HasOwn(c, p) && Get(c, p).Some?
    ensures Get(Cascade(g, c, StyleNames, false), p) == Get(c, p)
  {
    CascadeEffect(g, c, false, p);
  }

  /**
   * A value the child received from one cascade is kept by a later cascade
   * from any group that does not force, even when that group now holds a
   * different value.
   */
  lemma EarlierCascadeWins(g1: Node, g2: Node, c: Node, p: string)
    requires IsStyleName(p) && Inherits(g1, c, p, false)
    ensures Get(Cascade(g2, Cascade(g1, c, StyleNames, false), StyleNames, false), p) == Get(g1, p)
  {
    CascadeEffect(g1, c, false, p);
    var c1 := Cascade(g1, c, StyleNames, false);
    StyleNamesDistinct();
    CascadeReads(g1, c, StyleNames, false, p);
    CascadeKeepsOwnValue(g2, c1, p);
  }

  /**
   * A forced cascade overrides the child's value for every style name the group
   * holds with a truthy value.
   */
  lemma ForcedCascadeOverrides(g: Node, c: Node, p: string)
    requires IsStyleName(p) && p in g.properties && Get(g, p).Some? && IsTruthy(Get(g, p).value)
    ensures Get(Cascade(g, c, StyleNames, true), p) == Get(g, p)
  {
    CascadeEffect(g, c, true, p);
  }

  /**
   * A value cascaded into a child that has no accessor for the name is an own
   * data property, so the child's `restoreState` does not remove it.
   */
  lemma InheritedValueSurvivesRestore(g: Node, c: Node, p: string)
    requires IsStyleName(p) && p !in c.properties && Inherits(g, c, p, false)
    ensures Get(Restored(Cascade(g, c, StyleNames, false)), p) == Get(g, p)
  {
    CascadeEffect(g, c, false, p);
    RestoreReadsInitial(Cascade(g, c, StyleNames, false), p);
  }

  // ------------------------------------------------------------ memoised bounds

  /** The own data property a memoising bound getter writes (`this.left` and so on). */
  function EdgeName(e: Edge): string
  {
    match e
    case Left => "left"
    case Top => "top"
    case Right => "right"
    case Bottom => "bottom"
  }

  predicate IsEdgeName(p: string)
  {
    p == "left" || p == "top" || p == "right" || p == "bottom"
  }

  /**
   * What a bound getter returns: for a Path, Polygon or Polyline that already
   * has the own property, its value; otherwise the bound computed afresh.
   */
  function Bound(n: Node, e: Edge): Num
  {
    if !Memoized(n.shape) then EdgeOf(n, e)
    else if HasOwn(n, EdgeName(e)) then AsNum(Get(n, EdgeName(e)))
    else PointEdge(n.shape, e)
  }

  /** The drawable after a bound getter: a memoising variant without the own property records what it computed. */
  function AfterBound(n: Node, e: Edge): Node
  {
    if Memoized(n.shape) && !HasOwn(n, EdgeName(e)) then Put(n, EdgeName(e), Number(PointEdge(n.shape, e))) else n
  }

  /**
   * The four memo names are own data properties, never accessors, and every
   * memo a drawable holds is the bound its points give.
   */
  predicate MemoSound(n: Node)
  {
    Memoized(n.shape) ==>
      forall e: Edge :: EdgeName(e) !in n.properties &&
        (EdgeName(e) in n.plain ==> n.plain[EdgeName(e)] == Number(PointEdge(n.shape, e)))
  }

  /** With sound memos a bound getter returns the bound of the drawable's points. */
  lemma BoundIsEdge(n: Node, e: Edge)
    requires MemoSound(n)
    ensures Bound(n, e) == EdgeOf(n, e)
  {
  }

  /** A bound getter keeps the memos sound. */
  lemma AfterBoundKeepsMemo(n: Node, e: Edge)
    requires MemoSound(n)
    ensures MemoSound(AfterBound(n, e))
  {
    if Memoized(n.shape) && EdgeName(e) !in n.plain {
      var m := AfterBound(n, e);
      assert EdgeName(e) !in n.properties;
      forall e' | EdgeName(e') in m.plain
        ensures m.plain[EdgeName(e')] == Number(PointEdge(m.shape, e'))
      {
        if e' != e {
          assert EdgeName(e') != EdgeName(e);
        }
      }
    }
  }

  /** A second call of a bound getter changes nothing. */
  lemma MemoIdempotent(n: Node, e: Edge)
    ensures AfterBound(AfterBound(n, e), e) == AfterBound(n, e)
  {
  }

  /**
   * A bound getter changes no bound: whatever memos the drawable holds, every
   * getter returns afterwards what it returned before, and only own data
   * properties change.
   */
  lemma AfterBoundKeepsBounds(n: Node, e: Edge, e': Edge)
    ensures Bound(AfterBound(n, e), e') == Bound(n, e')
    ensures AfterBound(n, e) == n.(overlay := AfterBound(n, e).overlay, plain := AfterBound(n, e).plain)
    ensures forall p :: !IsEdgeName(p) ==> Get(AfterBound(n, e), p) == Get(n, p) && HasOwn(AfterBound(n, e), p) == HasOwn(n, p)
    ensures OverlayOnAccessors(n) ==> OverlayOnAccessors(AfterBound(n, e))
  {
    if Memoized(n.shape) && !HasOwn(n, EdgeName(e)) {
      var v := Number(PointEdge(n.shape, e));
      PutThenGet(n, EdgeName(e), v, EdgeName(e'));
      forall p | !IsEdgeName(p) ensures Get(AfterBound(n, e), p) == Get(n, p) && HasOwn(AfterBound(n, e), p) == HasOwn(n, p) {
        PutThenGet(n, EdgeName(e), v, p);
      }
    }
  }

  /**
   * The memo is an ordinary own property: once written (by anyone), a
   * memoising getter returns it instead of the bound of the points.
   */
  lemma WrittenMemoIsReturned(n: Node, e: Edge, v: Num)
    requires Memoized(n.shape)
    ensures Bound(Put(n, EdgeName(e), Number(v)), e) == v
  {
    PutThenGet(n, EdgeName(e), Number(v), EdgeName(e));
  }

  /** A write to a name that is not one of the four memo names keeps the memos sound. */
  lemma PutKeepsMemo(n: Node, p: string, v: Value)
    requires MemoSound(n) && !IsEdgeName(p)
    ensures MemoSound(Put(n, p, v))
  {
    forall e: Edge ensures Get(Put(n, p, v), EdgeName(e)) == Get(n, EdgeName(e)) && HasOwn(Put(n, p, v), EdgeName(e)) == HasOwn(n, EdgeName(e)) {
      assert EdgeName(e) != p;
      PutThenGet(n, p, v, EdgeName(e));
    }
  }

  /** No memo name is a style name. */
  lemma EdgeNameIsNotStyle(e: Edge)
    ensures !IsStyleName(EdgeName(e))
  {
    if IsStyleName(EdgeName(e)) { StyleNameShape(EdgeName(e)); }
  }

  /** `restoreState` keeps the memos sound. */
  lemma RestoreKeepsMemo(c: Node)
    requires MemoSound(c)
    ensures MemoSound(Restored(c))
  {
  }

  /** The cascade keeps the memos sound. */
  lemma CascadeKeepsMemo(g: Node, c: Node, force: bool)
    requires MemoSound(c)
    ensures MemoSound(Cascade(g, c, StyleNames, force))
  {
    var r := Cascade(g, c, StyleNames, force);
    CascadeEffect(g, c, force, "left");
    forall e: Edge | EdgeName(e) in r.plain
      ensures Memoized(r.shape) ==> r.plain[EdgeName(e)] == Number(PointEdge(r.shape, e))
    {
      CascadeEffect(g, c, force, EdgeName(e));
      EdgeNameIsNotStyle(e);
    }
  }

  /** After `visible`, a drawable's constructor lists only style names: never a memo name. */
  lemma NoMemoNameAfterVisible(props: seq<string>)
    requires AppendsStyles(["visible"], props)
    ensures forall e: Edge :: EdgeName(e) !in props
  {
    forall e: Edge, j | 0 <= j < |props| ensures props[j] != EdgeName(e) {
      EdgeNameIsNotStyle(e);
      if j == 0 {
        assert props[j] == props[..1][0];
      } else {
        assert props[j] == props[1..][j - 1];
      }
    }
  }

  /** A Path, Polygon or Polyline lists `visible` and then only style names. */
  lemma ConstructListsStyles(read: NumberReader, s: Shape, e: Element, n: Node)
    requires Construct(read, s, e) == Ok(n) && Memoized(s)
    ensures AppendsStyles(["visible"], n.properties)
  {
    ConstructProperties(read, s, e, n);
    assert OwnValues(s, e, Setup(e)) == Setup(e);
    HandleStylesAppends(read, Setup(e), e.attrs);
    var listed := HandleStyles(read, Setup(e), e.attrs).value.properties;
    assert listed + [] == listed;
  }

  /** The names a constructor lists: those of its stores, then the late ones. */
  lemma ConstructProperties(read: NumberReader, s: Shape, e: Element, n: Node)
    requires Construct(read, s, e) == Ok(n)
    ensures HandleStyles(read, OwnValues(s, e, Setup(e)), e.attrs).Ok?
    ensures n.properties == HandleStyles(read, OwnValues(s, e, Setup(e)), e.attrs).value.properties + LateNames(s)
  {
  }

  /** A freshly built drawable holds no memo, and no memo name is one of its accessors. */
  lemma BuiltMemoSound(read: NumberReader, e: Element, n: Node)
    requires Built(read, e) == Ok(n)
    ensures MemoSound(n)
  {
    BuiltFromStores(read, e, n);
    if Memoized(n.shape) {
      ConstructListsStyles(read, n.shape, e, n);
      NoMemoNameAfterVisible(n.properties);
    }
  }

  // ------------------------------------------------------------ building a group

  /** What the bound getter returns for each drawable of a list, in order. */
  function BoundsOf(kids: seq<Node>, e: Edge): (r: seq<Num>)
    ensures |r| == |kids|
    ensures forall i :: 0 <= i < |kids| ==> r[i] == Bound(kids[i], e)
  {
    seq(|kids|, i requires 0 <= i < |kids| => Bound(kids[i], e))
  }

  /** `initDimensions`: the least left and top and greatest right and bottom of the children, through each matrix. */
  function GroupBox(kids: seq<Node>, ms: seq<Matrix>): Box
  {
    ThroughAll(Box(Extreme(BoundsOf(kids, Left), Least), Extreme(BoundsOf(kids, Top), Least),
                   Extreme(BoundsOf(kids, Right), Greatest), Extreme(BoundsOf(kids, Bottom), Greatest)), ms)
  }

  /** What a group's constructor has stored when it comes to handle styles. */
  function GroupStore(e: Element, bx: Box): Store
  {
    var st := Setup(e);
    Store(st.initial["x" := Number(bx.left)]["y" := Number(bx.top)]["width" := Number(Width(bx))]["height" := Number(Height(bx))],
          st.properties + ["x", "y", "width", "height"])
  }

  /** `new Group(elem, ...children)` as the node `self`, with `bx` its dimensions: Err where the constructor throws. */
  function GroupBuilt(read: NumberReader, e: Element, children: seq<nat>, bx: Box, self: nat): Result<Node, string>
  {
    match HandleStyles(read, GroupStore(e, bx), e.attrs)
    case Err(m) => Err(m)
    case Ok(st) =>
      if Distinct(st.properties) then
        Ok(Node(Group(children, false, Some(self)), st.initial, st.properties, map[], map[],
                Attribute(e.attrs, "id"), Attribute(e.attrs, "class"), e.transforms, None))
      else Err("cannot redefine property")
  }

  /** A freshly built group holds the store its constructor went through, with nothing written yet. */
  lemma GroupFromStores(read: NumberReader, e: Element, children: seq<nat>, bx: Box, self: nat, n: Node)
    requires GroupBuilt(read, e, children, bx, self) == Ok(n)
    ensures n.overlay == map[] && n.plain == map[] && n.reference == None
    ensures n.shape == Group(children, false, Some(self))
    ensures SameOffStyle(n.initial, GroupStore(e, bx).initial)
    ensures forall p :: p in GroupStore(e, bx).properties ==> p in n.properties
  {
    HandleStylesKeeps(read, GroupStore(e, bx), e.attrs);
  }

  /** What `initDimensions` stores: the box's left and top and its width and height, under names that are not style names. */
  lemma GroupStoreValues(e: Element, bx: Box)
    ensures var st := GroupStore(e, bx);
      && (forall p :: p in ["x", "y", "width", "height"] ==> p in st.properties && p in st.initial && !IsStyleName(p))
      && st.initial["x"] == Number(bx.left) && st.initial["y"] == Number(bx.top)
      && st.initial["width"] == Number(Width(bx)) && st.initial["height"] == Number(Height(bx))
  {
    forall p | p in ["x", "y", "width", "height"] ensures !IsStyleName(p) {
      if IsStyleName(p) { StyleNameShape(p); }
    }
  }

  /** A group's bound getters read its `x`, `y`, `width` and `height`; with a finite box stored there they return its edges. */
  lemma GroupEdges(n: Node, bx: Box)
    requires n.shape.Group? && IsFinite(bx)
    requires Get(n, "x") == Some(Number(bx.left)) && Get(n, "y") == Some(Number(bx.top))
    requires Get(n, "width") == Some(Number(Width(bx))) && Get(n, "height") == Some(Number(Height(bx)))
    ensures EdgeOf(n, Left) == bx.left && EdgeOf(n, Top) == bx.top
    ensures EdgeOf(n, Right) == bx.right && EdgeOf(n, Bottom) == bx.bottom
  {
  }

  /** A group styled twice under one name throws in its constructor too. */
  lemma GroupStyledTwiceThrows(read: NumberReader, e: Element, children: seq<nat>, bx: Box, self: nat, i: nat)
    requires StyledTwice(e.attrs, i)
    ensures GroupBuilt(read, e, children, bx, self).Err?
  {
    InlineAndPresentationDuplicate(read, GroupStore(e, bx), e.attrs, i);
  }

  /** A built group reads its dimensions as numbers, so its bound getters return the edges of its box. */
  lemma GroupBounds(read: NumberReader, e: Element, children: seq<nat>, bx: Box, self: nat, n: Node)
    requires GroupBuilt(read, e, children, bx, self) == Ok(n)
    requires IsFinite(bx)
    ensures EdgeOf(n, Left) == bx.left && EdgeOf(n, Top) == bx.top
    ensures EdgeOf(n, Right) == bx.right && EdgeOf(n, Bottom) == bx.bottom
  {
    GroupFromStores(read, e, children, bx, self, n);
    GroupStoreValues(e, bx);
    var st0 := GroupStore(e, bx);
    ReadsOwnValue(n, st0, "x");
    ReadsOwnValue(n, st0, "y");
    ReadsOwnValue(n, st0, "width");
    ReadsOwnValue(n, st0, "height");
    GroupEdges(n, bx);
  }

  /**
   * Without transforms the group's box encloses every child's bounds that are
   * numbers, and its right and bottom are never below Number.MIN_VALUE, even
   * when every child lies at negative coordinates.
   */
  lemma GroupBoxEncloses(kids: seq<Node>, i: nat)
    requires i < |kids|
    ensures var bx := GroupBox(kids, []);
      && (!Bound(kids[i], Left).NaN? ==> !Less(Bound(kids[i], Left), bx.left))
      && (!Bound(kids[i], Top).NaN? ==> !Less(Bound(kids[i], Top), bx.top))
      && (!Bound(kids[i], Right).NaN? ==> !Greater(Bound(kids[i], Right), bx.right))
      && (!Bound(kids[i], Bottom).NaN? ==> !Greater(Bound(kids[i], Bottom), bx.bottom))
      && !Less(bx.right, Fin(MIN_VALUE)) && !Less(bx.bottom, Fin(MIN_VALUE))
  {
    ExtremeIsBest(BoundsOf(kids, Left), Least);
    ExtremeIsBest(BoundsOf(kids, Top), Least);
    ExtremeIsBest(BoundsOf(kids, Right), Greatest);
    ExtremeIsBest(BoundsOf(kids, Bottom), Greatest);
    GreatestNeverBelowMinValue(BoundsOf(kids, Right));
    GreatestNeverBelowMinValue(BoundsOf(kids, Bottom));
  }
}
