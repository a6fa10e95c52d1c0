/**
 * The arithmetic of the scene graph: the running minimum and maximum that
 * bounding boxes are made of, the 2x3 matrices a group runs its box through,
 * and the translate/scale a drawable derives from its reference object.
 */
module Geometry {
  import opened JsValues

  // ------------------------------------------------------------ extremes

  /** The comparison `findPoint` is given: "<" keeps the least value seen, ">" the greatest. */
  datatype Direction = Least | Greatest

  /** The starting value: Number.MAX_VALUE for "<", Number.MIN_VALUE (a positive number) for ">". */
  function Seed(d: Direction): Num
  {
    if d == Least then Fin(MAX_VALUE) else Fin(MIN_VALUE)
  }

  /** `compare(a, b)` */
  predicate Beats(d: Direction, a: Num, b: Num)
  {
    if d == Least then Less(a, b) else Greater(a, b)
  }

  /** The value the scanning loop holds after visiting `xs` from left to right. */
  function Extreme(xs: seq<Num>, d: Direction): Num
    decreases |xs|
  {
    if |xs| == 0 then Seed(d)
    else
      var m := Extreme(xs[..|xs| - 1], d);
      if Beats(d, xs[|xs| - 1], m) then xs[|xs| - 1] else m
  }

  /**
   * The scan finds a best value: nothing in `xs` and not the seed beats it, and
   * it is the seed or one of the values.
   */
  lemma {:induction false} ExtremeIsBest(xs: seq<Num>, d: Direction)
    ensures var r := Extreme(xs, d);
      && (forall i :: 0 <= i < |xs| ==> !Beats(d, xs[i], r))
      && !Beats(d, Seed(d), r)
      && (r == Seed(d) || r in xs)
    decreases |xs|
  {
    if |xs| > 0 {
      var ys := xs[..|xs| - 1];
      ExtremeIsBest(ys, d);
      assert forall i :: 0 <= i < |ys| ==> xs[i] == ys[i];
    }
  }

  /** One more value: it replaces the best so far exactly when it beats it. */
  lemma ExtremeSnoc(xs: seq<Num>, x: Num, d: Direction)
    ensures Extreme(xs + [x], d) == if Beats(d, x, Extreme(xs, d)) then x else Extreme(xs, d)
  {
    assert (xs + [x])[..|xs|] == xs;
  }

  /** A value that beats every seed-ranked value is the least (greatest) of the values. */
  lemma ExtremeOfLargeValues(xs: seq<Num>, d: Direction, i: nat)
    requires i < |xs| && Beats(d, xs[i], Seed(d))
    ensures Extreme(xs, d) in xs
    ensures !Beats(d, xs[i], Extreme(xs, d))
  {
    ExtremeIsBest(xs, d);
  }

  /**
   * Seeding the greatest value with Number.MIN_VALUE, the smallest positive
   * double, means the result is never below it, whatever the values are.
   */
  lemma GreatestNeverBelowMinValue(xs: seq<Num>)
    ensures !Less(Extreme(xs, Greatest), Fin(MIN_VALUE))
  {
    ExtremeIsBest(xs, Greatest);
  }

  /** In particular, when every value is negative the "greatest" is MIN_VALUE, not one of them. */
  lemma AllNegativeGivesMinValue(xs: seq<Num>)
    requires forall i :: 0 <= i < |xs| ==> xs[i].Fin? && xs[i].v < 0.0
    ensures Extreme(xs, Greatest) == Fin(MIN_VALUE)
  {
    ExtremeIsBest(xs, Greatest);
    assert forall x :: x in xs ==> x.Fin? && x.v < 0.0;
  }

  /** The loop of `findPoint`, and of the Polygon and Polyline bound getters, over values already read. */
  method ScanExtreme(xs: seq<Num>, d: Direction) returns (r: Num)
    ensures r == Extreme(xs, d)
  {
    r := Seed(d);
    var i := 0;
    while i < |xs|
      invariant 0 <= i <= |xs|
      invariant r == Extreme(xs[..i], d)
    {
      assert xs[..i + 1][..i] == xs[..i];
      if Beats(d, xs[i], r) {
        r := xs[i];
      }
      i := i + 1;
    }
    assert xs[..i] == xs;
  }

  // ------------------------------------------------------------ boxes and matrices

  /** Left, top, right and bottom edges. */
  datatype Box = Box(left: Num, top: Num, right: Num, bottom: Num)

  /** The matrix of an SVG transform: x' = a*x + c*y + e, y' = b*x + d*y + f. */
  datatype Matrix = Matrix(a: real, b: real, c: real, d: real, e: real, f: real)

  /** `p*x + q*y + r`, evaluated left to right as the source writes it. */
  function Affine(p: real, q: real, r: real, x: Num, y: Num): Num
  {
    Add(Add(Mul(Fin(p), x), Mul(Fin(q), y)), Fin(r))
  }

  /** One pass of the loop in `initDimensions`: both corners through the matrix. */
  function Transformed(m: Matrix, bx: Box): Box
  {
    Box(Affine(m.a, m.c, m.e, bx.left, bx.top), Affine(m.b, m.d, m.f, bx.left, bx.top),
        Affine(m.a, m.c, m.e, bx.right, bx.bottom), Affine(m.b, m.d, m.f, bx.right, bx.bottom))
  }

  /** The box after the matrices, applied in list order. */
  function ThroughAll(bx: Box, ms: seq<Matrix>): Box
    decreases |ms|
  {
    if |ms| == 0 then bx else ThroughAll(Transformed(ms[0], bx), ms[1..])
  }

  predicate IsTranslation(m: Matrix)
  {
    m.a == 1.0 && m.b == 0.0 && m.c == 0.0 && m.d == 1.0
  }

  predicate IsFinite(bx: Box)
  {
    bx.left.Fin? && bx.top.Fin? && bx.right.Fin? && bx.bottom.Fin?
  }

  /** `right - left` and `bottom - top` */
  function Width(bx: Box): Num
  {
    Sub(bx.right, bx.left)
  }

  function Height(bx: Box): Num
  {
    Sub(bx.bottom, bx.top)
  }

  /** A translation moves both corners by (e, f) and keeps the size. */
  lemma TranslationShifts(m: Matrix, bx: Box)
    requires IsTranslation(m) && IsFinite(bx)
    ensures Transformed(m, bx) == Box(Fin(bx.left.v + m.e), Fin(bx.top.v + m.f), Fin(bx.right.v + m.e), Fin(bx.bottom.v + m.f))
    ensures Width(Transformed(m, bx)) == Width(bx) && Height(Transformed(m, bx)) == Height(bx)
  {
  }

  /** A chain of translations moves the box by the sum of the offsets and keeps its size. */
  lemma {:induction false} TranslationsKeepSize(bx: Box, ms: seq<Matrix>)
    requires IsFinite(bx)
    requires forall i :: 0 <= i < |ms| ==> IsTranslation(ms[i])
    ensures IsFinite(ThroughAll(bx, ms))
    ensures Width(ThroughAll(bx, ms)) == Width(bx) && Height(ThroughAll(bx, ms)) == Height(bx)
    decreases |ms|
  {
    if |ms| > 0 {
      TranslationShifts(ms[0], bx);
      TranslationsKeepSize(Transformed(ms[0], bx), ms[1..]);
    }
  }

  /** Two boxes [0,0,10,10] and [5,5,20,20] aggregate to [0,0,20,20]. */
  lemma AggregateExample()
    ensures Extreme([Fin(0.0), Fin(5.0)], Least) == Fin(0.0)
    ensures Extreme([Fin(10.0), Fin(20.0)], Greatest) == Fin(20.0)
  {
    assert [Fin(0.0), Fin(5.0)][..1] == [Fin(0.0)];
    assert [Fin(10.0), Fin(20.0)][..1] == [Fin(10.0)];
  }

  // ------------------------------------------------------------ reference objects

  /** What a drawable reads of its reference: the current x, y, width, height, then the initial ones. */
  datatype Frame = Frame(x: Num, y: Num, width: Num, height: Num, x0: Num, y0: Num, width0: Num, height0: Num)

  /** `_getReferenceChange`: [changeX, changeY, changeW, changeH]. */
  datatype Change = Change(dx: Num, dy: Num, sx: Num, sy: Num)

  function ReferenceChange(f: Frame): Change
  {
    Change(Or(Sub(f.x, f.x0), 0.0), Or(Sub(f.y, f.y0), 0.0), Or(Div(f.width, f.width0), 1.0), Or(Div(f.height, f.height0), 1.0))
  }

  /** The calls `_referenceTransform` makes on the drawing surface. */
  datatype SurfaceOp = NoOp | Translate(tx: Num, ty: Num) | TranslateScale(tx: Num, ty: Num, sx: Num, sy: Num)

  /** `_referenceTransform`, returning the translate/scale instead of applying it. */
  function ReferenceTransform(f: Frame): SurfaceOp
  {
    var moveX := Or(Sub(f.x, f.x0), 0.0);
    var moveY := Or(Sub(f.y, f.y0), 0.0);
    var scaleX := Div(f.width, f.width0);
    var scaleY := Div(f.height, f.height0);
    if Truthy(scaleX) || Truthy(scaleY) then
      var sx := Or(scaleX, 1.0);
      var sy := Or(scaleY, 1.0);
      var tx := if sx == Fin(1.0) then moveX else Add(Mul(Neg(f.x0), sx), f.x);
      var ty := if sy == Fin(1.0) then moveY else Add(Mul(Neg(f.y0), sy), f.y);
      TranslateScale(tx, ty, sx, sy)
    else if Truthy(moveX) || Truthy(moveY) then Translate(moveX, moveY)
    else NoOp
  }

  /** Where the surface, after the operation, draws a point given with x coordinate `x`. */
  function ApplyX(op: SurfaceOp, x: Num): Num
  {
    match op
    case NoOp => x
    case Translate(tx, _) => Add(x, tx)
    case TranslateScale(tx, _, sx, _) => Add(Mul(sx, x), tx)
  }

  function ApplyY(op: SurfaceOp, y: Num): Num
  {
    match op
    case NoOp => y
    case Translate(_, ty) => Add(y, ty)
    case TranslateScale(_, ty, _, sy) => Add(Mul(sy, y), ty)
  }

  predicate AllFinite(f: Frame)
  {
    f.x.Fin? && f.y.Fin? && f.width.Fin? && f.height.Fin? && f.x0.Fin? && f.y0.Fin? && f.width0.Fin? && f.height0.Fin?
  }

  /** With non-zero sizes, the scale is the ratio of current to initial size. */
  lemma ScaleIsRatio(w: real, w0: real)
    requires w != 0.0 && w0 != 0.0
    ensures Div(Fin(w), Fin(w0)) == Fin(w / w0) && Truthy(Fin(w / w0))
    ensures Or(Div(Fin(w), Fin(w0)), 1.0) == Fin(w / w0)
    ensures (w / w0) * w0 == w
  {
  }

  /** The horizontal part of a scaling reference transform, for one axis. */
  lemma AxisTracks(x: real, w: real, x0: real, w0: real, tx: Num, sx: Num)
    requires w != 0.0 && w0 != 0.0 && sx == Fin(w / w0)
    requires tx == (if sx == Fin(1.0) then Or(Sub(Fin(x), Fin(x0)), 0.0) else Add(Mul(Neg(Fin(x0)), sx), Fin(x)))
    ensures Add(Mul(sx, Fin(x0)), tx) == Fin(x)
    ensures Add(Mul(sx, Add(Fin(x0), Fin(w0))), tx) == Add(Fin(x), Fin(w))
  {
    ScaleIsRatio(w, w0);
    var s := w / w0;
    if s == 1.0 {
      assert w == w0;
    } else {
      assert s * (x0 + w0) + (-x0 * s + x) == x + s * w0;
    }
  }

  /**
   * With finite, non-zero sizes the reference transform is a translate and a
   * scale that carries the reference's initial box onto its current box: the
   * initial (x, y) lands on the current (x, y), and the initial far corner
   * (x + width, y + height) on the current one.
   */
  lemma ReferenceTracksFrame(f: Frame)
    requires AllFinite(f)
    requires f.width.v != 0.0 && f.width0.v != 0.0 && f.height.v != 0.0 && f.height0.v != 0.0
    ensures ReferenceTransform(f).TranslateScale?
    ensures ApplyX(ReferenceTransform(f), f.x0) == f.x
    ensures ApplyY(ReferenceTransform(f), f.y0) == f.y
    ensures ApplyX(ReferenceTransform(f), Add(f.x0, f.width0)) == Add(f.x, f.width)
    ensures ApplyY(ReferenceTransform(f), Add(f.y0, f.height0)) == Add(f.y, f.height)
  {
    ScaleIsRatio(f.width.v, f.width0.v);
    ScaleIsRatio(f.height.v, f.height0.v);
    var op := ReferenceTransform(f);
    AxisTracks(f.x.v, f.width.v, f.x0.v, f.width0.v, op.tx, op.sx);
    AxisTracks(f.y.v, f.height.v, f.y0.v, f.height0.v, op.ty, op.sy);
  }

  /**
   * A height ratio that is zero or undefined falls back to 1: the vertical part
   * is then the plain move, which still carries the initial y onto the current y.
   */
  lemma MissingRatioFallsBackToOne(f: Frame)
    requires AllFinite(f)
    requires Truthy(Div(f.width, f.width0))
    requires !Truthy(Div(f.height, f.height0))
    ensures ReferenceTransform(f).TranslateScale? && ReferenceTransform(f).sy == Fin(1.0)
    ensures ApplyY(ReferenceTransform(f), f.y0) == f.y
  {
  }

  /**
   * A reference whose sizes give no usable ratio (0/0) emits at most a
   * translation, and that translation still carries the initial (x, y) onto the
   * current (x, y); when the reference has not moved either, nothing is emitted.
   */
  lemma DegenerateReferenceOnlyMoves(f: Frame)
    requires AllFinite(f)
    requires f.width == Fin(0.0) && f.width0 == Fin(0.0) && f.height == Fin(0.0) && f.height0 == Fin(0.0)
    ensures ReferenceTransform(f).NoOp? || ReferenceTransform(f).Translate?
    ensures ApplyX(ReferenceTransform(f), f.x0) == f.x && ApplyY(ReferenceTransform(f), f.y0) == f.y
    ensures ReferenceTransform(f).NoOp? <==> f.x == f.x0 && f.y == f.y0
  {
  }

  /** The translation of one scaled axis: the plain move for a unit scale, otherwise the anchored offset. */
  function AxisOffset(x: real, x0: real, s: real): real
  {
    if s == 1.0 then x - x0 else -x0 * s + x
  }

  /** With finite, non-zero sizes the transform is the scale by the size ratios and the anchored translation. */
  lemma ScalingParts(f: Frame)
    requires AllFinite(f)
    requires f.width.v != 0.0 && f.width0.v != 0.0 && f.height.v != 0.0 && f.height0.v != 0.0
    ensures var sx := f.width.v / f.width0.v;
      var sy := f.height.v / f.height0.v;
      ReferenceTransform(f) == TranslateScale(Fin(AxisOffset(f.x.v, f.x0.v, sx)), Fin(AxisOffset(f.y.v, f.y0.v, sy)), Fin(sx), Fin(sy))
  {
    ScaleIsRatio(f.width.v, f.width0.v);
    ScaleIsRatio(f.height.v, f.height0.v);
    var sx := f.width.v / f.width0.v;
    var sy := f.height.v / f.height0.v;
    var op := ReferenceTransform(f);
    assert op.TranslateScale?;
    assert op.sx == Fin(sx);
    assert op.sy == Fin(sy);
    assert op.tx == Fin(AxisOffset(f.x.v, f.x0.v, sx));
    assert op.ty == Fin(AxisOffset(f.y.v, f.y0.v, sy));
  }

  /** A reference grown from 10x10 to 20x10 in place draws the point (5, 5) at (10, 5). */
  lemma ScalingExample(f: Frame)
    requires f == Frame(Fin(0.0), Fin(0.0), Fin(20.0), Fin(10.0), Fin(0.0), Fin(0.0), Fin(10.0), Fin(10.0))
    ensures ApplyX(ReferenceTransform(f), Fin(5.0)) == Fin(10.0) && ApplyY(ReferenceTransform(f), Fin(5.0)) == Fin(5.0)
  {
    ScalingParts(f);
    assert 20.0 / 10.0 == 2.0 && 10.0 / 10.0 == 1.0;
  }

  // ------------------------------------------------------------ Rect and Line

  /** The `[x, y, w, h]` that `Rect.refTransform` leaves, from the rectangle's initial x and y. */
  function RectPlaced(dims: seq<Num>, x0: Num, y0: Num, f: Frame): (r: seq<Num>)
    requires |dims| == 4
    ensures |r| == 4
  {
    var scaleX := Or(Div(f.width, f.width0), 1.0);
    var scaleY := Or(Div(f.height, f.height0), 1.0);
    [Add(Mul(Sub(x0, f.x0), scaleX), f.x), Add(Mul(Sub(y0, f.y0), scaleY), f.y), Mul(dims[2], scaleX), Mul(dims[3], scaleY)]
  }

  /** `Rect.refTransform(ctx, dimensions)`: rewrites the rectangle arguments in place. */
  method RectRefTransform(dims: array<Num>, x0: Num, y0: Num, reference: Option<Frame>)
    requires dims.Length == 4
    modifies dims
    ensures reference.None? ==> dims[..] == old(dims[..])
    ensures reference.Some? ==> dims[..] == RectPlaced(old(dims[..]), x0, y0, reference.value)
  {
    if reference.Some? {
      var f := reference.value;
      var scaleX := Or(Div(f.width, f.width0), 1.0);
      var scaleY := Or(Div(f.height, f.height0), 1.0);
      ghost var before := dims[..];
      dims[0] := Add(Mul(Sub(x0, f.x0), scaleX), f.x);
      dims[1] := Add(Mul(Sub(y0, f.y0), scaleY), f.y);
      dims[2] := Mul(dims[2], scaleX);
      dims[3] := Mul(dims[3], scaleY);
      assert dims[..] == RectPlaced(before, x0, y0, f);
    }
  }

  /**
   * `Rect.refTransform` puts the rectangle's initial corner where the general
   * reference transform would draw it, and scales its current size by the same
   * ratios.
   */
  lemma RectAgreesWithReferenceTransform(dims: seq<Num>, x0: real, y0: real, f: Frame)
    requires |dims| == 4 && dims[2].Fin? && dims[3].Fin?
    requires AllFinite(f)
    requires f.width.v != 0.0 && f.width0.v != 0.0 && f.height.v != 0.0 && f.height0.v != 0.0
    ensures var r := RectPlaced(dims, Fin(x0), Fin(y0), f);
      var op := ReferenceTransform(f);
      && r[0] == ApplyX(op, Fin(x0)) && r[1] == ApplyY(op, Fin(y0))
      && r[2] == Mul(op.sx, dims[2]) && r[3] == Mul(op.sy, dims[3])
  {
    ScaleIsRatio(f.width.v, f.width0.v);
    ScaleIsRatio(f.height.v, f.height0.v);
    var sx := f.width.v / f.width0.v;
    var sy := f.height.v / f.height0.v;
    assert (x0 - f.x0.v) * sx + f.x.v == sx * x0 + (-f.x0.v * sx + f.x.v);
    assert (y0 - f.y0.v) * sy + f.y.v == sy * y0 + (-f.y0.v * sy + f.y.v);
  }

  /** `Line.refTransform` on one coordinate: `p * change + delta`. */
  function LineRefX(ch: Change, x: Num): Num
  {
    Add(Mul(x, ch.sx), ch.dx)
  }

  function LineRefY(ch: Change, y: Num): Num
  {
    Add(Mul(y, ch.sy), ch.dy)
  }

  /**
   * When the reference's initial corner is the origin, the line formula and the
   * general reference transform draw every point at the same place.
   */
  lemma LineAgreesAtOrigin(f: Frame, x: real, y: real)
    requires AllFinite(f) && f.x0 == Fin(0.0) && f.y0 == Fin(0.0)
    requires f.width.v != 0.0 && f.width0.v != 0.0 && f.height.v != 0.0 && f.height0.v != 0.0
    ensures LineRefX(ReferenceChange(f), Fin(x)) == ApplyX(ReferenceTransform(f), Fin(x))
    ensures LineRefY(ReferenceChange(f), Fin(y)) == ApplyY(ReferenceTransform(f), Fin(y))
  {
    ScaleIsRatio(f.width.v, f.width0.v);
    ScaleIsRatio(f.height.v, f.height0.v);
  }

  /**
   * Elsewhere they differ: a reference at x = 10 doubled in width keeps its
   * corner at 10 under the general transform, while the line formula moves
   * a point there to 20.
   */
  lemma LineScalesAboutOrigin(f: Frame)
    requires f == Frame(Fin(10.0), Fin(0.0), Fin(20.0), Fin(10.0), Fin(10.0), Fin(0.0), Fin(10.0), Fin(10.0))
    ensures ApplyX(ReferenceTransform(f), f.x0) == Fin(10.0) && LineRefX(ReferenceChange(f), f.x0) == Fin(20.0)
  {
    ScalingParts(f);
    ScaleIsRatio(20.0, 10.0);
    assert 20.0 / 10.0 == 2.0;
  }
}
