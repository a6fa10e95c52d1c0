/**
 * The scene graph as the library holds it: drawables are objects that their
 * own methods and their group's methods update in place. The model keeps
 * them in one table (`Scene.nodes`), a drawable being its index there; a
 * group's children and every reference are indices too. A group is
 * constructed from children that already exist, so every child precedes its
 * group in the table.
 */
module SceneGraph {
  import opened JsValues
  import opened Styles
  import opened Geometry
  import opened Nodes
  import PathParsing

  // ------------------------------------------------------------ structure

  /** The children of a drawable: none unless it is a group. */
  function Kids(n: Node): seq<nat>
  {
    if n.shape.Group? then n.shape.children else []
  }

  /** Every drawable's children, by index. */
  function Structure(ns: seq<Node>): (g: seq<seq<nat>>)
    ensures |g| == |ns|
    ensures forall j :: 0 <= j < |ns| ==> g[j] == Kids(ns[j])
  {
    if |ns| == 0 then [] else Structure(ns[..|ns| - 1]) + [Kids(ns[|ns| - 1])]
  }

  /** Every child precedes its group. */
  predicate Acyclic(g: seq<seq<nat>>)
  {
    forall k, i :: 0 <= k < |g| && 0 <= i < |g[k]| ==> g[k][i] < k
  }

  /**
   * What `restoreState` of drawable `k` reaches: `k` itself and, for a group,
   * every descendant. Only children below their group are followed, which in
   * an acyclic structure is every child.
   */
  ghost function Reach(g: seq<seq<nat>>, k: nat): set<nat>
    requires k < |g|
    decreases k, 1
  {
    {k} + ReachAll(g, g[k], k)
  }

  /** What `restoreState` reaches from each of the drawables `cs` below `bound`. */
  ghost function ReachAll(g: seq<seq<nat>>, cs: seq<nat>, bound: nat): set<nat>
    requires bound <= |g|
    decreases bound, 0, |cs|
  {
    if |cs| == 0 then {}
    else
      var c := cs[|cs| - 1];
      ReachAll(g, cs[..|cs| - 1], bound) + (if c < bound then Reach(g, c) else {})
  }

  /** One more child of `k` reaches what it reaches. */
  lemma ReachStep(g: seq<seq<nat>>, k: nat, i: nat)
    requires Acyclic(g) && k < |g| && i < |g[k]|
    ensures {k} + ReachAll(g, g[k][..i + 1], k) == ({k} + ReachAll(g, g[k][..i], k)) + Reach(g, g[k][i])
  {
    assert g[k][..i + 1][..i] == g[k][..i];
  }

  lemma ReachUnfolds(g: seq<seq<nat>>, k: nat)
    requires k < |g|
    ensures Reach(g, k) == {k} + ReachAll(g, g[k][..|g[k]|], k)
  {
    assert g[k][..|g[k]|] == g[k];
  }

  /** A drawable refers only to drawables of the table. */
  predicate RefsWithin(n: Node, size: nat)
  {
    (n.reference.Some? ==> n.reference.value < size)
    && (n.shape.Group? && n.shape.childReference.Some? ==> n.shape.childReference.value < size)
  }

  /** A table the scene can hold: a forest, stores whose overlay only holds accessor names, references inside the table. */
  ghost predicate WellFormed(ns: seq<Node>)
  {
    Acyclic(Structure(ns))
    && forall k :: 0 <= k < |ns| ==> OverlayOnAccessors(ns[k]) && RefsWithin(ns[k], |ns|)
  }

  /** Two tables of the same drawables, position by position. */
  predicate SameShapes(a: seq<Node>, b: seq<Node>)
  {
    |a| == |b| && forall j :: 0 <= j < |a| ==> a[j].shape == b[j].shape
  }

  /** Every drawable's memos are sound. */
  ghost predicate AllMemosSound(ns: seq<Node>)
  {
    forall k :: 0 <= k < |ns| ==> MemoSound(ns[k])
  }

  /** Replacing one drawable by a version of it with the same children keeps the table well formed. */
  lemma ReplaceKeepsWellFormed(ns: seq<Node>, k: nat, m: Node)
    requires WellFormed(ns) && k < |ns|
    requires Kids(m) == Kids(ns[k]) && OverlayOnAccessors(m) && RefsWithin(m, |ns|)
    ensures WellFormed(ns[k := m])
  {
    SameKidsStructure(ns, ns[k := m]);
  }

  /** A new drawable whose children are already in the table can be appended. */
  lemma AppendKeepsWellFormed(ns: seq<Node>, n: Node)
    requires WellFormed(ns) && InRange(Kids(n), |ns|)
    requires OverlayOnAccessors(n) && RefsWithin(n, |ns| + 1)
    ensures WellFormed(ns + [n])
  {
    assert (ns + [n])[..|ns|] == ns;
    assert Structure(ns + [n]) == Structure(ns) + [Kids(n)];
  }

  /** Replacing one drawable by one whose memos are sound keeps every memo sound. */
  lemma ReplaceKeepsMemos(ns: seq<Node>, k: nat, m: Node)
    requires k < |ns|
    ensures AllMemosSound(ns) && MemoSound(m) ==> AllMemosSound(ns[k := m])
  {
  }

  /** The table after `restoreState` of exactly the drawables `s`. */
  ghost function RestoredWithin(ns: seq<Node>, s: set<nat>): (r: seq<Node>)
    ensures |r| == |ns|
    ensures forall j :: 0 <= j < |ns| ==> r[j] == if j in s then Restored(ns[j]) else ns[j]
  {
    seq(|ns|, j requires 0 <= j < |ns| => if j in s then Restored(ns[j]) else ns[j])
  }

  /**
   * What the table reads after `restoreState` of the drawables `s`: in a
   * drawable of `s` every name with an accessor reads its initial value
   * again; every other read, in every drawable, is unchanged.
   */
  lemma RestoredWithinReads(ns: seq<Node>, s: set<nat>, j: nat, p: string)
    requires j < |ns|
    ensures Get(RestoredWithin(ns, s)[j], p) ==
      if j in s && p in ns[j].properties then (if p in ns[j].initial then Some(ns[j].initial[p]) else None)
      else Get(ns[j], p)
  {
    if j in s {
      RestoreReadsInitial(ns[j], p);
    }
  }

  lemma RestoredOne(ns: seq<Node>, k: nat)
    requires k < |ns|
    ensures ns[k := Restored(ns[k])] == RestoredWithin(ns, {k})
  {
  }

  /** Restoring twice restores the union: a restored drawable stays restored. */
  lemma RestoredWithinTwice(ns: seq<Node>, a: set<nat>, b: set<nat>)
    ensures RestoredWithin(RestoredWithin(ns, a), b) == RestoredWithin(ns, a + b)
  {
  }

  /** Restoring keeps the table well formed and every memo sound. */
  lemma RestoredWithinKeepsShapes(ns: seq<Node>, s: set<nat>)
    ensures SameShapes(ns, RestoredWithin(ns, s)) && SameKids(ns, RestoredWithin(ns, s))
    ensures WellFormed(ns) ==> WellFormed(RestoredWithin(ns, s))
    ensures AllMemosSound(ns) ==> AllMemosSound(RestoredWithin(ns, s))
  {
    var r := RestoredWithin(ns, s);
    SameKidsStructure(ns, r);
    forall k | 0 <= k < |ns| && MemoSound(ns[k]) ensures MemoSound(r[k]) {
      RestoreKeepsMemo(ns[k]);
    }
  }

  /** Two tables in which every drawable has the same children. */
  predicate SameKids(a: seq<Node>, b: seq<Node>)
  {
    |a| == |b| && forall j :: 0 <= j < |a| ==> Kids(a[j]) == Kids(b[j])
  }

  lemma SameKidsStructure(a: seq<Node>, b: seq<Node>)
    requires SameKids(a, b)
    ensures Structure(a) == Structure(b)
  {
    assert forall j :: 0 <= j < |a| ==> Structure(a)[j] == Structure(b)[j];
  }

  // ------------------------------------------------------------ specifications of the loops over children

  /** Every index of `cs` is a drawable of a table of `size` drawables. */
  predicate InRange(cs: seq<nat>, size: nat)
  {
    forall i :: 0 <= i < |cs| ==> cs[i] < size
  }

  /** The drawables at the indices `cs`, in order. */
  function Pick(ns: seq<Node>, cs: seq<nat>): (r: seq<Node>)
    requires InRange(cs, |ns|)
    ensures |r| == |cs|
    ensures forall i :: 0 <= i < |cs| ==> r[i] == ns[cs[i]]
  {
    seq(|cs|, i requires 0 <= i < |cs| => ns[cs[i]])
  }

  /** The table after the bound getter `e` of each of the first `n` drawables `cs`, in order. */
  function MemoAll(ns: seq<Node>, cs: seq<nat>, n: nat, e: Edge): (r: seq<Node>)
    requires n <= |cs| && InRange(cs, |ns|)
    ensures |r| == |ns|
  {
    if n == 0 then ns
    else
      var m := MemoAll(ns, cs, n - 1, e);
      m[cs[n - 1] := AfterBound(m[cs[n - 1]], e)]
  }

  /**
   * What a bound getter may change in a drawable: only its own data
   * properties under the four memo names, so that every getter returns what it
   * returned before.
   */
  ghost predicate MemoStep(a: Node, b: Node)
  {
    && b == a.(overlay := b.overlay, plain := b.plain)
    && (forall e :: Bound(b, e) == Bound(a, e))
    && (forall p :: !IsEdgeName(p) ==> Get(b, p) == Get(a, p) && HasOwn(b, p) == HasOwn(a, p))
    && (OverlayOnAccessors(a) ==> OverlayOnAccessors(b))
    && (MemoSound(a) ==> MemoSound(b))
  }

  lemma AfterBoundStep(n: Node, e: Edge)
    ensures MemoStep(n, AfterBound(n, e))
  {
    forall e' ensures Bound(AfterBound(n, e), e') == Bound(n, e') {
      AfterBoundKeepsBounds(n, e, e');
    }
    AfterBoundKeepsBounds(n, e, e);
    if MemoSound(n) {
      AfterBoundKeepsMemo(n, e);
    }
  }

  /**
   * Running a bound getter over the children changes no bound of any drawable
   * and nothing but memos; sound memos stay sound.
   */
  lemma {:induction false} MemoAllSteps(ns: seq<Node>, cs: seq<nat>, n: nat, e: Edge)
    requires n <= |cs| && InRange(cs, |ns|)
    ensures forall j :: 0 <= j < |ns| ==> MemoStep(ns[j], MemoAll(ns, cs, n, e)[j])
  {
    if n > 0 {
      var m := MemoAll(ns, cs, n - 1, e);
      var k := cs[n - 1];
      MemoAllSteps(ns, cs, n - 1, e);
      AfterBoundStep(m[k], e);
      MemoStepTransitive(ns[k], m[k], AfterBound(m[k], e));
      assert MemoAll(ns, cs, n, e) == m[k := AfterBound(m[k], e)];
    }
  }

  lemma MemoStepTransitive(a: Node, b: Node, c: Node)
    requires MemoStep(a, b) && MemoStep(b, c)
    ensures MemoStep(a, c)
  {
  }

  /** Bound getters change no drawable's bound. */
  lemma MemoAllKeepsBound(ns: seq<Node>, cs: seq<nat>, n: nat, e: Edge, j: nat)
    requires n <= |cs| && InRange(cs, |ns|) && j < |ns|
    ensures Bound(MemoAll(ns, cs, n, e)[j], e) == Bound(ns[j], e)
  {
    MemoAllSteps(ns, cs, n, e);
  }

  /** Bound getters keep every memo sound. */
  lemma MemoAllKeepsMemos(ns: seq<Node>, cs: seq<nat>, n: nat, e: Edge)
    requires n <= |cs| && InRange(cs, |ns|) && AllMemosSound(ns)
    ensures AllMemosSound(MemoAll(ns, cs, n, e))
  {
    MemoAllSteps(ns, cs, n, e);
  }

  lemma PrefixWhole<T>(s: seq<T>)
    ensures s[..|s|] == s
  {
  }

  lemma LastSplit<T>(s: seq<T>)
    requires |s| > 0
    ensures s == s[..|s| - 1] + [s[|s| - 1]]
  {
  }

  /** The bounds of one more drawable. */
  lemma BoundsStep(ns: seq<Node>, cs: seq<nat>, e: Edge, i: nat)
    requires i < |cs| && InRange(cs, |ns|)
    ensures BoundsOf(Pick(ns, cs)[..i + 1], e) == BoundsOf(Pick(ns, cs)[..i], e) + [Bound(ns[cs[i]], e)]
  {
    assert Pick(ns, cs)[..i + 1][..i] == Pick(ns, cs)[..i];
  }

  /** The same drawables, changed by bound getters only, give the same bounds. */
  lemma BoundsAgree(a: seq<Node>, b: seq<Node>, cs: seq<nat>, e: Edge)
    requires |a| == |b| && InRange(cs, |a|)
    requires forall j :: 0 <= j < |a| ==> MemoStep(a[j], b[j])
    ensures BoundsOf(Pick(b, cs), e) == BoundsOf(Pick(a, cs), e)
  {
    assert forall i :: 0 <= i < |cs| ==> BoundsOf(Pick(b, cs), e)[i] == BoundsOf(Pick(a, cs), e)[i];
  }

  /** An overlay after each of `names`, in order, is set to undefined. */
  function Cleared(overlay: map<string, Value>, names: seq<string>): (r: map<string, Value>)
    ensures forall p :: p in r <==> p in overlay && p !in names
    ensures forall p :: p in r ==> r[p] == overlay[p]
  {
    if |names| == 0 then overlay else Cleared(overlay, names[..|names| - 1]) - {names[|names| - 1]}
  }

  /**
   * The value a bound getter returns: a memo when the drawable has one,
   * otherwise `Math.min`/`Math.max` of the coordinates for a Path, the loop
   * seeded with Number.MAX_VALUE (Number.MIN_VALUE) for a Polygon or Polyline,
   * and the stored geometry for the other variants.
   */
  method Measure(n: Node, e: Edge) returns (r: Num)
    ensures r == Bound(n, e)
  {
    if !Memoized(n.shape) {
      return EdgeOf(n, e);
    }
    var name := EdgeName(e);
    if HasOwn(n, name) {
      return AsNum(Get(n, name));
    }
    var xs := Coords(n.shape.points, IsHorizontal(e));
    if n.shape.Path? {
      r := if DirectionOf(e) == Least then MathMin(xs) else MathMax(xs);
    } else {
      r := ScanExtreme(xs, DirectionOf(e));
    }
  }

  // ------------------------------------------------------------ references

  function WithReference(n: Node, ref: nat): Node
  {
    n.(reference := Some(ref))
  }

  function WithChildReference(n: Node, ref: nat): Node
    requires n.shape.Group?
  {
    n.(shape := n.shape.(childReference := Some(ref)))
  }

  /** The loop over every child in `setChildReference`, after its first `n` passes: each child other than `ref` is given `ref`. */
  function WireAll(ns: seq<Node>, cs: seq<nat>, n: nat, ref: nat): (r: seq<Node>)
    requires n <= |cs| && InRange(cs, |ns|)
    ensures |r| == |ns|
  {
    if n == 0 then ns
    else
      var m := WireAll(ns, cs, n - 1, ref);
      if cs[n - 1] != ref then m[cs[n - 1] := WithReference(m[cs[n - 1]], ref)] else m
  }

  /**
   * The loop over the given indices in `setChildReference`, after its first
   * `n` passes, and whether it got there: an index that names no child throws
   * (`undefined.setReference`), leaving the earlier writes in place.
   */
  function WireIndices(ns: seq<Node>, cs: seq<nat>, idx: seq<int>, n: nat, ref: nat): (r: (seq<Node>, bool))
    requires n <= |idx| && InRange(cs, |ns|)
    ensures |r.0| == |ns|
  {
    if n == 0 then (ns, true)
    else
      var (m, ok) := WireIndices(ns, cs, idx, n - 1, ref);
      var i := idx[n - 1];
      if !ok || !(0 <= i < |cs|) then (m, false)
      else if cs[i] != ref then (m[cs[i] := WithReference(m[cs[i]], ref)], true)
      else (m, true)
  }

  /** The children the first `n` indices name, up to the first that names none. */
  function Named(cs: seq<nat>, idx: seq<int>, n: nat): set<nat>
    requires n <= |idx|
  {
    if n == 0 then {}
    else if !(0 <= idx[n - 1] < |cs|) || !IndicesValid(cs, idx, n - 1) then Named(cs, idx, n - 1)
    else Named(cs, idx, n - 1) + {cs[idx[n - 1]]}
  }

  /** Every one of the first `n` indices names a child. */
  predicate IndicesValid(cs: seq<nat>, idx: seq<int>, n: nat)
    requires n <= |idx|
  {
    forall t :: 0 <= t < n ==> 0 <= idx[t] < |cs|
  }

  /**
   * Giving every child its reference: each child other than `ref` refers to
   * `ref` afterwards, and nothing else changes.
   */
  lemma {:induction false} WireAllEffect(ns: seq<Node>, cs: seq<nat>, n: nat, ref: nat)
    requires n <= |cs| && InRange(cs, |ns|)
    ensures forall j :: 0 <= j < |ns| ==>
      WireAll(ns, cs, n, ref)[j] == if j in cs[..n] && j != ref then WithReference(ns[j], ref) else ns[j]
  {
    if n > 0 {
      WireAllEffect(ns, cs, n - 1, ref);
      assert cs[..n] == cs[..n - 1] + [cs[n - 1]];
    }
  }

  /**
   * Giving the indexed children their reference: it goes through exactly
   * when every index names a child; the children named before the first bad
   * index (all of them when there is none) other than `ref` refer to `ref`
   * afterwards, and nothing else changes.
   */
  lemma {:induction false} WireIndicesEffect(ns: seq<Node>, cs: seq<nat>, idx: seq<int>, n: nat, ref: nat)
    requires n <= |idx| && InRange(cs, |ns|)
    ensures var (r, ok) := WireIndices(ns, cs, idx, n, ref);
      && (ok <==> IndicesValid(cs, idx, n))
      && forall j :: 0 <= j < |ns| ==>
           r[j] == if j in Named(cs, idx, n) && j != ref then WithReference(ns[j], ref) else ns[j]
  {
    if n > 0 {
      WireIndicesEffect(ns, cs, idx, n - 1, ref);
    }
  }

  /** Once an index has thrown, the later ones change nothing. */
  lemma {:induction false} WireIndicesStops(ns: seq<Node>, cs: seq<nat>, idx: seq<int>, n: nat, m: nat, ref: nat)
    requires n <= m <= |idx| && InRange(cs, |ns|)
    requires !WireIndices(ns, cs, idx, n, ref).1
    ensures WireIndices(ns, cs, idx, m, ref) == WireIndices(ns, cs, idx, n, ref)
    decreases m
  {
    if m > n {
      WireIndicesStops(ns, cs, idx, n, m - 1, ref);
    }
  }

  /** Neither loop ever makes a drawable its own reference. */
  lemma NoSelfReference(ns: seq<Node>, cs: seq<nat>, idx: seq<int>, ref: nat, j: nat)
    requires InRange(cs, |ns|) && j < |ns|
    requires ns[j].reference != Some(j)
    ensures WireAll(ns, cs, |cs|, ref)[j].reference != Some(j)
    ensures WireIndices(ns, cs, idx, |idx|, ref).0[j].reference != Some(j)
  {
    WireAllEffect(ns, cs, |cs|, ref);
    WireIndicesEffect(ns, cs, idx, |idx|, ref);
  }

  /** `setChildReference(ref, ...indices)` of group `g`: the table afterwards, and whether the call returns. */
  function ChildReferences(ns: seq<Node>, g: nat, ref: nat, idx: seq<int>): (seq<Node>, bool)
    requires g < |ns| && ns[g].shape.Group? && InRange(ns[g].shape.children, |ns|)
  {
    var cs := ns[g].shape.children;
    var ns' := ns[g := WithChildReference(ns[g], ref)];
    if |idx| == 0 then (WireAll(ns', cs, |cs|, ref), true) else WireIndices(ns', cs, idx, |idx|, ref)
  }

  /** The frame a drawable reads of its reference: the reference's current and initial x, y, width and height. */
  function FrameOf(ref: Node): Frame
  {
    Frame(Current(ref, "x"), Current(ref, "y"), Current(ref, "width"), Current(ref, "height"),
          InitialNum(ref, "x"), InitialNum(ref, "y"), InitialNum(ref, "width"), InitialNum(ref, "height"))
  }

  /** `_referenceTransform` of drawable `k`: nothing without a reference. */
  function ReferenceOp(ns: seq<Node>, k: nat): SurfaceOp
    requires k < |ns| && RefsWithin(ns[k], |ns|)
  {
    if ns[k].reference.None? then NoOp else ReferenceTransform(FrameOf(ns[ns[k].reference.value]))
  }

  /**
   * A reference that reads its initial dimensions (for instance after its
   * `restoreState`), with a width and height that are numbers other than
   * zero, moves and scales nothing: every coordinate is drawn where it is.
   */
  lemma UnchangedReferenceIsIdentity(ns: seq<Node>, k: nat, x: real, y: real)
    requires k < |ns| && RefsWithin(ns[k], |ns|) && ns[k].reference.Some?
    requires var f := FrameOf(ns[ns[k].reference.value]);
      f.x == f.x0 && f.y == f.y0 && f.width == f.width0 && f.height == f.height0
      && f.x0.Fin? && f.y0.Fin? && f.width0.Fin? && f.height0.Fin? && f.width0.v != 0.0 && f.height0.v != 0.0
    ensures ApplyX(ReferenceOp(ns, k), Fin(x)) == Fin(x) && ApplyY(ReferenceOp(ns, k), Fin(y)) == Fin(y)
  {
    var f := FrameOf(ns[ns[k].reference.value]);
    assert f.width.v / f.width0.v == 1.0 && f.height.v / f.height0.v == 1.0;
  }

  // ------------------------------------------------------------ looking children up

  /** `find(id)`: the first of the children `cs` whose id equals `id` (a missing id equals a missing argument). */
  function FirstWithId(ns: seq<Node>, cs: seq<nat>, id: Option<string>): Option<nat>
    requires InRange(cs, |ns|)
  {
    if |cs| == 0 then None
    else if ns[cs[0]].id == id then Some(cs[0])
    else FirstWithId(ns, cs[1..], id)
  }

  /**
   * `find` returns a child with the id, and every child before it has
   * another id; it returns null exactly when no child has the id. The index
   * of the child found is returned.
   */
  lemma {:induction false} FindsFirst(ns: seq<Node>, cs: seq<nat>, id: Option<string>) returns (i: nat)
    requires InRange(cs, |ns|)
    ensures var r := FirstWithId(ns, cs, id);
      && (r.None? <==> forall t :: 0 <= t < |cs| ==> ns[cs[t]].id != id)
      && (r.Some? ==> i < |cs| && cs[i] == r.value && ns[r.value].id == id
                      && forall t :: 0 <= t < i ==> ns[cs[t]].id != id)
  {
    if |cs| == 0 {
      return 0;
    }
    if ns[cs[0]].id == id {
      return 0;
    }
    var i' := FindsFirst(ns, cs[1..], id);
    i := i' + 1;
    assert forall t :: 1 <= t < |cs| ==> cs[t] == cs[1..][t - 1];
  }

  /** `findAll(className)`: the children `cs` whose class equals `cls`, in order. */
  function WithClass(ns: seq<Node>, cs: seq<nat>, cls: Option<string>): seq<nat>
    requires InRange(cs, |ns|)
  {
    if |cs| == 0 then []
    else
      var last := cs[|cs| - 1];
      WithClass(ns, cs[..|cs| - 1], cls) + (if ns[last].cls == cls then [last] else [])
  }

  /**
   * `findAll` keeps every child with the class, as often as it is listed,
   * and no other.
   */
  lemma {:induction false} WithClassKeeps(ns: seq<Node>, cs: seq<nat>, cls: Option<string>, x: nat)
    requires InRange(cs, |ns|)
    ensures multiset(WithClass(ns, cs, cls))[x] == if x < |ns| && ns[x].cls == cls then multiset(cs)[x] else 0
  {
    if |cs| > 0 {
      var init, last := cs[..|cs| - 1], cs[|cs| - 1];
      var kept := if ns[last].cls == cls then [last] else [];
      WithClassKeeps(ns, init, cls, x);
      LastSplit(cs);
      assert multiset(cs) == multiset(init) + multiset{last};
      assert multiset(WithClass(ns, cs, cls)) == multiset(WithClass(ns, init, cls)) + multiset(kept);
    }
  }

  /**
   * `findAll` keeps the children's order: over the children `a` followed by
   * `b`, it returns the matches among `a` followed by those among `b`. With
   * `b == [k]` this is one more turn of its loop pushing `k` or not.
   */
  lemma {:induction false} WithClassAppend(ns: seq<Node>, a: seq<nat>, b: seq<nat>, cls: Option<string>)
    requires InRange(a, |ns|) && InRange(b, |ns|)
    ensures InRange(a + b, |ns|)
    ensures WithClass(ns, a + b, cls) == WithClass(ns, a, cls) + WithClass(ns, b, cls)
    decreases |b|
  {
    if |b| > 0 {
      var init, last := b[..|b| - 1], b[|b| - 1];
      assert (a + b)[..|a + b| - 1] == a + init;
      assert (a + b)[|a + b| - 1] == last;
      WithClassAppend(ns, a, init, cls);
    } else {
      assert a + b == a;
    }
  }

  /** The cascade over the names from the `i`-th on is one step and then the cascade over the rest. */
  lemma CascadeUnfolds(g: Node, c: Node, names: seq<string>, i: nat, force: bool)
    requires i < |names|
    ensures Cascade(g, c, names[i..], force) == Cascade(g, CascadeOne(g, c, names[i], force), names[i + 1..], force)
  {
    assert names[i..][1..] == names[i + 1..];
  }

  // ------------------------------------------------------------ constructing drawables

  /** The table after `new mapping[tag](elem)` for a shape element: the new drawable appended, with its index. */
  function ShapeAdded(read: NumberReader, ns: seq<Node>, e: Element): Result<(seq<Node>, nat), string>
  {
    match Built(read, e)
    case Err(m) => Err(m)
    case Ok(n) => Ok((ns + [n], |ns|))
  }

  /** The table after the four bound getters `initDimensions` calls, each over every child in order. */
  function Measured(ns: seq<Node>, cs: seq<nat>): (r: seq<Node>)
    requires InRange(cs, |ns|)
    ensures |r| == |ns|
  {
    MemoAll(MemoAll(MemoAll(MemoAll(ns, cs, |cs|, Left), cs, |cs|, Top), cs, |cs|, Right), cs, |cs|, Bottom)
  }

  /**
   * The table after `new Group(elem, ...children)`: the group appended, and
   * every child given it as reference; Err where the constructor throws.
   */
  function GroupAdded(read: NumberReader, ns: seq<Node>, e: Element, cs: seq<nat>): Result<(seq<Node>, nat), string>
    requires InRange(cs, |ns|)
  {
    match GroupBuilt(read, e, cs, GroupBox(Pick(ns, cs), e.transforms), |ns|)
    case Err(m) => Err(m)
    case Ok(g) => Ok((WireAll(Measured(ns, cs) + [g], cs, |cs|, |ns|), |ns|))
  }

  /** A drawable built from a shape element keeps the table well formed and every memo sound. */
  lemma ShapeAddedKeeps(read: NumberReader, ns: seq<Node>, e: Element, n: Node)
    requires WellFormed(ns) && Built(read, e) == Ok(n)
    ensures ShapeAdded(read, ns, e) == Ok((ns + [n], |ns|))
    ensures WellFormed(ns + [n])
    ensures AllMemosSound(ns) ==> AllMemosSound(ns + [n])
  {
    BuiltFromStores(read, e, n);
    BuiltMemoSound(read, e, n);
    ShapeIsNoGroup(read, e);
    FreshAppend(ns, n);
  }

  /** A drawable that is not a group, with nothing written and no reference, can join the table. */
  lemma FreshAppend(ns: seq<Node>, n: Node)
    requires WellFormed(ns) && !n.shape.Group? && n.overlay == map[] && n.reference == None
    ensures WellFormed(ns + [n])
    ensures AllMemosSound(ns) && MemoSound(n) ==> AllMemosSound(ns + [n])
  {
    AppendKeepsWellFormed(ns, n);
  }

  /**
   * The group's closing `setChildReference(this)` on the table it joined
   * leaves the table `GroupAdded` describes, and the group can join a
   * well-formed table.
   */
  lemma GroupAddedWires(read: NumberReader, ns: seq<Node>, e: Element, cs: seq<nat>, g: Node)
    requires InRange(cs, |ns|) && WellFormed(Measured(ns, cs))
    requires GroupBuilt(read, e, cs, GroupBox(Pick(ns, cs), e.transforms), |ns|) == Ok(g)
    ensures g.shape.Group? && g.shape.children == cs
    ensures WellFormed(Measured(ns, cs) + [g])
    ensures InRange(cs, |ns| + 1)
    ensures GroupAdded(read, ns, e, cs) == Ok((ChildReferences(Measured(ns, cs) + [g], |ns|, |ns|, []).0, |ns|))
  {
    GroupJoins(read, e, cs, GroupBox(Pick(ns, cs), e.transforms), Measured(ns, cs), g);
    JoinedGroupWires(Measured(ns, cs), cs, g);
  }

  /** A group that already names itself as its children's reference is left as it is by `setChildReference(this)`. */
  lemma JoinedGroupWires(ns: seq<Node>, cs: seq<nat>, g: Node)
    requires InRange(cs, |ns|) && g.shape == Group(cs, false, Some(|ns|))
    ensures InRange(cs, |ns| + 1)
    ensures ChildReferences(ns + [g], |ns|, |ns|, []).0 == WireAll(ns + [g], cs, |cs|, |ns|)
  {
    var m := ns + [g];
    assert m[|ns| := WithChildReference(m[|ns|], |ns|)] == m;
  }

  /** A group built over children of a well-formed table can join it. */
  lemma GroupJoins(read: NumberReader, e: Element, cs: seq<nat>, bx: Box, ns: seq<Node>, g: Node)
    requires InRange(cs, |ns|) && WellFormed(ns)
    requires GroupBuilt(read, e, cs, bx, |ns|) == Ok(g)
    ensures g.shape == Group(cs, false, Some(|ns|)) && g.reference == None
    ensures WellFormed(ns + [g])
    ensures InRange(cs, |ns| + 1)
  {
    GroupFromStores(read, e, cs, bx, |ns|, g);
    AppendKeepsWellFormed(ns, g);
  }

  /** Bound getters over the children change none of their bounds. */
  lemma MemoAllKeepsBounds(ns: seq<Node>, cs: seq<nat>, e: Edge, e': Edge)
    requires InRange(cs, |ns|)
    ensures BoundsOf(Pick(MemoAll(ns, cs, |cs|, e), cs), e') == BoundsOf(Pick(ns, cs), e')
  {
    MemoAllSteps(ns, cs, |cs|, e);
    BoundsAgree(ns, MemoAll(ns, cs, |cs|, e), cs, e');
  }

  /** `_handleStyles`: the inline style where there is one, then the presentation attributes. */
  method HandleStylesOf(read: NumberReader, st: Store, attrs: map<string, string>) returns (r: Result<Store, string>)
    ensures r == HandleStyles(read, st, attrs)
  {
    var cur := st;
    var style := Attribute(attrs, "style");
    if style.Some? && |style.value| > 0 {
      var parsed := ParseStyleAttr(read, st, style.value);
      if parsed.Err? {
        return Err(parsed.error);
      }
      cur := parsed.value;
    }
    var present := GetPresentStyle(read, cur, attrs);
    return Ok(present);
  }

  /** `new PathParser().parse(d)` */
  method ParsePath(read: NumberReader, d: string) returns (points: seq<Point>)
    ensures points == PathPoints(read, d)
  {
    var parser := new PathParsing.PathParser(read);
    points := parser.Parse(d);
  }

  /** The lookup `mapping[tag]` and the shape data a constructor reads first; a path is parsed here. */
  method MakeShape(read: NumberReader, e: Element) returns (r: Result<Shape, string>)
    ensures r == ShapeOf(read, e)
  {
    if e.tag == "rect" {
      r := Ok(Rect);
    } else if e.tag == "circle" {
      r := Ok(Circle);
    } else if e.tag == "ellipse" {
      r := Ok(Ellipse);
    } else if e.tag == "line" {
      r := Ok(Line);
    } else if e.tag == "polygon" {
      r := Ok(Polygon(e.points));
    } else if e.tag == "polyline" {
      r := Ok(Polyline(e.points));
    } else if e.tag == "path" {
      if "d" !in e.attrs {
        return Err("null has no length");
      }
      var points := ParsePath(read, e.attrs["d"]);
      r := Ok(Path(points));
    } else {
      r := Err("not a constructor");
    }
  }

  /** The rest of the constructor of variant `s`: own values, styles, accessors. */
  method Instantiate(read: NumberReader, s: Shape, e: Element) returns (r: Result<Node, string>)
    ensures r == Construct(read, s, e)
  {
    var styled := HandleStylesOf(read, OwnValues(s, e, Setup(e)), e.attrs);
    if styled.Err? {
      return Err(styled.error);
    }
    var st := styled.value;
    var names := st.properties + LateNames(s);
    var defined := AddAccessors(names);
    if defined.Err? {
      return Err(defined.error);
    }
    return Ok(Assemble(s, e, st.(properties := names)));
  }

  /** The loop of `initDimensions` over the group's transforms. */
  method TransformBox(bx: Box, ms: seq<Matrix>) returns (r: Box)
    ensures r == ThroughAll(bx, ms)
  {
    r := bx;
    var i := 0;
    while i < |ms|
      invariant 0 <= i <= |ms|
      invariant ThroughAll(r, ms[i..]) == ThroughAll(bx, ms)
    {
      assert ms[i..][1..] == ms[i + 1..];
      r := Transformed(ms[i], r);
      i := i + 1;
    }
  }

  /** The rest of the group's constructor once its box is known: store it, handle styles, add accessors. */
  method MakeGroup(read: NumberReader, e: Element, cs: seq<nat>, bx: Box, self: nat) returns (r: Result<Node, string>)
    ensures r == GroupBuilt(read, e, cs, bx, self)
  {
    var styled := HandleStylesOf(read, GroupStore(e, bx), e.attrs);
    if styled.Err? {
      return Err(styled.error);
    }
    var st := styled.value;
    var defined := AddAccessors(st.properties);
    if defined.Err? {
      return Err(defined.error);
    }
    return Ok(Node(Group(cs, false, Some(self)), st.initial, st.properties, map[], map[],
                   Attribute(e.attrs, "id"), Attribute(e.attrs, "class"), e.transforms, None));
  }

  class Scene {
    /** The drawables, by index. */
    var nodes: seq<Node>

    ghost predicate Valid()
      reads this
    {
      WellFormed(nodes)
    }

    /** Every memo a drawable holds is the bound of its points. */
    ghost predicate MemosSound()
      reads this
    {
      AllMemosSound(nodes)
    }

    constructor ()
      ensures nodes == [] && Valid() && MemosSound()
    {
      nodes := [];
    }

    /**
     * `new mapping[tag](elem)` for a shape element: the drawable built is
     * appended and its index returned; where the lookup or the constructor
     * throws, the table is unchanged.
     */
    method AddShape(read: NumberReader, e: Element) returns (r: Result<nat, string>)
      requires Valid()
      modifies this
      ensures match ShapeAdded(read, old(nodes), e)
              case Ok((ns, k)) => r == Ok(k) && nodes == ns
              case Err(m) => r == Err(m) && nodes == old(nodes)
      ensures Valid()
      ensures old(MemosSound()) ==> MemosSound()
    {
      var s := MakeShape(read, e);
      if s.Err? {
        return Err(s.error);
      }
      var made := Instantiate(read, s.value, e);
      assert Built(read, e) == made;
      if made.Err? {
        return Err(made.error);
      }
      ShapeAddedKeeps(read, nodes, e, made.value);
      r := Ok(|nodes|);
      nodes := nodes + [made.value];
    }

    /**
     * The four `findPoint` calls of `initDimensions`: the least left and top
     * and the greatest right and bottom the children's getters return, each
     * getter memoising as it goes.
     */
    method MeasureChildren(cs: seq<nat>) returns (bx: Box)
      requires Valid() && InRange(cs, |nodes|)
      modifies this
      ensures bx == Box(Extreme(BoundsOf(Pick(old(nodes), cs), Left), Least), Extreme(BoundsOf(Pick(old(nodes), cs), Top), Least),
                        Extreme(BoundsOf(Pick(old(nodes), cs), Right), Greatest), Extreme(BoundsOf(Pick(old(nodes), cs), Bottom), Greatest))
      ensures nodes == Measured(old(nodes), cs)
      ensures Valid()
    {
      ghost var ns0 := nodes;
      var left := FindPoint(cs, Left);
      ghost var ns1 := nodes;
      var top := FindPoint(cs, Top);
      ghost var ns2 := nodes;
      var right := FindPoint(cs, Right);
      ghost var ns3 := nodes;
      var bottom := FindPoint(cs, Bottom);
      MemoAllKeepsBounds(ns0, cs, Left, Top);
      MemoAllKeepsBounds(ns0, cs, Left, Right);
      MemoAllKeepsBounds(ns1, cs, Top, Right);
      MemoAllKeepsBounds(ns0, cs, Left, Bottom);
      MemoAllKeepsBounds(ns1, cs, Top, Bottom);
      MemoAllKeepsBounds(ns2, cs, Right, Bottom);
      bx := Box(left, top, right, bottom);
    }

    /**
     * `new Group(elem, ...children)`: the children are measured, the group is
     * appended, and its final `setChildReference(this)` gives every child the
     * group as reference. Where the constructor throws, the memos the
     * measuring wrote stay.
     */
    method AddGroup(read: NumberReader, e: Element, cs: seq<nat>) returns (r: Result<nat, string>)
      requires Valid() && InRange(cs, |nodes|)
      modifies this
      ensures match GroupAdded(read, old(nodes), e, cs)
              case Ok((ns, k)) => r == Ok(k) && nodes == ns
              case Err(m) => r == Err(m) && nodes == Measured(old(nodes), cs)
      ensures Valid()
    {
      var self := |nodes|;
      var bx := MeasureChildren(cs);
      bx := TransformBox(bx, e.transforms);
      var made := MakeGroup(read, e, cs, bx, self);
      if made.Err? {
        return Err(made.error);
      }
      var g := made.value;
      GroupAddedWires(read, old(nodes), e, cs, g);
      nodes := nodes + [g];
      var _ := SetChildReference(self, self, []);
      r := Ok(self);
    }

    /** `drawable[p] = v` on drawable `k`: through its accessor, or as an own data property. */
    method Set(k: nat, p: string, v: Value)
      requires Valid() && k < |nodes|
      modifies this
      ensures nodes == old(nodes)[k := Put(old(nodes)[k], p, v)]
      ensures Valid()
      ensures old(MemosSound()) && !IsEdgeName(p) ==> MemosSound()
    {
      var m := Put(nodes[k], p, v);
      PutThenGet(nodes[k], p, v, p);
      if MemoSound(nodes[k]) && !IsEdgeName(p) {
        PutKeepsMemo(nodes[k], p, v);
      }
      ReplaceKeepsWellFormed(nodes, k, m);
      ReplaceKeepsMemos(nodes, k, m);
      nodes := nodes[k := m];
    }

    /** `restoreState` of drawable `k` itself: each accessor, in order, is set to undefined. */
    method RestoreOwn(k: nat)
      requires Valid() && k < |nodes|
      modifies this
      ensures nodes == old(nodes)[k := Restored(old(nodes)[k])]
      ensures Valid() && (old(MemosSound()) ==> MemosSound())
    {
      var n := nodes[k];
      var i := 0;
      while i < |n.properties|
        invariant 0 <= i <= |n.properties|
        invariant nodes == old(nodes)[k := n.(overlay := Cleared(n.overlay, n.properties[..i]))]
      {
        assert n.properties[..i + 1][..i] == n.properties[..i];
        nodes := nodes[k := nodes[k].(overlay := nodes[k].overlay - {n.properties[i]})];
        i := i + 1;
      }
      assert n.properties[..i] == n.properties;
      assert OverlayOnAccessors(n);
      assert Cleared(n.overlay, n.properties).Keys == {};
      ReplaceKeepsWellFormed(old(nodes), k, Restored(n));
      if MemoSound(n) {
        RestoreKeepsMemo(n);
      }
      ReplaceKeepsMemos(old(nodes), k, Restored(n));
    }

    /**
     * `restoreState` of drawable `k`: its own accessors and, for a group,
     * those of every descendant read their initial values again; nothing
     * else changes.
     */
    method RestoreState(k: nat)
      requires Valid() && k < |nodes|
      modifies this
      ensures nodes == RestoredWithin(old(nodes), Reach(Structure(old(nodes)), k))
      ensures Valid() && (old(MemosSound()) ==> MemosSound())
      decreases k, 1
    {
      ghost var g := Structure(old(nodes));
      RestoreOwn(k);
      RestoredOne(old(nodes), k);
      var cs := Kids(nodes[k]);
      assert cs == g[k];
      var i := 0;
      while i < |cs|
        invariant 0 <= i <= |cs|
        invariant nodes == RestoredWithin(old(nodes), {k} + ReachAll(g, cs[..i], k))
        invariant Valid() && (old(MemosSound()) ==> MemosSound())
      {
        RestoreChild(k, cs, i, old(nodes));
        i := i + 1;
      }
      ReachUnfolds(g, k);
    }

    /** One turn of the loop in `restoreState`: child `cs[i]` and its descendants are restored as well. */
    method RestoreChild(k: nat, cs: seq<nat>, i: nat, ghost ns: seq<Node>)
      requires Valid() && k < |ns| && cs == Structure(ns)[k] && i < |cs|
      requires nodes == RestoredWithin(ns, {k} + ReachAll(Structure(ns), cs[..i], k))
      modifies this
      ensures nodes == RestoredWithin(ns, {k} + ReachAll(Structure(ns), cs[..i + 1], k))
      ensures Valid() && (old(MemosSound()) ==> MemosSound())
      decreases k, 0
    {
      ghost var g := Structure(ns);
      ghost var done := {k} + ReachAll(g, cs[..i], k);
      RestoredWithinKeepsShapes(ns, done);
      SameKidsStructure(ns, nodes);
      RestoreState(cs[i]);
      RestoredWithinTwice(ns, done, Reach(g, cs[i]));
      ReachStep(g, k, i);
    }

    /**
     * `getLeft()`, `getTop()`, `getRight()` or `getBottom()` of drawable `k`:
     * a Path, Polygon or Polyline returns its memo when it has one, and
     * otherwise computes the bound of its points and records it.
     */
    method GetEdge(k: nat, e: Edge) returns (r: Num)
      requires Valid() && k < |nodes|
      modifies this
      ensures r == Bound(old(nodes)[k], e)
      ensures nodes == old(nodes)[k := AfterBound(old(nodes)[k], e)]
      ensures Valid() && (old(MemosSound()) ==> MemosSound())
    {
      var n := nodes[k];
      ghost var m := AfterBound(n, e);
      AfterBoundKeepsBounds(n, e, e);
      if MemoSound(n) {
        AfterBoundKeepsMemo(n, e);
      }
      ReplaceKeepsWellFormed(nodes, k, m);
      r := Measure(n, e);
      if Memoized(n.shape) && !HasOwn(n, EdgeName(e)) {
        nodes := nodes[k := Put(n, EdgeName(e), Number(r))];
      }
    }

    /**
     * `findPoint(child => child.getLeft(), "<")` and its three siblings over
     * the children `cs`: the least (greatest) bound seen, starting from
     * Number.MAX_VALUE (Number.MIN_VALUE); every child's getter has run.
     */
    method FindPoint(cs: seq<nat>, e: Edge) returns (r: Num)
      requires Valid() && InRange(cs, |nodes|)
      modifies this
      ensures r == Extreme(BoundsOf(Pick(old(nodes), cs), e), DirectionOf(e))
      ensures nodes == MemoAll(old(nodes), cs, |cs|, e)
      ensures Valid()
    {
      ghost var kids := Pick(nodes, cs);
      r := Seed(DirectionOf(e));
      var i := 0;
      while i < |cs|
        invariant 0 <= i <= |cs|
        invariant nodes == MemoAll(old(nodes), cs, i, e)
        invariant r == Extreme(BoundsOf(kids[..i], e), DirectionOf(e))
        invariant Valid()
      {
        r := FindStep(cs, e, i, r, old(nodes));
        i := i + 1;
      }
      PrefixWhole(kids);
    }

    /** One child of `findPoint`: run its getter and keep the better of the two. */
    method FindStep(cs: seq<nat>, e: Edge, i: nat, r: Num, ghost ns: seq<Node>) returns (r': Num)
      requires Valid() && InRange(cs, |ns|) && i < |cs|
      requires nodes == MemoAll(ns, cs, i, e)
      requires r == Extreme(BoundsOf(Pick(ns, cs)[..i], e), DirectionOf(e))
      modifies this
      ensures nodes == MemoAll(ns, cs, i + 1, e)
      ensures r' == Extreme(BoundsOf(Pick(ns, cs)[..i + 1], e), DirectionOf(e))
      ensures Valid()
    {
      var d := DirectionOf(e);
      MemoAllKeepsBound(ns, cs, i, e, cs[i]);
      BoundsStep(ns, cs, e, i);
      ExtremeSnoc(BoundsOf(Pick(ns, cs)[..i], e), Bound(ns[cs[i]], e), d);
      var m := GetEdge(cs[i], e);
      r' := if Beats(d, m, r) then m else r;
    }

    /** `setReference(ref)` of drawable `k`. */
    method SetReference(k: nat, ref: Option<nat>)
      requires Valid() && k < |nodes| && (ref.Some? ==> ref.value < |nodes|)
      modifies this
      ensures nodes == old(nodes)[k := old(nodes)[k].(reference := ref)]
      ensures Valid()
    {
      ReplaceKeepsWellFormed(nodes, k, nodes[k].(reference := ref));
      nodes := nodes[k := nodes[k].(reference := ref)];
    }

    /**
     * `setChildReference(ref, ...indices)` of group `g`: the group records
     * `ref`; without indices every child other than `ref` gets it as its
     * reference, otherwise each indexed child does, and an index that names
     * no child throws after the earlier ones took effect.
     */
    method SetChildReference(g: nat, ref: nat, indices: seq<int>) returns (r: Result<(), string>)
      requires Valid() && g < |nodes| && nodes[g].shape.Group? && ref < |nodes|
      modifies this
      ensures InRange(old(nodes)[g].shape.children, |old(nodes)|)
      ensures var (ns, ok) := ChildReferences(old(nodes), g, ref, indices); nodes == ns && (r.Ok? <==> ok)
      ensures Valid()
    {
      var cs := nodes[g].shape.children;
      assert cs == Structure(nodes)[g];
      SetChildRef(g, ref);
      if |indices| == 0 {
        WireChildren(cs, ref);
        return Ok(());
      }
      var ok := WireNamed(cs, ref, indices);
      if !ok {
        return Err("cannot read property 'setReference' of undefined");
      }
      return Ok(());
    }

    /** The loop of `setChildReference` without indices. */
    method WireChildren(cs: seq<nat>, ref: nat)
      requires Valid() && InRange(cs, |nodes|) && ref < |nodes|
      modifies this
      ensures nodes == WireAll(old(nodes), cs, |cs|, ref)
      ensures Valid()
    {
      var i := 0;
      while i < |cs|
        invariant 0 <= i <= |cs| && |nodes| == |old(nodes)|
        invariant nodes == WireAll(old(nodes), cs, i, ref)
        invariant Valid()
      {
        WireStep(cs, ref, i, old(nodes));
        i := i + 1;
      }
    }

    /** One child of `setChildReference` without indices: it refers to `ref` unless it is `ref`. */
    method WireStep(cs: seq<nat>, ref: nat, i: nat, ghost ns: seq<Node>)
      requires Valid() && InRange(cs, |ns|) && ref < |ns| && i < |cs|
      requires nodes == WireAll(ns, cs, i, ref)
      modifies this
      ensures nodes == WireAll(ns, cs, i + 1, ref)
      ensures Valid()
    {
      var k := cs[i];
      if k != ref {
        SetReference(k, Some(ref));
      }
    }

    /** The loop of `setChildReference` over indices: `ok` is false where an index names no child. */
    method WireNamed(cs: seq<nat>, ref: nat, indices: seq<int>) returns (ok: bool)
      requires Valid() && InRange(cs, |nodes|) && ref < |nodes|
      modifies this
      ensures (nodes, ok) == WireIndices(old(nodes), cs, indices, |indices|, ref)
      ensures Valid()
    {
      var i := 0;
      while i < |indices|
        invariant 0 <= i <= |indices| && |nodes| == |old(nodes)|
        invariant WireIndices(old(nodes), cs, indices, i, ref) == (nodes, true)
        invariant Valid()
      {
        var k := indices[i];
        if !(0 <= k < |cs|) {
          WireIndicesStops(old(nodes), cs, indices, i + 1, |indices|, ref);
          return false;
        }
        if cs[k] != ref {
          SetReference(cs[k], Some(ref));
        }
        i := i + 1;
      }
      return true;
    }

    /** `this.childReference = ref` of group `g`. */
    method SetChildRef(g: nat, ref: nat)
      requires Valid() && g < |nodes| && nodes[g].shape.Group? && ref < |nodes|
      modifies this
      ensures nodes == old(nodes)[g := WithChildReference(old(nodes)[g], ref)]
      ensures Valid()
    {
      ReplaceKeepsWellFormed(nodes, g, WithChildReference(nodes[g], ref));
      nodes := nodes[g := WithChildReference(nodes[g], ref)];
    }

    /**
     * `_propagateProperties(child)` of group `g`: every style name the group
     * has an accessor with a truthy value for is written into the child where
     * the child has no value of its own, or everywhere when the group forces
     * the cascade.
     */
    method PropagateProperties(g: nat, c: nat)
      requires Valid() && g < |nodes| && nodes[g].shape.Group? && c in nodes[g].shape.children
      modifies this
      ensures nodes == old(nodes)[c := Cascade(old(nodes)[g], old(nodes)[c], StyleNames, old(nodes)[g].shape.forceCascade)]
      ensures Valid()
    {
      assert nodes[g].shape.children == Structure(nodes)[g];
      CascadeFrom(g, c, StyleNames);
    }

    /** The loop of `_propagateProperties` over the given names. */
    method CascadeFrom(g: nat, c: nat, names: seq<string>)
      requires Valid() && c < g < |nodes| && nodes[g].shape.Group?
      modifies this
      ensures nodes == old(nodes)[c := Cascade(old(nodes)[g], old(nodes)[c], names, old(nodes)[g].shape.forceCascade)]
      ensures Valid()
    {
      var group := nodes[g];
      var i := 0;
      while i < |names|
        invariant 0 <= i <= |names| && |nodes| == |old(nodes)|
        invariant nodes == old(nodes)[c := nodes[c]]
        invariant Cascade(group, nodes[c], names[i..], group.shape.forceCascade)
               == Cascade(group, old(nodes)[c], names, group.shape.forceCascade)
        invariant Valid()
      {
        CascadeUnfolds(group, nodes[c], names, i, group.shape.forceCascade);
        var p := names[i];
        if p in group.properties && Get(group, p).Some? && IsTruthy(Get(group, p).value) {
          var child := nodes[c];
          var propertyless := !HasOwn(child, p) || Get(child, p).None?;
          if propertyless || group.shape.forceCascade {
            Set(c, p, Get(group, p).value);
          }
        }
        i := i + 1;
      }
      assert names[i..] == [];
    }

    /** `find(id)` of group `g`. */
    method Find(g: nat, id: Option<string>) returns (r: Option<nat>)
      requires Valid() && g < |nodes| && nodes[g].shape.Group?
      ensures InRange(nodes[g].shape.children, |nodes|)
      ensures r == FirstWithId(nodes, nodes[g].shape.children, id)
    {
      var cs := nodes[g].shape.children;
      assert cs == Structure(nodes)[g];
      var i := 0;
      while i < |cs|
        invariant 0 <= i <= |cs|
        invariant FirstWithId(nodes, cs[i..], id) == FirstWithId(nodes, cs, id)
      {
        assert cs[i..][1..] == cs[i + 1..];
        if nodes[cs[i]].id == id {
          return Some(cs[i]);
        }
        i := i + 1;
      }
      return None;
    }

    /** `findAll(className)` of group `g`. */
    method FindAll(g: nat, cls: Option<string>) returns (found: seq<nat>)
      requires Valid() && g < |nodes| && nodes[g].shape.Group?
      ensures InRange(nodes[g].shape.children, |nodes|)
      ensures found == WithClass(nodes, nodes[g].shape.children, cls)
    {
      var cs := nodes[g].shape.children;
      assert cs == Structure(nodes)[g];
      found := [];
      var i := 0;
      while i < |cs|
        invariant 0 <= i <= |cs|
        invariant found == WithClass(nodes, cs[..i], cls)
      {
        assert cs[..i + 1][..i] == cs[..i];
        if nodes[cs[i]].cls == cls {
          found := found + [cs[i]];
        }
        i := i + 1;
      }
      assert cs[..i] == cs;
    }
  }
}