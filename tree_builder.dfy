/**
 * `traverse` of JSVG/svg-parser.js: the element tree under the root `svg` is
 * rebuilt as drawables without recursion. A work queue holds elements and,
 * after the children of each `g`, a divider recording how many children the
 * group had; a stack holds the drawables built so far. A divider wraps the
 * last that many drawables of the stack into a new Group.
 *
 * The queue machine `Run` is written once, over any state and any kind of
 * result, with the two constructors as parameters; `Traverse` runs it on a
 * `Scene`, where a drawable is an index of the scene's table.
 */
module TreeBuilder {
  import opened JsValues
  import opened Nodes
  import opened SceneGraph

  /** An element of the document: its tag and attributes, and its element children. */
  datatype Svg = Svg(elem: Element, children: seq<Svg>)

  /** An entry of the work queue: an element, or the divider `{divider, childCount, groupSvg}`. */
  datatype Entry = Visit(svg: Svg) | Divider(childCount: nat, group: Element)

  /**
   * The two ways a drawable is made, over a state `S` and results `T`:
   * `new mapping[tag](elem)` and `new Group(elem, ...children)`, each Err
   * where it throws.
   */
  datatype Builders<!S, !T> = Builders(
    leaf: (S, Element) -> Result<(S, T), string>,
    group: (S, Element, seq<T>) -> Result<(S, T), string>)

  /** What `traverse` returns: the one drawable when exactly one was left, otherwise all of them. */
  datatype Outcome<T> = Single(item: T) | Several(items: seq<T>)

  predicate IsGroup(x: Svg)
  {
    x.elem.tag == "g"
  }

  function Visits(xs: seq<Svg>): (r: seq<Entry>)
    ensures |r| == |xs|
    ensures forall i :: 0 <= i < |xs| ==> r[i] == Visit(xs[i])
  {
    seq(|xs|, i requires 0 <= i < |xs| => Visit(xs[i]))
  }

  // ------------------------------------------------------------ counting

  /**
   * The passes of the loop an element costs: one for the element, and for a
   * `g` one more for its divider and those of its children. The children of
   * any other element are never visited.
   */
  function Tally(x: Svg): (r: nat)
    ensures r >= 1
    decreases x
  {
    if IsGroup(x) then 2 + TallyAll(x.children) else 1
  }

  function TallyAll(xs: seq<Svg>): nat
    decreases xs
  {
    if |xs| == 0 then 0 else Tally(xs[0]) + TallyAll(xs[1..])
  }

  /** The elements a traversal visits. */
  function Elements(x: Svg): nat
    decreases x
  {
    if IsGroup(x) then 1 + ElementsAll(x.children) else 1
  }

  function ElementsAll(xs: seq<Svg>): nat
    decreases xs
  {
    if |xs| == 0 then 0 else Elements(xs[0]) + ElementsAll(xs[1..])
  }

  /** The groups among them. */
  function Groups(x: Svg): nat
    decreases x
  {
    if IsGroup(x) then 1 + GroupsAll(x.children) else 0
  }

  function GroupsAll(xs: seq<Svg>): nat
    decreases xs
  {
    if |xs| == 0 then 0 else Groups(xs[0]) + GroupsAll(xs[1..])
  }

  /** The passes of the loop a queue still costs when no constructor throws. */
  function Count(q: seq<Entry>): nat
  {
    if |q| == 0 then 0 else (if q[0].Visit? then Tally(q[0].svg) else 1) + Count(q[1..])
  }

  lemma {:induction false} CountAppend(a: seq<Entry>, b: seq<Entry>)
    ensures Count(a + b) == Count(a) + Count(b)
  {
    if |a| == 0 {
      assert a + b == b;
    } else {
      assert (a + b)[1..] == a[1..] + b;
      CountAppend(a[1..], b);
    }
  }

  lemma {:induction false} CountVisits(xs: seq<Svg>)
    ensures Count(Visits(xs)) == TallyAll(xs)
  {
    if |xs| > 0 {
      assert Visits(xs)[1..] == Visits(xs[1..]);
      CountVisits(xs[1..]);
    }
  }

  /** Each pass of the loop takes exactly one pass off what the queue costs. */
  lemma PassCount(q: seq<Entry>)
    requires |q| > 0
    ensures q[0].Visit? && IsGroup(q[0].svg) ==>
              Count(Visits(q[0].svg.children) + [Divider(|q[0].svg.children|, q[0].svg.elem)] + q[1..]) == Count(q) - 1
    ensures !(q[0].Visit? && IsGroup(q[0].svg)) ==> Count(q[1..]) < Count(q)
  {
    if q[0].Visit? && IsGroup(q[0].svg) {
      var x := q[0].svg;
      CountAppend(Visits(x.children) + [Divider(|x.children|, x.elem)], q[1..]);
      CountAppend(Visits(x.children), [Divider(|x.children|, x.elem)]);
      CountVisits(x.children);
      assert Count([Divider(|x.children|, x.elem)]) == 1;
    }
  }

  /** Every element visited and every group's divider is one pass. */
  lemma {:induction false} TallyIsElementsAndGroups(xs: seq<Svg>)
    ensures TallyAll(xs) == ElementsAll(xs) + GroupsAll(xs)
    decreases xs
  {
    if |xs| > 0 {
      TallyIsElementsAndGroupsOne(xs[0]);
      TallyIsElementsAndGroups(xs[1..]);
    }
  }

  lemma {:induction false} TallyIsElementsAndGroupsOne(x: Svg)
    ensures Tally(x) == Elements(x) + Groups(x)
    decreases x
  {
    if IsGroup(x) {
      TallyIsElementsAndGroups(x.children);
    }
  }

  // ------------------------------------------------------------ the loop

  /**
   * The loop of `traverse` from the given queue and stack on: the final state
   * and stack, or the first constructor's throw.
   */
  function Run<S, T>(b: Builders<S, T>, q: seq<Entry>, s: S, stack: seq<T>): Result<(S, seq<T>), string>
    decreases Count(q)
  {
    if |q| == 0 then Ok((s, stack))
    else if q[0].Divider? then
      var made := b.group(s, q[0].group, Slice(stack, -(q[0].childCount as int), |stack|));
      if made.Err? then Err(made.error)
      else
        PassCount(q);
        Run(b, q[1..], made.value.0, Slice(stack, 0, |stack| - q[0].childCount) + [made.value.1])
    else if IsGroup(q[0].svg) then
      var x := q[0].svg;
      PassCount(q);
      Run(b, Visits(x.children) + [Divider(|x.children|, x.elem)] + q[1..], s, stack)
    else
      var made := b.leaf(s, q[0].svg.elem);
      if made.Err? then Err(made.error)
      else
        PassCount(q);
        Run(b, q[1..], made.value.0, stack + [made.value.1])
  }

  function Returned<T>(stack: seq<T>): (r: Outcome<T>)
  {
    if |stack| == 1 then Single(stack[0]) else Several(stack)
  }

  /** `traverse(svg)`: the loop over the root's children, then the single drawable or the array. */
  function Traversal<S, T>(b: Builders<S, T>, root: Svg, s: S): Result<(S, Outcome<T>), string>
  {
    var r := Run(b, Visits(root.children), s, []);
    if r.Err? then Err(r.error) else Ok((r.value.0, Returned(r.value.1)))
  }

  // ------------------------------------------------------------ recursive descent

  /** The drawable plain recursive descent builds for an element: a group is built from its children's drawables. */
  function BuildOne<S, T>(b: Builders<S, T>, s: S, x: Svg): Result<(S, T), string>
    decreases x
  {
    if IsGroup(x) then
      var r := BuildAll(b, s, x.children);
      if r.Err? then Err(r.error) else b.group(r.value.0, x.elem, r.value.1)
    else b.leaf(s, x.elem)
  }

  /** The drawables of a list of elements, one each, in document order. */
  function BuildAll<S, T>(b: Builders<S, T>, s: S, xs: seq<Svg>): (r: Result<(S, seq<T>), string>)
    ensures r.Ok? ==> |r.value.1| == |xs|
    decreases xs
  {
    if |xs| == 0 then Ok((s, []))
    else
      var first := BuildOne(b, s, xs[0]);
      if first.Err? then Err(first.error)
      else
        var rest := BuildAll(b, first.value.0, xs[1..]);
        if rest.Err? then Err(rest.error) else Ok((rest.value.0, [first.value.1] + rest.value.1))
  }

  /** No `g` reached by the traversal is empty. */
  predicate NoEmptyGroup(x: Svg)
    decreases x
  {
    IsGroup(x) ==> |x.children| > 0 && forall i :: 0 <= i < |x.children| ==> NoEmptyGroup(x.children[i])
  }

  // ------------------------------------------------------------ properties of the loop

  /**
   * A divider of a group with n > 0 children, met with at least n drawables
   * on the stack, wraps exactly the last n into one group and puts it in
   * their place.
   */
  lemma DividerPops<S, T>(b: Builders<S, T>, n: nat, e: Element, q: seq<Entry>, s: S, stack: seq<T>)
    requires 0 < n <= |stack|
    ensures Run(b, [Divider(n, e)] + q, s, stack) ==
              var r := b.group(s, e, stack[|stack| - n..]);
              if r.Err? then Err(r.error) else Run(b, q, r.value.0, stack[..|stack| - n] + [r.value.1])
  {
    RunDivider(b, [Divider(n, e)] + q, s, stack, n, e);
    assert ([Divider(n, e)] + q)[1..] == q;
    assert Slice(stack, -(n as int), |stack|) == stack[|stack| - n..];
    assert Slice(stack, 0, |stack| - n) == stack[..|stack| - n];
  }

  /**
   * The empty-group quirk: the divider of a `g` without children has count 0,
   * `slice(-0)` is the whole stack and `slice(0, length - 0)` removes nothing,
   * so the group is built from every drawable made so far, and those stay
   * on the stack as well.
   */
  lemma EmptyGroupWrapsStack<S, T>(b: Builders<S, T>, x: Svg, q: seq<Entry>, s: S, stack: seq<T>)
    requires IsGroup(x) && |x.children| == 0
    ensures Run(b, [Visit(x)] + q, s, stack) ==
              var r := b.group(s, x.elem, stack);
              if r.Err? then Err(r.error) else Run(b, q, r.value.0, stack + [r.value.1])
  {
    assert ([Visit(x)] + q)[1..] == q;
    assert Visits(x.children) + [Divider(0, x.elem)] + q == [Divider(0, x.elem)] + q;
    assert ([Divider(0, x.elem)] + q)[1..] == q;
    assert Slice(stack, -0, |stack|) == stack;
    assert Slice(stack, 0, |stack| - 0) == stack;
  }

  /**
   * With no empty group, visiting an element leaves exactly one more drawable
   * on the stack: the one recursive descent builds for it.
   */
  lemma {:induction false} VisitIsDescent<S, T>(b: Builders<S, T>, x: Svg, q: seq<Entry>, s: S, stack: seq<T>)
    requires NoEmptyGroup(x)
    ensures Run(b, [Visit(x)] + q, s, stack) ==
              var r := BuildOne(b, s, x);
              if r.Err? then Err(r.error) else Run(b, q, r.value.0, stack + [r.value.1])
    decreases x, 1
  {
    assert ([Visit(x)] + q)[1..] == q;
    if IsGroup(x) {
      var cs := x.children;
      var div := [Divider(|cs|, x.elem)];
      assert Visits(cs) + div + q == Visits(cs) + (div + q);
      VisitsAreDescent(b, cs, div + q, s, stack);
      var r := BuildAll(b, s, cs);
      if r.Ok? {
        var ts := r.value.1;
        DividerPops(b, |cs|, x.elem, q, r.value.0, stack + ts);
        assert (stack + ts)[|stack + ts| - |cs|..] == ts;
        assert (stack + ts)[..|stack + ts| - |cs|] == stack;
      }
    }
  }

  /**
   * With no empty group, visiting a list of elements pushes the drawables
   * recursive descent builds for them, in document order.
   */
  lemma {:induction false} VisitsAreDescent<S, T>(b: Builders<S, T>, xs: seq<Svg>, q: seq<Entry>, s: S, stack: seq<T>)
    requires forall i :: 0 <= i < |xs| ==> NoEmptyGroup(xs[i])
    ensures Run(b, Visits(xs) + q, s, stack) ==
              var r := BuildAll(b, s, xs);
              if r.Err? then Err(r.error) else Run(b, q, r.value.0, stack + r.value.1)
    decreases xs, 0
  {
    if |xs| == 0 {
      assert Visits(xs) + q == q;
      assert stack + [] == stack;
    } else {
      var rest := Visits(xs[1..]) + q;
      assert Visits(xs) + q == [Visit(xs[0])] + rest;
      VisitIsDescent(b, xs[0], rest, s, stack);
      var first := BuildOne(b, s, xs[0]);
      if first.Ok? {
        var t := first.value.1;
        VisitsAreDescent(b, xs[1..], q, first.value.0, stack + [t]);
        var others := BuildAll(b, first.value.0, xs[1..]);
        if others.Ok? {
          assert stack + [t] + others.value.1 == stack + ([t] + others.value.1);
        }
      }
    }
  }

  /**
   * The loop builds the same drawables as plain recursive descent over the
   * root's children, provided no `g` is empty.
   */
  lemma TraversalIsDescent<S, T>(b: Builders<S, T>, root: Svg, s: S)
    requires forall i :: 0 <= i < |root.children| ==> NoEmptyGroup(root.children[i])
    ensures Traversal(b, root, s) ==
              var r := BuildAll(b, s, root.children);
              if r.Err? then Err(r.error) else Ok((r.value.0, Returned(r.value.1)))
  {
    VisitsAreDescent(b, root.children, [], s, []);
    assert Visits(root.children) + [] == Visits(root.children);
    var r := BuildAll(b, s, root.children);
    if r.Ok? {
      assert [] + r.value.1 == r.value.1;
    }
  }

  /** A constructor that throws ends the traversal with its error. */
  lemma LeafThrowAborts<S, T>(b: Builders<S, T>, x: Svg, q: seq<Entry>, s: S, stack: seq<T>)
    requires !IsGroup(x) && b.leaf(s, x.elem).Err?
    ensures Run(b, [Visit(x)] + q, s, stack) == Err(b.leaf(s, x.elem).error)
  {
    assert ([Visit(x)] + q)[0] == Visit(x);
  }

  /** `traverse` returns a lone drawable itself, and otherwise the array, empty or not. */
  lemma ReturnedShape<T>(stack: seq<T>)
    ensures Returned(stack).Single? <==> |stack| == 1
    ensures Returned(stack).Single? ==> Returned(stack).item == stack[0]
    ensures Returned(stack).Several? ==> Returned(stack).items == stack
  {
  }

  // ------------------------------------------------------------ the empty-group quirk, concretely

  /** What a traversal builds, as nesting only: each drawable's tag and what it wraps. */
  datatype Nesting = Nest(tag: string, inner: seq<Nesting>)

  function NestingBuilders(): Builders<nat, Nesting>
  {
    Builders((s: nat, e: Element) => Ok((s, Nest(e.tag, []))),
             (s: nat, e: Element, ts: seq<Nesting>) => Ok((s, Nest(e.tag, ts))))
  }

  /**
   * A `rect` followed by an empty `g`: the traversal returns the rect and a
   * group wrapping that same rect, where recursive descent gives the rect
   * and an empty group.
   */
  lemma EmptyGroupWrapsEarlierSibling(root: Svg, rect: Element, g: Element)
    requires rect.tag == "rect" && g.tag == "g"
    requires root.children == [Svg(rect, []), Svg(g, [])]
    ensures Traversal(NestingBuilders(), root, 0) == Ok((0, Several([Nest("rect", []), Nest("g", [Nest("rect", [])])])))
    ensures BuildAll(NestingBuilders(), 0, root.children) == Ok((0, [Nest("rect", []), Nest("g", [])]))
  {
    var b := NestingBuilders();
    var r := Svg(rect, []);
    var x := Svg(g, []);
    var leaf := Nest("rect", []);
    assert b.leaf(0, rect) == Ok((0, leaf));
    assert BuildOne(b, 0, r) == Ok((0, leaf));
    assert Visits(root.children) == [Visit(r)] + [Visit(x)];
    VisitIsDescent(b, r, [Visit(x)], 0, []);
    assert [] + [leaf] == [leaf] && [Visit(x)] + [] == [Visit(x)];
    EmptyGroupWrapsStack(b, x, [], 0, [leaf]);
    assert b.group(0, g, [leaf]) == Ok((0, Nest("g", [leaf])));
    var both := [leaf] + [Nest("g", [leaf])];
    assert both == [leaf, Nest("g", [leaf])];
    assert Run(b, [], 0, both) == Ok((0, both));
    assert BuildAll(b, 0, []) == Ok((0, []));
    assert BuildOne(b, 0, x) == Ok((0, Nest("g", [])));
    assert [x][1..] == [];
    assert [Nest("g", [])] + [] == [Nest("g", [])];
    assert BuildAll(b, 0, [x]) == Ok((0, [Nest("g", [])]));
    assert root.children[1..] == [x];
    assert [leaf] + [Nest("g", [])] == [leaf, Nest("g", [])];
    assert Returned(both) == Several(both);
  }

  // ------------------------------------------------------------ on a scene

  /**
   * The constructors on a scene: a shape element appends its drawable, a
   * divider appends a group of drawables already in the table. (`Traverse`
   * only ever passes indices of the table, so the last branch is never
   * taken; it keeps the function total.)
   */
  function SceneBuilders(read: NumberReader): Builders<seq<Node>, nat>
  {
    Builders((ns: seq<Node>, e: Element) => ShapeAdded(read, ns, e),
             (ns: seq<Node>, e: Element, cs: seq<nat>) =>
               if InRange(cs, |ns|) then GroupAdded(read, ns, e, cs) else Err("not a drawable"))
  }

  /** A tag that is neither `g` nor one of the seven mapped names ends the traversal: `new undefined(ch)` throws. */
  lemma UnmappedTagAborts(read: NumberReader, x: Svg, q: seq<Entry>, ns: seq<Node>, stack: seq<nat>)
    requires x.elem.tag !in {"g", "rect", "circle", "ellipse", "line", "polygon", "polyline", "path"}
    ensures Run(SceneBuilders(read), [Visit(x)] + q, ns, stack) == Err("not a constructor")
  {
    var b := SceneBuilders(read);
    assert b.leaf(ns, x.elem) == Err("not a constructor");
    LeafThrowAborts(b, x, q, ns, stack);
  }

  /**
   * `traverse(svg)` building into `scene`: the result is the traversal's,
   * with each drawable an index of the scene's table, and the loop makes one
   * pass per element visited and one per group's divider.
   */
  method Traverse(scene: Scene, read: NumberReader, root: Svg) returns (r: Result<Outcome<nat>, string>, ghost passes: nat)
    requires scene.Valid()
    modifies scene
    ensures r.Ok? ==> Traversal(SceneBuilders(read), root, old(scene.nodes)) == Ok((scene.nodes, r.value))
    ensures r.Ok? ==> passes == ElementsAll(root.children) + GroupsAll(root.children)
    ensures r.Err? ==> Traversal(SceneBuilders(read), root, old(scene.nodes)) == Err(r.error)
    ensures scene.Valid()
  {
    ghost var b := SceneBuilders(read);
    var queue := Visits(root.children);
    var stack: seq<nat> := [];
    passes := 0;
    CountVisits(root.children);
    TallyIsElementsAndGroups(root.children);
    while |queue| > 0
      invariant scene.Valid() && InRange(stack, |scene.nodes|)
      invariant Run(b, queue, scene.nodes, stack) == Run(b, Visits(root.children), old(scene.nodes), [])
      invariant passes + Count(queue) == TallyAll(root.children)
      decreases Count(queue)
    {
      var failed;
      queue, stack, failed := Pass(scene, read, queue, stack, b);
      passes := passes + 1;
      if failed.Some? {
        return Err(failed.value), passes;
      }
    }
    r := Ok(Returned(stack));
  }

  /**
   * One pass of the loop: a divider builds its group, a group element is
   * expanded in place, any other element becomes a drawable on the stack.
   */
  method Pass(scene: Scene, read: NumberReader, queue: seq<Entry>, stack: seq<nat>, ghost b: Builders<seq<Node>, nat>)
    returns (queue': seq<Entry>, stack': seq<nat>, failed: Option<string>)
    requires b == SceneBuilders(read) && |queue| > 0
    requires scene.Valid() && InRange(stack, |scene.nodes|)
    modifies scene
    ensures failed.None? ==> Run(b, queue', scene.nodes, stack') == Run(b, queue, old(scene.nodes), stack)
    ensures failed.Some? ==> Run(b, queue, old(scene.nodes), stack) == Err(failed.value)
    ensures Count(queue') == Count(queue) - 1
    ensures scene.Valid() && InRange(stack', |scene.nodes|)
  {
    PassCount(queue);
    if queue[0].Divider? {
      queue' := queue[1..];
      var n, e := queue[0].childCount, queue[0].group;
      var cs := Slice(stack, -(n as int), |stack|);
      SlicedInRange(stack, n, |scene.nodes|);
      stack', failed := DividerStep(scene, read, queue, stack, n, e, cs, b);
    } else if IsGroup(queue[0].svg) {
      var x := queue[0].svg;
      RunGroupVisit(b, queue, scene.nodes, stack, x);
      queue', stack', failed := Visits(x.children) + [Divider(|x.children|, x.elem)] + queue[1..], stack, None;
    } else {
      queue' := queue[1..];
      stack', failed := LeafStep(scene, read, queue, stack, queue[0].svg, b);
    }
  }

  /** A shape element's pass: `new mapping[tag](elem)` on the scene, pushed on the stack. */
  method LeafStep(scene: Scene, read: NumberReader, queue: seq<Entry>, stack: seq<nat>, x: Svg, ghost b: Builders<seq<Node>, nat>)
    returns (stack': seq<nat>, failed: Option<string>)
    requires |queue| > 0 && queue[0] == Visit(x) && !IsGroup(x)
    requires scene.Valid() && InRange(stack, |scene.nodes|)
    requires b.leaf(scene.nodes, x.elem) == ShapeAdded(read, scene.nodes, x.elem)
    modifies scene
    ensures failed.None? ==> Run(b, queue[1..], scene.nodes, stack') == Run(b, queue, old(scene.nodes), stack)
    ensures failed.Some? ==> Run(b, queue, old(scene.nodes), stack) == Err(failed.value)
    ensures scene.Valid() && InRange(stack', |scene.nodes|)
  {
    RunLeaf(b, queue, scene.nodes, stack, x);
    var made := scene.AddShape(read, x.elem);
    stack', failed := stack, None;
    if made.Err? {
      failed := Some(made.error);
    } else {
      stack' := stack + [made.value];
      PushedInRange(stack, made.value, |old(scene.nodes)|, |scene.nodes|);
    }
  }

  /**
   * A divider's pass: `new Group(groupSvg, ...elems)` of the last `n`
   * drawables on the stack, which it replaces.
   */
  method DividerStep(scene: Scene, read: NumberReader, queue: seq<Entry>, stack: seq<nat>, n: nat, e: Element, cs: seq<nat>,
                     ghost b: Builders<seq<Node>, nat>)
    returns (stack': seq<nat>, failed: Option<string>)
    requires |queue| > 0 && queue[0] == Divider(n, e) && cs == Slice(stack, -(n as int), |stack|)
    requires scene.Valid() && InRange(stack, |scene.nodes|) && InRange(cs, |scene.nodes|)
    requires b.group(scene.nodes, e, cs) == GroupAdded(read, scene.nodes, e, cs)
    modifies scene
    ensures failed.None? ==> Run(b, queue[1..], scene.nodes, stack') == Run(b, queue, old(scene.nodes), stack)
    ensures failed.Some? ==> Run(b, queue, old(scene.nodes), stack) == Err(failed.value)
    ensures scene.Valid() && InRange(stack', |scene.nodes|)
  {
    RunDivider(b, queue, scene.nodes, stack, n, e);
    var made := GroupPass(scene, read, e, cs, b);
    stack', failed := stack, None;
    if made.Err? {
      failed := Some(made.error);
    } else {
      stack' := Slice(stack, 0, |stack| - n) + [made.value];
      PoppedInRange(stack, n, made.value, |old(scene.nodes)|, |scene.nodes|);
    }
  }

  /** `new Group(groupSvg, ...elems)` on the scene, as the builders describe it. */
  method GroupPass(scene: Scene, read: NumberReader, e: Element, cs: seq<nat>, ghost b: Builders<seq<Node>, nat>)
    returns (r: Result<nat, string>)
    requires scene.Valid() && InRange(cs, |scene.nodes|)
    requires b.group(scene.nodes, e, cs) == GroupAdded(read, scene.nodes, e, cs)
    modifies scene
    ensures r.Ok? ==> b.group(old(scene.nodes), e, cs) == Ok((scene.nodes, r.value)) && r.value < |scene.nodes|
    ensures r.Err? ==> b.group(old(scene.nodes), e, cs) == Err(r.error)
    ensures |scene.nodes| >= |old(scene.nodes)| && scene.Valid()
  {
    r := scene.AddGroup(read, e, cs);
  }

  /** The drawables a divider's pass takes from the stack are indices of the table. */
  lemma SlicedInRange(stack: seq<nat>, n: nat, size: nat)
    requires InRange(stack, size)
    ensures InRange(Slice(stack, -(n as int), |stack|), size)
  {
    var taken := Slice(stack, -(n as int), |stack|);
    assert forall i :: 0 <= i < |taken| ==> taken[i] == stack[|stack| - |taken| + i];
  }

  /** Whatever a shape element's pass leaves on the stack is an index of the table. */
  lemma PushedInRange(stack: seq<nat>, v: nat, size: nat, size': nat)
    requires InRange(stack, size) && size <= size' && v < size'
    ensures InRange(stack + [v], size')
  {
  }

  /** Whatever a divider's pass leaves on the stack is an index of the table. */
  lemma PoppedInRange(stack: seq<nat>, n: nat, v: nat, size: nat, size': nat)
    requires InRange(stack, size) && size <= size' && v < size'
    ensures InRange(Slice(stack, 0, |stack| - n) + [v], size')
  {
    var kept := Slice(stack, 0, |stack| - n);
    assert forall i :: 0 <= i < |kept| ==> kept[i] == stack[i];
  }

  /** A divider's pass, as `Run` takes it. */
  lemma RunDivider<S, T>(b: Builders<S, T>, q: seq<Entry>, s: S, stack: seq<T>, n: nat, e: Element)
    requires |q| > 0 && q[0] == Divider(n, e)
    ensures var made := b.group(s, e, Slice(stack, -(n as int), |stack|));
      Run(b, q, s, stack) ==
        if made.Err? then Err(made.error) else Run(b, q[1..], made.value.0, Slice(stack, 0, |stack| - n) + [made.value.1])
  {
  }

  /** A group element's pass, as `Run` takes it. */
  lemma RunGroupVisit<S, T>(b: Builders<S, T>, q: seq<Entry>, s: S, stack: seq<T>, x: Svg)
    requires |q| > 0 && q[0] == Visit(x) && IsGroup(x)
    ensures Run(b, q, s, stack) == Run(b, Visits(x.children) + [Divider(|x.children|, x.elem)] + q[1..], s, stack)
  {
  }

  /** A shape element's pass, as `Run` takes it. */
  lemma RunLeaf<S, T>(b: Builders<S, T>, q: seq<Entry>, s: S, stack: seq<T>, x: Svg)
    requires |q| > 0 && q[0] == Visit(x) && !IsGroup(x)
    ensures var made := b.leaf(s, x.elem);
      Run(b, q, s, stack) == if made.Err? then Err(made.error) else Run(b, q[1..], made.value.0, stack + [made.value.1])
  {
  }
}
