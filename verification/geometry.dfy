/** A drawable mesh of the scene graph (`Geometry`) and its two draw passes.

    A geometry carries a model matrix and a transform matrix, a bounding box
    given as a list of corners, and child geometries.  Drawing multiplies the
    caller's matrix by the transform and model matrices, renders the
    geometry if it passes the culling gate, bumps the shared `unsigned int`
    draw counter once per render, and always descends into the children with
    the accumulated matrix.  Rendering itself is an abstract event recording
    the geometry and the matrix it is drawn with. */
module Geometries {
  import opened Linear
  import opened Frustum
  import opened Transforms
  import opened CInt

  /** A `PxRigidActor*`; `NoActor` is the null pointer. */
  datatype ActorRef = NoActor | Actor(id: nat)

  /** `draw(matrix)` is the colour pass; `draw(shader, matrix)` the depth pass. */
  datatype Pass = Color | Depth

  /** `wired` records whether the frustum and draw-counter pointers were set,
      which only the eight-argument constructor does.  `shifts` lists the
      position deltas handed to `updateBoundingBox`, in order; how they move
      the corners is not part of this model, and `box` is read as the box the
      culling test sees. */
  datatype Geometry = Geometry(
    model: Mat,
    transform: Mat,
    isEmpty: bool,
    isCharacter: bool,
    wired: bool,
    actor: ActorRef,
    box: seq<Vec3>,
    shifts: seq<Vec3>,
    children: seq<Geometry>)

  /** One render call: which geometry, with which model matrix. */
  datatype Render = Render(geom: Geometry, matrix: Mat)

  /** The draw counter after a traversal and the renders it issued, in order. */
  datatype DrawResult = DrawResult(counter: U32, renders: seq<Render>)

  /** The eight-argument constructor used for every imported mesh: not
      empty, not a character, wired to the frustum and counter, with no
      children.  No constructor sets `_transformMatrix`; all three take it
      to be glm's default identity. */
  function MakeWired(model: Mat, actor: ActorRef, box: seq<Vec3>): (g: Geometry)
    ensures g.wired && !g.isEmpty && !g.isCharacter
    ensures g.model == model && g.transform == Identity
    ensures g.actor == actor && g.box == box
    ensures g.shifts == [] && g.children == []
  {
    Geometry(model, Identity, false, false, true, actor, box, [], [])
  }

  /** The three-argument constructor: not empty, but neither frustum nor
      counter is set and the actor pointer is left unset (modelled as null). */
  function MakeUnwired(model: Mat): (g: Geometry)
    ensures !g.wired && !g.isEmpty && !g.isCharacter
    ensures g.model == model && g.transform == Identity && g.children == []
  {
    Geometry(model, Identity, false, false, false, NoActor, [], [], [])
  }

  /** The one-argument constructor: an empty grouping geometry. */
  function MakeEmpty(model: Mat): (g: Geometry)
    ensures !g.wired && g.isEmpty && !g.isCharacter
    ensures g.model == model && g.transform == Identity && g.children == []
  {
    Geometry(model, Identity, true, false, false, NoActor, [], [], [])
  }

  /** A geometry can be drawn without dereferencing a null pointer: either
      its frustum and counter are set, or it is an empty character geometry,
      for which the gate short-circuits before the frustum and nothing is
      counted.  Every child must be drawable as well. */
  ghost predicate Drawable(g: Geometry)
    decreases g
  {
    (g.wired || (g.isCharacter && g.isEmpty))
    && forall ch :: ch in g.children ==> Drawable(ch)
  }

  /** The culling gate of each pass.  The depth pass compares the enum value
      with 0 instead of with OUTSIDE. */
  ghost predicate Gate(g: Geometry, pass: Pass, f: FrustumG)
  {
    g.isCharacter ||
    match pass
    case Color => Classify(f, g.box) != Outside
    case Depth => Classify(f, g.box).Code() != 0
  }

  /** A geometry issues a render call iff it passes the gate and is not empty. */
  ghost predicate Shown(g: Geometry, pass: Pass, f: FrustumG)
  {
    Gate(g, pass, f) && !g.isEmpty
  }

  /** The render call a geometry itself issues, if any. */
  ghost function Own(g: Geometry, pass: Pass, f: FrustumG, acc: Mat): seq<Render>
  {
    if Shown(g, pass, f) then [Render(g, acc)] else []
  }

  /** `matrix * _transformMatrix * _modelMatrix`. */
  function Accum(g: Geometry, m: Mat): Mat
  {
    Mul(Mul(m, g.transform), g.model)
  }

  /** Both `draw` overloads, with the shared counter threaded through. */
  ghost function Draw(g: Geometry, pass: Pass, f: FrustumG, m: Mat, c: U32): (r: DrawResult)
    requires Drawable(g)
    ensures r.counter == Wrap32(c + |r.renders|)
    ensures forall k :: 0 <= k < |r.renders| ==> LeftFactor(m, r.renders[k].matrix)
    decreases g, 1
  {
    var acc := Accum(g, m);
    LeftFactorOfProduct(Mul(m, g.transform), g.model);
    LeftFactorOfProduct(m, g.transform);
    LeftFactorTrans(m, Mul(m, g.transform), acc);
    var own := Own(g, pass, f, acc);
    var rest := DrawChildren(g, pass, f, acc, Wrap32(c + |own|), 0);
    WrapAdd(c + |own|, |rest.renders|);
    forall k | 0 <= k < |rest.renders|
      ensures LeftFactor(m, rest.renders[k].matrix)
    {
      LeftFactorTrans(m, acc, rest.renders[k].matrix);
    }
    DrawResult(rest.counter, own + rest.renders)
  }

  /** The loop over `_children`, from index `i` on, each drawn with `acc`. */
  ghost function DrawChildren(g: Geometry, pass: Pass, f: FrustumG, acc: Mat, c: U32, i: nat): (r: DrawResult)
    requires Drawable(g) && i <= |g.children|
    ensures r.counter == Wrap32(c + |r.renders|)
    ensures forall k :: 0 <= k < |r.renders| ==> LeftFactor(acc, r.renders[k].matrix)
    decreases g, 0, |g.children| - i
  {
    if i == |g.children| then
      DrawResult(c, [])
    else
      assert g.children[i] in g.children;
      var first := Draw(g.children[i], pass, f, acc, c);
      var rest := DrawChildren(g, pass, f, acc, first.counter, i + 1);
      WrapAdd(c + |first.renders|, |rest.renders|);
      DrawResult(rest.counter, first.renders + rest.renders)
  }

  // ---------------------------------------------------------------------
  // Reference traversal: every geometry of the subtree in pre-order with
  // its accumulated matrix, whatever the gate says, then filtered.

  /** Every geometry of the subtree rooted at `g`, parent before children,
      paired with the matrix it would be drawn with. */
  function Reachable(g: Geometry, m: Mat): seq<Render>
    decreases g, 1
  {
    [Render(g, Accum(g, m))] + ReachableChildren(g, Accum(g, m), 0)
  }

  function ReachableChildren(g: Geometry, acc: Mat, i: nat): seq<Render>
    requires i <= |g.children|
    decreases g, 0, |g.children| - i
  {
    if i == |g.children| then []
    else
      assert g.children[i] in g.children;
      Reachable(g.children[i], acc) + ReachableChildren(g, acc, i + 1)
  }

  /** The entries of `rs` whose geometry would issue a render call. */
  ghost function Visible(rs: seq<Render>, pass: Pass, f: FrustumG): seq<Render>
  {
    if rs == [] then []
    else (if Shown(rs[0].geom, pass, f) then [rs[0]] else []) + Visible(rs[1..], pass, f)
  }

  lemma {:induction false} VisibleAppend(a: seq<Render>, b: seq<Render>, pass: Pass, f: FrustumG)
    ensures Visible(a + b, pass, f) == Visible(a, pass, f) + Visible(b, pass, f)
    decreases |a|
  {
    if a == [] {
      assert a + b == b;
    } else {
      assert (a + b)[1..] == a[1..] + b;
      VisibleAppend(a[1..], b, pass, f);
    }
  }

  /** The renders issued by a draw pass are exactly the geometries of the
      subtree, in pre-order, that pass the gate and are not empty, each with
      its accumulated matrix; the counter advances by their number, modulo
      2^32. */
  lemma {:induction false} DrawIsVisible(g: Geometry, pass: Pass, f: FrustumG, m: Mat, c: U32)
    requires Drawable(g)
    ensures Draw(g, pass, f, m, c).renders == Visible(Reachable(g, m), pass, f)
    decreases g, 1
  {
    var acc := Accum(g, m);
    var own := Own(g, pass, f, acc);
    var c1 := Wrap32(c + |own|);
    DrawChildrenIsVisible(g, pass, f, acc, c1, 0);
    VisibleHead(g, pass, f, m);
  }

  /** The counter advances by the number of visible geometries of the
      subtree, modulo 2^32. */
  lemma DrawCount(g: Geometry, pass: Pass, f: FrustumG, m: Mat, c: U32)
    requires Drawable(g)
    ensures Draw(g, pass, f, m, c).counter == Wrap32(c + |Visible(Reachable(g, m), pass, f)|)
  {
    DrawIsVisible(g, pass, f, m, c);
  }

  lemma VisibleHead(g: Geometry, pass: Pass, f: FrustumG, m: Mat)
    ensures Visible(Reachable(g, m), pass, f) ==
      Own(g, pass, f, Accum(g, m)) + Visible(ReachableChildren(g, Accum(g, m), 0), pass, f)
  {
    var head := [Render(g, Accum(g, m))];
    VisibleAppend(head, ReachableChildren(g, Accum(g, m), 0), pass, f);
    assert head[1..] == [];
  }

  lemma {:induction false} DrawChildrenIsVisible(g: Geometry, pass: Pass, f: FrustumG, acc: Mat, c: U32, i: nat)
    requires Drawable(g) && i <= |g.children|
    ensures DrawChildren(g, pass, f, acc, c, i).renders == Visible(ReachableChildren(g, acc, i), pass, f)
    decreases g, 0, |g.children| - i
  {
    if i < |g.children| {
      assert g.children[i] in g.children;
      var first := Draw(g.children[i], pass, f, acc, c);
      DrawIsVisible(g.children[i], pass, f, acc, c);
      DrawChildrenIsVisible(g, pass, f, acc, first.counter, i + 1);
      VisibleAppend(Reachable(g.children[i], acc), ReachableChildren(g, acc, i + 1), pass, f);
    }
  }

  /** The two passes apply the same gate: OUTSIDE is the enum's first value. */
  lemma GatesAgree(g: Geometry, f: FrustumG)
    ensures Gate(g, Depth, f) <==> Gate(g, Color, f)
  {
  }

  lemma {:induction false} VisibleSameInBothPasses(rs: seq<Render>, f: FrustumG)
    ensures Visible(rs, Depth, f) == Visible(rs, Color, f)
    decreases |rs|
  {
    if rs != [] {
      GatesAgree(rs[0].geom, f);
      VisibleSameInBothPasses(rs[1..], f);
    }
  }

  /** The depth pass renders the same geometries, with the same matrices and
      in the same order, and counts the same, as the colour pass. */
  lemma DepthMirrorsColor(g: Geometry, f: FrustumG, m: Mat, c: U32)
    requires Drawable(g)
    ensures Draw(g, Depth, f, m, c) == Draw(g, Color, f, m, c)
  {
    DrawIsVisible(g, Depth, f, m, c);
    DrawIsVisible(g, Color, f, m, c);
    VisibleSameInBothPasses(Reachable(g, m), f);
  }

  /** Each child is visited with the parent's accumulated matrix whether or
      not the parent itself passed the gate: everything the child's subtree
      renders is rendered as part of the parent's draw. */
  lemma ChildrenAlwaysVisited(g: Geometry, pass: Pass, f: FrustumG, m: Mat, c: U32, j: nat)
    requires Drawable(g) && j < |g.children|
    ensures forall x :: x in Visible(Reachable(g.children[j], Accum(g, m)), pass, f) ==>
      x in Draw(g, pass, f, m, c).renders
  {
    DrawIsVisible(g, pass, f, m, c);
    VisibleHead(g, pass, f, m);
    ChildVisibleAmongChildren(g, pass, f, Accum(g, m), 0, j);
  }

  lemma {:induction false} ChildVisibleAmongChildren(g: Geometry, pass: Pass, f: FrustumG, acc: Mat, i: nat, j: nat)
    requires i <= j < |g.children|
    ensures forall x :: x in Visible(Reachable(g.children[j], acc), pass, f) ==>
      x in Visible(ReachableChildren(g, acc, i), pass, f)
    decreases j - i
  {
    VisibleAppend(Reachable(g.children[i], acc), ReachableChildren(g, acc, i + 1), pass, f);
    if i < j {
      ChildVisibleAmongChildren(g, pass, f, acc, i + 1, j);
    }
  }

  /** The geometries a traversal meets, and the gate, do not depend on any
      matrix: the same subtree under another caller matrix yields renders
      of the same geometries. */
  lemma {:induction false} ReachableIgnoresMatrix(g: Geometry, m1: Mat, m2: Mat)
    ensures |Reachable(g, m1)| == |Reachable(g, m2)|
    ensures forall k :: 0 <= k < |Reachable(g, m1)| ==> Reachable(g, m1)[k].geom == Reachable(g, m2)[k].geom
    decreases g, 1
  {
    ReachableChildrenIgnoresMatrix(g, g, Accum(g, m1), Accum(g, m2), 0);
  }

  lemma {:induction false} ReachableChildrenIgnoresMatrix(g: Geometry, h: Geometry, a1: Mat, a2: Mat, i: nat)
    requires g.children == h.children && i <= |g.children|
    ensures |ReachableChildren(g, a1, i)| == |ReachableChildren(h, a2, i)|
    ensures forall k :: 0 <= k < |ReachableChildren(g, a1, i)| ==>
      ReachableChildren(g, a1, i)[k].geom == ReachableChildren(h, a2, i)[k].geom
    decreases g, 0, |g.children| - i
  {
    if i < |g.children| {
      assert g.children[i] in g.children;
      ReachableIgnoresMatrix(g.children[i], a1, a2);
      ReachableChildrenIgnoresMatrix(g, h, a1, a2, i + 1);
    }
  }

  lemma {:induction false} VisibleCountByGeometry(r1: seq<Render>, r2: seq<Render>, pass: Pass, f: FrustumG)
    requires |r1| == |r2|
    requires forall k :: 0 <= k < |r1| ==> r1[k].geom == r2[k].geom
    ensures |Visible(r1, pass, f)| == |Visible(r2, pass, f)|
    decreases |r1|
  {
    if r1 != [] {
      VisibleCountByGeometry(r1[1..], r2[1..], pass, f);
    }
  }

  /** How many objects a pass counts does not depend on the caller's matrix:
      the culling test reads only the stored bounding boxes. */
  lemma CountIgnoresMatrix(g: Geometry, pass: Pass, f: FrustumG, m1: Mat, m2: Mat, c: U32)
    requires Drawable(g)
    ensures Draw(g, pass, f, m1, c).counter == Draw(g, pass, f, m2, c).counter
  {
    DrawIsVisible(g, pass, f, m1, c);
    DrawIsVisible(g, pass, f, m2, c);
    ReachableIgnoresMatrix(g, m1, m2);
    VisibleCountByGeometry(Reachable(g, m1), Reachable(g, m2), pass, f);
  }

  // ---------------------------------------------------------------------
  // Mutators.

  /** `transform(t)`: the model matrix becomes t * model. */
  function Transform(g: Geometry, t: Mat): (r: Geometry)
    ensures r.model == Mul(t, g.model)
    ensures r == g.(model := r.model)
  {
    g.(model := Mul(t, g.model))
  }

  /** `setTransformMatrix(t)` overwrites the transform matrix. */
  function SetTransformMatrix(g: Geometry, t: Mat): (r: Geometry)
    ensures r.transform == t
    ensures r == g.(transform := t)
  {
    g.(transform := t)
  }

  /** `resetModelMatrix()`. */
  function ResetModelMatrix(g: Geometry): (r: Geometry)
    ensures r.model == Identity
    ensures r == g.(model := Identity)
  {
    g.(model := Identity)
  }

  /** `transform(a)` then `transform(b)` leaves b * a * model, and a reset
      afterwards forgets both. */
  lemma TransformTwice(g: Geometry, a: Mat, b: Mat)
    ensures Transform(Transform(g, a), b).model == Mul(Mul(b, a), g.model)
    ensures ResetModelMatrix(Transform(Transform(g, a), b)) == ResetModelMatrix(g)
  {
  }

  /** Changing the model or transform matrix does not change how many
      objects a pass counts. */
  lemma MatricesDoNotAffectCount(g: Geometry, pass: Pass, f: FrustumG, model: Mat, transform: Mat, m: Mat, c: U32)
    requires Drawable(g)
    ensures Drawable(g.(model := model, transform := transform))
    ensures Draw(g.(model := model, transform := transform), pass, f, m, c).counter == Draw(g, pass, f, m, c).counter
  {
    var h := g.(model := model, transform := transform);
    assert Shown(h, pass, f) == Shown(g, pass, f);
    DrawCount(g, pass, f, m, c);
    DrawCount(h, pass, f, m, c);
    VisibleHead(g, pass, f, m);
    VisibleHead(h, pass, f, m);
    ReachableChildrenIgnoresMatrix(g, h, Accum(g, m), Accum(h, m), 0);
    VisibleCountByGeometry(ReachableChildren(g, Accum(g, m), 0), ReachableChildren(h, Accum(h, m), 0), pass, f);
  }

  /** `addChild(child)`: appended at the end, earlier children untouched,
      and the appended child is the one returned. */
  function AddChild(g: Geometry, child: Geometry): (r: (Geometry, Geometry))
    ensures |r.0.children| == |g.children| + 1
    ensures r.0.children[..|g.children|] == g.children
    ensures r.1 == r.0.children[|g.children|] == child
    ensures r.0 == g.(children := r.0.children)
  {
    var h := g.(children := g.children + [child]);
    assert h.children[..|g.children|] == g.children;
    (h, child)
  }

  /** `updateBoundingBox(delta)`: the delta is recorded; nothing else changes. */
  function UpdateBoundingBox(g: Geometry, delta: Vec3): (r: Geometry)
    ensures r.shifts == g.shifts + [delta]
    ensures r == g.(shifts := r.shifts)
  {
    g.(shifts := g.shifts + [delta])
  }

  /** What each constructor leaves drawable: every imported mesh, an empty
      geometry only once it is marked as a character, and the
      three-argument geometry never (it would dereference a null pointer). */
  lemma ConstructorsDrawable(model: Mat, actor: ActorRef, box: seq<Vec3>)
    ensures Drawable(MakeWired(model, actor, box))
    ensures !Drawable(MakeEmpty(model)) && Drawable(MakeEmpty(model).(isCharacter := true))
    ensures !Drawable(MakeUnwired(model)) && !Drawable(MakeUnwired(model).(isCharacter := true))
  {
  }

  /** An empty geometry never renders nor counts itself, whatever its
      flags: what it draws is exactly what its children draw. */
  lemma EmptyDrawsOnlyChildren(g: Geometry, pass: Pass, f: FrustumG, m: Mat, c: U32)
    requires Drawable(g) && g.isEmpty
    ensures Draw(g, pass, f, m, c).renders == Visible(ReachableChildren(g, Accum(g, m), 0), pass, f)
  {
    DrawChildrenIsVisible(g, pass, f, Accum(g, m), c, 0);
  }
}
