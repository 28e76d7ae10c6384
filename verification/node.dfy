/** A scene-graph node (`Node`): a named, positioned group of meshes and
    child nodes that can be switched off as a whole.

    Drawing an enabled node builds
      matrix * T(position) * R_y(angle) * T(startingPosition) * transform * model
    and draws first every mesh, in list order, then every child node, all
    with that matrix.  A disabled node draws nothing below it. */
module Nodes {
  import opened Linear
  import opened Frustum
  import opened Transforms
  import opened CInt
  import opened Wrappers
  import opened Geometries

  datatype Node = Node(
    name: string,
    enabled: bool,
    position: Vec3,
    angle: real,
    startingPosition: Vec3,
    transform: Mat,
    model: Mat,
    meshes: seq<Geometry>,
    children: seq<Node>)

  /** `Node(modelMatrix)`: enabled, unnamed, angle 0, starting position 0,
      with no meshes and no children.  `_position` and `_transformMatrix`
      are never initialised; they are taken to be glm's default zero
      vector and identity. */
  function NewNode(model: Mat): (n: Node)
    ensures n.enabled && n.name == "" && n.angle == 0.0
    ensures n.position == Zero3 && n.startingPosition == Zero3
    ensures n.model == model && n.transform == Identity
    ensures n.meshes == [] && n.children == []
  {
    Node("", true, Zero3, 0.0, Zero3, Identity, model, [], [])
  }

  /** Every mesh and every child node, at any depth, can be drawn. */
  ghost predicate NodeDrawable(n: Node)
    decreases n
  {
    (forall g :: g in n.meshes ==> Drawable(g))
    && forall ch :: ch in n.children ==> NodeDrawable(ch)
  }

  /** The matrix an enabled node hands to its meshes and children. */
  function NodeAccum(n: Node, m: Mat): Mat
  {
    Mul(m, [Translate(n.position), RotateY(n.angle), Translate(n.startingPosition)] + n.transform + n.model)
  }

  /** The meshes of a node, in list order, each drawn with `acc`. */
  ghost function DrawMeshes(ms: seq<Geometry>, pass: Pass, f: FrustumG, acc: Mat, c: U32): (r: DrawResult)
    requires forall g :: g in ms ==> Drawable(g)
    ensures r.counter == Wrap32(c + |r.renders|)
    ensures forall k :: 0 <= k < |r.renders| ==> LeftFactor(acc, r.renders[k].matrix)
    decreases |ms|
  {
    if ms == [] then DrawResult(c, [])
    else
      var first := Draw(ms[0], pass, f, acc, c);
      var rest := DrawMeshes(ms[1..], pass, f, acc, first.counter);
      WrapAdd(c + |first.renders|, |rest.renders|);
      DrawResult(rest.counter, first.renders + rest.renders)
  }

  /** `draw(matrix)` (colour pass) and `drawDepth(shader, matrix)` (depth pass). */
  ghost function DrawNode(n: Node, pass: Pass, f: FrustumG, m: Mat, c: U32): (r: DrawResult)
    requires NodeDrawable(n)
    ensures r.counter == Wrap32(c + |r.renders|)
    ensures !n.enabled ==> r == DrawResult(c, [])
    ensures forall k :: 0 <= k < |r.renders| ==> LeftFactor(m, r.renders[k].matrix)
    decreases n, 1
  {
    if !n.enabled then DrawResult(c, [])
    else
      var acc := NodeAccum(n, m);
      LeftFactorOfProduct(m, [Translate(n.position), RotateY(n.angle), Translate(n.startingPosition)] + n.transform + n.model);
      var own := DrawMeshes(n.meshes, pass, f, acc, c);
      var kids := DrawNodeChildren(n, pass, f, acc, own.counter, 0);
      WrapAdd(c + |own.renders|, |kids.renders|);
      var all := own.renders + kids.renders;
      forall k | 0 <= k < |all|
        ensures LeftFactor(m, all[k].matrix)
      {
        LeftFactorTrans(m, acc, all[k].matrix);
      }
      DrawResult(kids.counter, all)
  }

  ghost function DrawNodeChildren(n: Node, pass: Pass, f: FrustumG, acc: Mat, c: U32, i: nat): (r: DrawResult)
    requires NodeDrawable(n) && i <= |n.children|
    ensures r.counter == Wrap32(c + |r.renders|)
    ensures forall k :: 0 <= k < |r.renders| ==> LeftFactor(acc, r.renders[k].matrix)
    decreases n, 0, |n.children| - i
  {
    if i == |n.children| then DrawResult(c, [])
    else
      assert n.children[i] in n.children;
      var first := DrawNode(n.children[i], pass, f, acc, c);
      var rest := DrawNodeChildren(n, pass, f, acc, first.counter, i + 1);
      WrapAdd(c + |first.renders|, |rest.renders|);
      DrawResult(rest.counter, first.renders + rest.renders)
  }

  // ---------------------------------------------------------------------
  // Reference traversal.

  /** Every geometry reachable through enabled nodes, each with the matrix
      it would be drawn with: a node's meshes (with their geometry
      children) in list order, then its child nodes. */
  function NodeReachable(n: Node, m: Mat): seq<Render>
    decreases n, 1
  {
    if !n.enabled then []
    else MeshesReachable(n.meshes, NodeAccum(n, m)) + NodeReachableChildren(n, NodeAccum(n, m), 0)
  }

  function MeshesReachable(ms: seq<Geometry>, acc: Mat): seq<Render>
    decreases |ms|
  {
    if ms == [] then [] else Reachable(ms[0], acc) + MeshesReachable(ms[1..], acc)
  }

  function NodeReachableChildren(n: Node, acc: Mat, i: nat): seq<Render>
    requires i <= |n.children|
    decreases n, 0, |n.children| - i
  {
    if i == |n.children| then []
    else
      assert n.children[i] in n.children;
      NodeReachable(n.children[i], acc) + NodeReachableChildren(n, acc, i + 1)
  }

  lemma {:induction false} DrawMeshesIsVisible(ms: seq<Geometry>, pass: Pass, f: FrustumG, acc: Mat, c: U32)
    requires forall g :: g in ms ==> Drawable(g)
    ensures DrawMeshes(ms, pass, f, acc, c).renders == Visible(MeshesReachable(ms, acc), pass, f)
    decreases |ms|
  {
    if ms != [] {
      var first := Draw(ms[0], pass, f, acc, c);
      DrawIsVisible(ms[0], pass, f, acc, c);
      DrawMeshesIsVisible(ms[1..], pass, f, acc, first.counter);
      VisibleAppend(Reachable(ms[0], acc), MeshesReachable(ms[1..], acc), pass, f);
    }
  }

  /** The renders of a node's draw pass are exactly the visible, non-empty
      geometries reachable through enabled nodes, in the order meshes
      first, then child nodes, each with its accumulated matrix. */
  lemma {:induction false} DrawNodeIsVisible(n: Node, pass: Pass, f: FrustumG, m: Mat, c: U32)
    requires NodeDrawable(n)
    ensures DrawNode(n, pass, f, m, c).renders == Visible(NodeReachable(n, m), pass, f)
    decreases n, 1
  {
    if n.enabled {
      var acc := NodeAccum(n, m);
      var own := DrawMeshes(n.meshes, pass, f, acc, c);
      DrawMeshesIsVisible(n.meshes, pass, f, acc, c);
      DrawNodeChildrenIsVisible(n, pass, f, acc, own.counter, 0);
      VisibleAppend(MeshesReachable(n.meshes, acc), NodeReachableChildren(n, acc, 0), pass, f);
    }
  }

  lemma {:induction false} DrawNodeChildrenIsVisible(n: Node, pass: Pass, f: FrustumG, acc: Mat, c: U32, i: nat)
    requires NodeDrawable(n) && i <= |n.children|
    ensures DrawNodeChildren(n, pass, f, acc, c, i).renders == Visible(NodeReachableChildren(n, acc, i), pass, f)
    decreases n, 0, |n.children| - i
  {
    if i < |n.children| {
      assert n.children[i] in n.children;
      var first := DrawNode(n.children[i], pass, f, acc, c);
      DrawNodeIsVisible(n.children[i], pass, f, acc, c);
      DrawNodeChildrenIsVisible(n, pass, f, acc, first.counter, i + 1);
      VisibleAppend(NodeReachable(n.children[i], acc), NodeReachableChildren(n, acc, i + 1), pass, f);
    }
  }

  /** The counter advances by the number of non-empty geometries reachable
      through enabled nodes that pass the gate, modulo 2^32. */
  lemma DrawNodeCount(n: Node, pass: Pass, f: FrustumG, m: Mat, c: U32)
    requires NodeDrawable(n)
    ensures DrawNode(n, pass, f, m, c).counter == Wrap32(c + |Visible(NodeReachable(n, m), pass, f)|)
  {
    DrawNodeIsVisible(n, pass, f, m, c);
  }

  /** `drawDepth` mirrors `draw`: same enabled check, same matrices, same
      order, same count. */
  lemma DepthMirrorsColorNode(n: Node, f: FrustumG, m: Mat, c: U32)
    requires NodeDrawable(n)
    ensures DrawNode(n, Depth, f, m, c) == DrawNode(n, Color, f, m, c)
  {
    DrawNodeIsVisible(n, Depth, f, m, c);
    DrawNodeIsVisible(n, Color, f, m, c);
    VisibleSameInBothPasses(NodeReachable(n, m), f);
  }

  /** Disabling a node removes its whole subtree from a parent's draw,
      without touching what the other children draw. */
  lemma DisabledChildPruned(n: Node, j: nat, m: Mat)
    requires j < |n.children| && n.enabled
    ensures NodeReachable(n.(children := n.children[j := n.children[j].(enabled := false)]), m) ==
      MeshesReachable(n.meshes, NodeAccum(n, m))
      + NodeReachableChildren(n, NodeAccum(n, m), 0)[..PrefixLen(n, NodeAccum(n, m), j)]
      + NodeReachableChildren(n, NodeAccum(n, m), j + 1)
  {
    var acc := NodeAccum(n, m);
    var n' := n.(children := n.children[j := n.children[j].(enabled := false)]);
    assert NodeAccum(n', m) == acc;
    ChildrenPrefix(n, n', acc, 0, j);
  }

  /** How many reachable entries the child nodes before index `j` contribute. */
  function PrefixLen(n: Node, acc: Mat, j: nat): nat
    requires j < |n.children|
  {
    ChildrenLength(n, acc, 0, j);
    |NodeReachableChildren(n, acc, 0)| - |NodeReachableChildren(n, acc, j)|
  }

  lemma {:induction false} ChildrenLength(n: Node, acc: Mat, i: nat, j: nat)
    requires i <= j < |n.children|
    ensures |NodeReachableChildren(n, acc, j)| <= |NodeReachableChildren(n, acc, i)|
    decreases j - i
  {
    if i < j {
      ChildrenLength(n, acc, i + 1, j);
    }
  }

  lemma {:induction false} ChildrenPrefix(n: Node, n': Node, acc: Mat, i: nat, j: nat)
    requires i <= j < |n.children|
    requires n' == n.(children := n.children[j := n.children[j].(enabled := false)])
    ensures |NodeReachableChildren(n, acc, j)| <= |NodeReachableChildren(n, acc, i)|
    ensures NodeReachableChildren(n', acc, i) ==
      NodeReachableChildren(n, acc, i)[..|NodeReachableChildren(n, acc, i)| - |NodeReachableChildren(n, acc, j)|]
      + NodeReachableChildren(n, acc, j + 1)
    decreases j - i
  {
    ChildrenLength(n, acc, i, j);
    if i == j {
      assert n'.children[j] in n'.children;
      assert NodeReachable(n'.children[j], acc) == [];
      SameLaterChildren(n, n', acc, j + 1);
    } else {
      ChildrenPrefix(n, n', acc, i + 1, j);
      assert n.children[i] in n.children;
      assert n'.children[i] == n.children[i];
      var whole := NodeReachableChildren(n, acc, i);
      var head := NodeReachable(n.children[i], acc);
      var tail := NodeReachableChildren(n, acc, i + 1);
      var cut := |tail| - |NodeReachableChildren(n, acc, j)|;
      assert whole == head + tail;
      assert whole[..|head| + cut] == head + tail[..cut];
    }
  }

  lemma {:induction false} SameLaterChildren(n: Node, n': Node, acc: Mat, i: nat)
    requires i <= |n.children| && |n'.children| == |n.children|
    requires forall k :: i <= k < |n.children| ==> n'.children[k] == n.children[k]
    ensures NodeReachableChildren(n', acc, i) == NodeReachableChildren(n, acc, i)
    decreases |n.children| - i
  {
    if i < |n.children| {
      SameLaterChildren(n, n', acc, i + 1);
    }
  }

  // ---------------------------------------------------------------------
  // Mutators and queries.

  /** `transform(t)`: the model matrix becomes t * model. */
  function Transform(n: Node, t: Mat): (r: Node)
    ensures r.model == Mul(t, n.model) && LeftFactor(t, r.model)
    ensures r == n.(model := r.model)
  {
    n.(model := Mul(t, n.model))
  }

  /** `setTransformMatrix(t)` overwrites the transform matrix. */
  function SetTransformMatrix(n: Node, t: Mat): (r: Node)
    ensures r.transform == t && r == n.(transform := t)
  {
    n.(transform := t)
  }

  /** `resetModelMatrix()`. */
  function ResetModelMatrix(n: Node): (r: Node)
    ensures r.model == Identity && r == n.(model := Identity)
  {
    n.(model := Identity)
  }

  /** `transform(a)` then `transform(b)` leaves b * a * model; a reset
      afterwards restores the identity whatever came before. */
  lemma TransformTwiceNode(n: Node, a: Mat, b: Mat)
    ensures Transform(Transform(n, a), b).model == Mul(Mul(b, a), n.model)
    ensures ResetModelMatrix(Transform(Transform(n, a), b)) == ResetModelMatrix(n)
  {
  }

  /** `addChild(child)` appends; earlier children are untouched. */
  function AddChild(n: Node, child: Node): (r: Node)
    ensures |r.children| == |n.children| + 1 && r.children[|n.children|] == child
    ensures r.children[..|n.children|] == n.children
    ensures r == n.(children := r.children)
  {
    var r := n.(children := n.children + [child]);
    assert r.children[..|n.children|] == n.children;
    r
  }

  /** `addMesh(mesh)` appends; earlier meshes are untouched. */
  function AddMesh(n: Node, mesh: Geometry): (r: Node)
    ensures |r.meshes| == |n.meshes| + 1 && r.meshes[|n.meshes|] == mesh
    ensures r.meshes[..|n.meshes|] == n.meshes
    ensures r == n.(meshes := r.meshes)
  {
    var r := n.(meshes := n.meshes + [mesh]);
    assert r.meshes[..|n.meshes|] == n.meshes;
    r
  }

  /** `move(forward, strafeLeft)`: forward along z, strafe along x, height kept. */
  function Move(n: Node, forward: real, strafeLeft: real): (r: Node)
    ensures r.position.z == n.position.z + forward
    ensures r.position.x == n.position.x + strafeLeft
    ensures r.position.y == n.position.y
    ensures r == n.(position := r.position)
  {
    n.(position := Vec3(n.position.x + strafeLeft, n.position.y, n.position.z + forward))
  }

  /** Two moves add up, in either order. */
  lemma MoveTwice(n: Node, f1: real, s1: real, f2: real, s2: real)
    ensures Move(Move(n, f1, s1), f2, s2) == Move(n, f1 + f2, s1 + s2)
    ensures Move(Move(n, f1, s1), f2, s2) == Move(Move(n, f2, s2), f1, s1)
  {
  }

  /** `setPosition(p)`: all three coordinates copied, nothing else changes. */
  function SetPosition(n: Node, p: Vec3): (r: Node)
    ensures r.position == p && r == n.(position := p)
  {
    n.(position := p)
  }

  /** `getPosition()` returns what `setPosition` stored. */
  lemma SetThenGetPosition(n: Node, p: Vec3, q: Vec3)
    ensures SetPosition(n, p).position == p
    ensures SetPosition(SetPosition(n, q), p) == SetPosition(n, p)
  {
  }

  /** `yaw(angle)` overwrites the angle; it does not accumulate. */
  function Yaw(n: Node, angle: real): (r: Node)
    ensures r.angle == angle && r == n.(angle := angle)
  {
    n.(angle := angle)
  }

  lemma YawOverwrites(n: Node, a: real, b: real)
    ensures Yaw(Yaw(n, a), b) == Yaw(n, b)
    ensures Yaw(n, n.angle) == n
  {
  }

  /** First node in `ns` whose name equals `name`, in list order, or none:
      the lookup loop of `getChildWithName` and `Scene::getNodeWithName`. */
  method FirstNamed(ns: seq<Node>, name: string) returns (r: Option<nat>)
    ensures r.Some? ==> r.value < |ns| && ns[r.value].name == name
    ensures r.Some? ==> forall j :: 0 <= j < r.value ==> ns[j].name != name
    ensures r.None? <==> forall j :: 0 <= j < |ns| ==> ns[j].name != name
  {
    var i := 0;
    while i < |ns|
      invariant 0 <= i <= |ns|
      invariant forall j :: 0 <= j < i ==> ns[j].name != name
    {
      if ns[i].name == name {
        return Some(i);
      }
      i := i + 1;
    }
    return None;
  }

  /** `getChildWithName(name)`: the first immediate child so named, or
      null.  Grandchildren are never searched. */
  method GetChildWithName(n: Node, name: string) returns (r: Option<Node>)
    ensures r.Some? ==> r.value.name == name
    ensures r.Some? ==> exists i :: (0 <= i < |n.children| && n.children[i] == r.value
                                     && forall j :: 0 <= j < i ==> n.children[j].name != name)
    ensures r.None? <==> forall j :: 0 <= j < |n.children| ==> n.children[j].name != name
  {
    var k := FirstNamed(n.children, name);
    if k.Some? {
      return Some(n.children[k.value]);
    }
    return None;
  }
}
