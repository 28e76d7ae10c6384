/** The scene (`Scene`): the registered top-level nodes, the enemies among
    them, and the draw counter the wired geometries increment.

    A colour pass draws every registered node except the cooked map plane;
    a depth pass draws every registered node except the cooked colliders.
    Both start the counter from 0 and draw each node from the identity
    matrix. */
module Scenes {
  import opened Frustum
  import opened Transforms
  import opened CInt
  import opened Wrappers
  import opened Geometries
  import opened Nodes
  import opened Enemies

  datatype Scene = Scene(nodes: seq<Node>, enemies: seq<Enemy>, counter: U32)

  /** Names starting with this are cooked into static colliders. */
  const FloorPrefix: string := "cook_"

  /** Names starting with this become enemies. */
  const EnemyPrefix: string := "mob_"

  /** The one node the colour pass leaves out. */
  const MapPlaneName: string := "cook_map_cook_Plane_Plane"

  /** `name.compare(0, p.size(), p) == 0`: the first |p| characters of
      `name` are `p` (a shorter name never matches). */
  predicate HasPrefix(name: string, p: string)
  {
    |p| <= |name| && name[..|p|] == p
  }

  /** A new scene: nothing registered yet and the counter at 0. */
  function EmptyScene(): (s: Scene)
    ensures s.counter == 0 && s.nodes == [] && s.enemies == []
  {
    Scene([], [], 0)
  }

  /** `getDrawnObjects()`: the counter, read without change. */
  function GetDrawnObjects(s: Scene): (n: U32)
    ensures n == s.counter
  {
    s.counter
  }

  /** Whether a pass leaves out a registered node of this name: the colour
      pass compares the whole name, the depth pass only the prefix. */
  predicate Skipped(pass: Pass, name: string)
  {
    match pass
    case Color => name == MapPlaneName
    case Depth => HasPrefix(name, FloorPrefix)
  }

  /** Every node the depth pass draws is also drawn by the colour pass
      ("cook_map_cook_Plane_Plane" starts with "cook_"), but not the other
      way round. */
  lemma DepthSkipsMore(name: string)
    ensures Skipped(Color, name) ==> Skipped(Depth, name)
    ensures Skipped(Depth, "cook_wall") && !Skipped(Color, "cook_wall")
  {
    if Skipped(Color, name) {
      assert name[..|FloorPrefix|] == FloorPrefix;
    }
    assert "cook_wall"[..5] == FloorPrefix;
  }

  ghost predicate SceneDrawable(s: Scene)
  {
    forall n :: n in s.nodes ==> NodeDrawable(n)
  }

  /** One iteration of that loop: a skipped node draws nothing. */
  ghost function DrawEntry(n: Node, pass: Pass, f: FrustumG, c: U32): (r: DrawResult)
    requires NodeDrawable(n)
    ensures r.counter == Wrap32(c + |r.renders|)
    ensures Skipped(pass, n.name) ==> r.renders == []
  {
    if Skipped(pass, n.name) then DrawResult(c, []) else DrawNode(n, pass, f, Identity, c)
  }

  /** Counting a renders and then b renders counts a + b renders. */
  lemma CounterChain(c: int, a: int, b: int, c1: int, c2: int)
    requires c1 == Wrap32(c + a) && c2 == Wrap32(c1 + b)
    ensures c2 == Wrap32(c + (a + b))
  {
    WrapAdd(c + a, b);
  }

  /** The loop over the registered nodes, from the first. */
  ghost function DrawNodes(ns: seq<Node>, pass: Pass, f: FrustumG, c: U32): (r: DrawResult)
    requires forall n :: n in ns ==> NodeDrawable(n)
    ensures r.counter == Wrap32(c + |r.renders|)
    decreases |ns|
  {
    if ns == [] then DrawResult(c, [])
    else
      var first := DrawEntry(ns[0], pass, f, c);
      var rest := DrawNodes(ns[1..], pass, f, first.counter);
      CounterChain(c, |first.renders|, |rest.renders|, first.counter, rest.counter);
      DrawResult(rest.counter, first.renders + rest.renders)
  }

  /** `draw()` and `drawDepth(shader)`: the counter is reset to 0 first, so
      afterwards it holds the number of renders of this pass alone (modulo
      2^32), whatever it held before. */
  ghost function Draw(s: Scene, pass: Pass, f: FrustumG): (r: Scene)
    requires SceneDrawable(s)
    ensures r.counter == Wrap32(|DrawNodes(s.nodes, pass, f, 0).renders|)
    ensures r.nodes == s.nodes && r.enemies == s.enemies
  {
    s.(counter := DrawNodes(s.nodes, pass, f, 0).counter)
  }

  /** The renders of a pass (the events `Draw` leaves behind). */
  ghost function Renders(s: Scene, pass: Pass, f: FrustumG): seq<Render>
    requires SceneDrawable(s)
  {
    DrawNodes(s.nodes, pass, f, 0).renders
  }

  /** Reference: the geometries reachable from every registered node the
      pass does not skip, node after node. */
  function SceneReachable(ns: seq<Node>, pass: Pass): seq<Render>
    decreases |ns|
  {
    if ns == [] then []
    else (if Skipped(pass, ns[0].name) then [] else NodeReachable(ns[0], Identity)) + SceneReachable(ns[1..], pass)
  }

  lemma {:induction false} DrawNodesIsVisible(ns: seq<Node>, pass: Pass, f: FrustumG, c: U32)
    requires forall n :: n in ns ==> NodeDrawable(n)
    ensures DrawNodes(ns, pass, f, c).renders == Visible(SceneReachable(ns, pass), pass, f)
    decreases |ns|
  {
    if ns != [] {
      var first := DrawEntry(ns[0], pass, f, c);
      if !Skipped(pass, ns[0].name) {
        DrawNodeIsVisible(ns[0], pass, f, Identity, c);
      }
      DrawNodesIsVisible(ns[1..], pass, f, first.counter);
      var head := if Skipped(pass, ns[0].name) then [] else NodeReachable(ns[0], Identity);
      VisibleAppend(head, SceneReachable(ns[1..], pass), pass, f);
    }
  }

  /** A pass renders exactly the visible geometries of the nodes it does not
      skip, in registration order, and leaves the counter at their number. */
  lemma SceneDrawIsVisible(s: Scene, pass: Pass, f: FrustumG)
    requires SceneDrawable(s)
    ensures Renders(s, pass, f) == Visible(SceneReachable(s.nodes, pass), pass, f)
    ensures GetDrawnObjects(Draw(s, pass, f)) == Wrap32(|Visible(SceneReachable(s.nodes, pass), pass, f)|)
  {
    DrawNodesIsVisible(s.nodes, pass, f, 0);
  }

  /** Drawing twice gives the same count: the reset makes the pass
      independent of the previous counter. */
  lemma DrawResets(s: Scene, pass: Pass, f: FrustumG, c: U32)
    requires SceneDrawable(s)
    ensures Draw(Draw(s, pass, f), pass, f) == Draw(s, pass, f)
    ensures Draw(s.(counter := c), pass, f) == Draw(s, pass, f)
  {
  }

  /** A node skipped by the pass contributes nothing, whatever it holds:
      swapping it for any other node of the same name changes no render. */
  lemma SkippedNodeIgnored(ns: seq<Node>, pass: Pass, i: nat, other: Node)
    requires i < |ns| && Skipped(pass, ns[i].name) && other.name == ns[i].name
    ensures SceneReachable(ns[i := other], pass) == SceneReachable(ns, pass)
  {
    SkippedNodeIgnoredFrom(ns, pass, i, other);
  }

  lemma {:induction false} SkippedNodeIgnoredFrom(ns: seq<Node>, pass: Pass, i: nat, other: Node)
    requires i < |ns| && Skipped(pass, ns[i].name) && other.name == ns[i].name
    ensures SceneReachable(ns[i := other], pass) == SceneReachable(ns, pass)
    decreases i
  {
    var ms := ns[i := other];
    if i == 0 {
      assert ms[1..] == ns[1..];
    } else {
      assert ms[1..] == ns[1..][i - 1 := other];
      SkippedNodeIgnoredFrom(ns[1..], pass, i - 1, other);
    }
  }

  /** `getNodeWithName(name)`: the first registered node so named, or null. */
  method GetNodeWithName(s: Scene, name: string) returns (r: Option<Node>)
    ensures r.Some? ==> r.value.name == name
    ensures r.Some? ==> exists i :: (0 <= i < |s.nodes| && s.nodes[i] == r.value
                                     && forall j :: 0 <= j < i ==> s.nodes[j].name != name)
    ensures r.None? <==> forall j :: 0 <= j < |s.nodes| ==> s.nodes[j].name != name
  {
    var k := FirstNamed(s.nodes, name);
    if k.Some? {
      return Some(s.nodes[k.value]);
    }
    return None;
  }

  /** `getEnemyWithActor(actor)`: the first enemy one of whose meshes
      belongs to `actor`, or null. */
  method GetEnemyWithActor(s: Scene, actor: ActorRef) returns (r: Option<Enemy>)
    ensures r.Some? ==> exists i :: (0 <= i < |s.enemies| && s.enemies[i] == r.value
                                     && OwnsActor(r.value, actor)
                                     && forall j :: 0 <= j < i ==> !OwnsActor(s.enemies[j], actor))
    ensures r.None? <==> forall j :: 0 <= j < |s.enemies| ==> !OwnsActor(s.enemies[j], actor)
  {
    var i := 0;
    while i < |s.enemies|
      invariant 0 <= i <= |s.enemies|
      invariant forall j :: 0 <= j < i ==> !OwnsActor(s.enemies[j], actor)
    {
      var has := HasActor(s.enemies[i], actor);
      if has {
        return Some(s.enemies[i]);
      }
      i := i + 1;
    }
    return None;
  }

  /** What `hasActor` answers. */
  predicate OwnsActor(e: Enemy, actor: ActorRef)
  {
    exists i :: 0 <= i < |e.node.meshes| && e.node.meshes[i].actor == actor
  }
}
