/** Building the scene graph from an imported model (`Scene::processNode`
    and `Scene::processMesh`).

    The importer's output is an abstract tree of named nodes holding meshes;
    a mesh is its vertex list plus two answers from the physics engine that
    this model takes as inputs: whether cooking the mesh into a collider
    succeeds, and which actor the engine creates for it. */
module SceneBuilder {
  import opened Linear
  import opened Transforms
  import opened Wrappers
  import opened Geometries
  import opened Nodes
  import opened Enemies
  import opened Scenes

  datatype ImportMesh = ImportMesh(vertices: seq<Vec3>, cookOk: bool, actor: ActorRef)

  datatype ImportNode = ImportNode(name: string, meshes: seq<ImportMesh>, children: seq<ImportNode>)

  /** The seed of the running maximum; the minimum starts at its negation. */
  const Seed: real := 300.0

  /** A node becomes an `Enemy` iff its name starts with "mob_". */
  predicate IsEnemyName(name: string) { HasPrefix(name, EnemyPrefix) }

  /** A node's meshes are cooked into colliders iff its name starts with "cook_". */
  predicate IsCookName(name: string) { HasPrefix(name, FloorPrefix) }

  /** No name is both: the prefixes differ in their first character. */
  lemma EnemyAndCookExclusive(name: string)
    ensures !(IsEnemyName(name) && IsCookName(name))
  {
    if IsEnemyName(name) {
      assert name[..|EnemyPrefix|][0] == 'm';
      assert name[0] == 'm';
      assert |FloorPrefix| <= |name| ==> name[..|FloorPrefix|][0] == 'm';
    }
  }

  /** The running minimum and maximum over the vertices, seeded at 300 and
      -300 on every axis, as `processMesh` computes them with fmin/fmax. */
  method Bounds(vs: seq<Vec3>) returns (lo: Vec3, hi: Vec3)
    ensures forall i :: 0 <= i < |vs| ==> lo.x <= vs[i].x <= hi.x && lo.y <= vs[i].y <= hi.y && lo.z <= vs[i].z <= hi.z
    ensures hi.x >= -Seed && hi.y >= -Seed && hi.z >= -Seed
    ensures lo.x <= Seed && lo.y <= Seed && lo.z <= Seed
    ensures hi.x == -Seed || exists i :: 0 <= i < |vs| && vs[i].x == hi.x
    ensures lo.x == Seed || exists i :: 0 <= i < |vs| && vs[i].x == lo.x
    ensures hi.y == -Seed || exists i :: 0 <= i < |vs| && vs[i].y == hi.y
    ensures lo.y == Seed || exists i :: 0 <= i < |vs| && vs[i].y == lo.y
    ensures hi.z == -Seed || exists i :: 0 <= i < |vs| && vs[i].z == hi.z
    ensures lo.z == Seed || exists i :: 0 <= i < |vs| && vs[i].z == lo.z
  {
    hi := Vec3(-Seed, -Seed, -Seed);
    lo := Vec3(Seed, Seed, Seed);
    var i := 0;
    while i < |vs|
      invariant 0 <= i <= |vs|
      invariant forall j :: 0 <= j < i ==> lo.x <= vs[j].x <= hi.x && lo.y <= vs[j].y <= hi.y && lo.z <= vs[j].z <= hi.z
      invariant hi.x >= -Seed && hi.y >= -Seed && hi.z >= -Seed
      invariant lo.x <= Seed && lo.y <= Seed && lo.z <= Seed
      invariant hi.x == -Seed || exists j :: 0 <= j < i && vs[j].x == hi.x
      invariant lo.x == Seed || exists j :: 0 <= j < i && vs[j].x == lo.x
      invariant hi.y == -Seed || exists j :: 0 <= j < i && vs[j].y == hi.y
      invariant lo.y == Seed || exists j :: 0 <= j < i && vs[j].y == lo.y
      invariant hi.z == -Seed || exists j :: 0 <= j < i && vs[j].z == hi.z
      invariant lo.z == Seed || exists j :: 0 <= j < i && vs[j].z == lo.z
    {
      var v := vs[i];
      hi := Vec3(if v.x > hi.x then v.x else hi.x, if v.y > hi.y then v.y else hi.y, if v.z > hi.z then v.z else hi.z);
      lo := Vec3(if v.x < lo.x then v.x else lo.x, if v.y < lo.y then v.y else lo.y, if v.z < lo.z then v.z else lo.z);
      i := i + 1;
    }
  }

  /** A corner coordinate: the maximum on that axis for sign `+`, the
      minimum for `-`.  Corners come in the sign order
      +++, ++-, +-+, +--, -++, -+-, --+, --- over (x, y, z). */
  function Pick(plus: bool, lo: real, hi: real): real
  {
    if plus then hi else lo
  }

  /** The eight corners `middle ± half-length`, as `processMesh` pushes them. */
  function BoxCorners(lo: Vec3, hi: Vec3): (box: seq<Vec3>)
    ensures |box| == 8
    ensures forall k :: 0 <= k < 8 ==>
      box[k] == Vec3(Pick(k < 4, lo.x, hi.x), Pick(k % 4 < 2, lo.y, hi.y), Pick(k % 2 == 0, lo.z, hi.z))
  {
    var mid := Scale(Add(hi, lo), 0.5);
    var half := Scale(Sub(hi, lo), 0.5);
    var box := [
      Add(mid, Vec3(half.x, half.y, half.z)),
      Add(mid, Vec3(half.x, half.y, -half.z)),
      Add(mid, Vec3(half.x, -half.y, half.z)),
      Add(mid, Vec3(half.x, -half.y, -half.z)),
      Add(mid, Vec3(-half.x, half.y, half.z)),
      Add(mid, Vec3(-half.x, half.y, -half.z)),
      Add(mid, Vec3(-half.x, -half.y, half.z)),
      Add(mid, Vec3(-half.x, -half.y, -half.z))];
    assert box[0] == Vec3(hi.x, hi.y, hi.z);
    assert box[7] == Vec3(lo.x, lo.y, lo.z);
    box
  }

  /** Every vertex lies between the first and the last corner on every axis. */
  lemma BoxEnclosesVertices(vs: seq<Vec3>, lo: Vec3, hi: Vec3, i: nat)
    requires i < |vs|
    requires lo.x <= vs[i].x <= hi.x && lo.y <= vs[i].y <= hi.y && lo.z <= vs[i].z <= hi.z
    ensures BoxCorners(lo, hi)[7].x <= vs[i].x <= BoxCorners(lo, hi)[0].x
    ensures BoxCorners(lo, hi)[7].y <= vs[i].y <= BoxCorners(lo, hi)[0].y
    ensures BoxCorners(lo, hi)[7].z <= vs[i].z <= BoxCorners(lo, hi)[0].z
  {
  }

  /** The middle of the box, the negation of which becomes an enemy's
      starting position. */
  function Middle(lo: Vec3, hi: Vec3): (mid: Vec3)
    ensures Add(mid, mid) == Add(lo, hi)
  {
    Scale(Add(hi, lo), 0.5)
  }

  /** The box's last corner is below and its first corner above every
      vertex, on every axis. */
  predicate Encloses(box: seq<Vec3>, vs: seq<Vec3>)
  {
    |box| == 8
    && forall i :: 0 <= i < |vs| ==>
         box[7].x <= vs[i].x <= box[0].x
         && box[7].y <= vs[i].y <= box[0].y
         && box[7].z <= vs[i].z <= box[0].z
  }

  /** The geometry `processMesh` builds for mesh `m` owned by `actor`. */
  predicate BuiltFrom(g: Geometry, m: ImportMesh, actor: ActorRef)
  {
    g.wired && !g.isEmpty && !g.isCharacter && g.model == Identity && g.children == []
    && g.actor == actor && Encloses(g.box, m.vertices)
  }

  /** Which actor owns the geometry of a mesh: the collider's (cooked), the
      controller's (enemy) or none. */
  function MeshActor(m: ImportMesh, cookMesh: bool, isEnemy: bool): ActorRef
  {
    if cookMesh || isEnemy then m.actor else NoActor
  }

  /** `processMesh`: a cooked mesh whose cooking fails adds nothing; any
      other mesh becomes a wired geometry with the identity model matrix and
      the eight-corner box of its vertices, owned by `MeshActor`.  An enemy
      node that is not cooked is also moved to `position` and offset by
      minus the box middle. */
  method ProcessMesh(n: Node, m: ImportMesh, cookMesh: bool, isEnemy: bool, position: Vec3)
    returns (r: Node)
    ensures cookMesh && !m.cookOk ==> r == n
    ensures !(cookMesh && !m.cookOk) ==>
      |r.meshes| == |n.meshes| + 1 && r.meshes[..|n.meshes|] == n.meshes
      && BuiltFrom(r.meshes[|n.meshes|], m, MeshActor(m, cookMesh, isEnemy))
    ensures !cookMesh && isEnemy ==>
      r.position == position
      && Add(r.startingPosition, r.startingPosition) == Neg(Add(r.meshes[|n.meshes|].box[0], r.meshes[|n.meshes|].box[7]))
    ensures !(!cookMesh && isEnemy) ==> r.position == n.position && r.startingPosition == n.startingPosition
    ensures r.name == n.name && r.children == n.children && r.enabled == n.enabled && r.model == n.model
  {
    var lo, hi := Bounds(m.vertices);
    if cookMesh && !m.cookOk {
      return n;
    }
    var box := BoxCorners(lo, hi);
    forall i | 0 <= i < |m.vertices|
      ensures box[7].x <= m.vertices[i].x <= box[0].x
      ensures box[7].y <= m.vertices[i].y <= box[0].y
      ensures box[7].z <= m.vertices[i].z <= box[0].z
    {
      BoxEnclosesVertices(m.vertices, lo, hi, i);
    }
    var g := MakeWired(Identity, MeshActor(m, cookMesh, isEnemy), box);
    assert BuiltFrom(g, m, MeshActor(m, cookMesh, isEnemy));
    r := n;
    if !cookMesh && isEnemy {
      r := SetPosition(r, position).(startingPosition := Neg(Middle(lo, hi)));
      MiddleOfCorners(lo, hi);
    }
    r := AddMesh(r, g);
  }

  /** The box middle is the middle of its first and last corner. */
  lemma MiddleOfCorners(lo: Vec3, hi: Vec3)
    ensures Add(Neg(Middle(lo, hi)), Neg(Middle(lo, hi))) == Neg(Add(BoxCorners(lo, hi)[0], BoxCorners(lo, hi)[7]))
  {
  }

  /** The node tree mirrors the import tree: same names, same shape. */
  ghost predicate Mirrors(n: Node, t: ImportNode)
    decreases t
  {
    n.name == t.name && |n.children| == |t.children|
    && forall i :: 0 <= i < |t.children| ==> Mirrors(n.children[i], t.children[i])
  }

  /** The state a freshly built `Enemy` carries besides its node. */
  function EnemyOf(n: Node): (e: Enemy)
    ensures e.node == n && e.hp == 50 && e.maxHp == 50 && e.damage == 5
  {
    Enemy(n, 50, 50, 5, Zero3)
  }

  /** What processing `t` at `level` appends to the scene's node list:
      itself iff it is a level-1 node holding at least one mesh. */
  function Registration(t: ImportNode, level: int, n: Node): (ns: seq<Node>)
    ensures ns == [] || ns == [n]
    ensures ns == [n] <==> level == 1 && |t.meshes| > 0
  {
    if level == 1 && |t.meshes| > 0 then [n] else []
  }

  /** What it appends to the enemy list: the same node, if it is an enemy. */
  function EnemyRegistration(t: ImportNode, level: int, n: Node): (es: seq<Enemy>)
    ensures es == [] || es == [EnemyOf(n)]
    ensures es == [EnemyOf(n)] <==> level == 1 && |t.meshes| > 0 && IsEnemyName(t.name)
  {
    if level == 1 && |t.meshes| > 0 && IsEnemyName(t.name) then [EnemyOf(n)] else []
  }

  /** The built children that `processNode` registers when their parent is
      the root, in order. */
  function Registered(ts: seq<ImportNode>, ns: seq<Node>): seq<Node>
    requires |ts| == |ns|
  {
    if ts == [] then []
    else Registered(ts[..|ts| - 1], ns[..|ns| - 1]) + Registration(ts[|ts| - 1], 1, ns[|ns| - 1])
  }

  /** The enemies registered with them. */
  function RegisteredEnemies(ts: seq<ImportNode>, ns: seq<Node>): seq<Enemy>
    requires |ts| == |ns|
  {
    if ts == [] then []
    else RegisteredEnemies(ts[..|ts| - 1], ns[..|ns| - 1]) + EnemyRegistration(ts[|ts| - 1], 1, ns[|ns| - 1])
  }

  lemma RegisteredSnoc(ts: seq<ImportNode>, ns: seq<Node>, t: ImportNode, n: Node)
    requires |ts| == |ns|
    ensures Registered(ts + [t], ns + [n]) == Registered(ts, ns) + Registration(t, 1, n)
    ensures RegisteredEnemies(ts + [t], ns + [n]) == RegisteredEnemies(ts, ns) + EnemyRegistration(t, 1, n)
  {
    assert (ts + [t])[..|ts|] == ts;
    assert (ns + [n])[..|ns|] == ns;
  }

  /** Only level-1 nodes holding at least one mesh are registered, and an
      enemy is registered as an enemy too; every registered node mirrors a
      direct child of the root. */
  lemma RegisteredAreMeshHolders(ts: seq<ImportNode>, ns: seq<Node>, k: nat)
    requires |ts| == |ns| && k < |Registered(ts, ns)|
    ensures exists i :: 0 <= i < |ts| && Registered(ts, ns)[k] == ns[i] && |ts[i].meshes| > 0
    decreases |ts|
  {
    var last := Registration(ts[|ts| - 1], 1, ns[|ns| - 1]);
    var init := Registered(ts[..|ts| - 1], ns[..|ns| - 1]);
    if k < |init| {
      RegisteredAreMeshHolders(ts[..|ts| - 1], ns[..|ns| - 1], k);
      var i :| 0 <= i < |ts| - 1 && init[k] == ns[..|ns| - 1][i] && |ts[..|ts| - 1][i].meshes| > 0;
      assert Registered(ts, ns)[k] == ns[i];
    } else {
      assert Registered(ts, ns)[k] == ns[|ns| - 1];
    }
  }

  /** The mesh loop of `processNode`. */
  method ProcessMeshes(n: Node, ms: seq<ImportMesh>, cookMesh: bool, isEnemy: bool, position: Vec3)
    returns (r: Node)
    ensures !cookMesh ==> |r.meshes| == |n.meshes| + |ms|
    ensures |r.meshes| <= |n.meshes| + |ms|
    ensures r.name == n.name && r.children == n.children && r.enabled == n.enabled && r.model == n.model
    ensures r.position == n.position || r.position == position
  {
    r := n;
    var i := 0;
    while i < |ms|
      invariant 0 <= i <= |ms|
      invariant !cookMesh ==> |r.meshes| == |n.meshes| + i
      invariant |r.meshes| <= |n.meshes| + i
      invariant r.name == n.name && r.children == n.children && r.enabled == n.enabled && r.model == n.model
      invariant r.position == n.position || r.position == position
    {
      r := ProcessMesh(r, ms[i], cookMesh, isEnemy, position);
      i := i + 1;
    }
  }

  /** `processNode(node, scene, level, transformation, scale, position)`:
      builds the node and its meshes, registers it if it is a level-1 node
      holding meshes, then builds the children one level deeper. */
  method ProcessNode(s: Scene, t: ImportNode, level: int, transformation: bool, scale: real, position: Vec3)
    returns (s': Scene, n: Node)
    requires level >= 0
    ensures Mirrors(n, t) && n.enabled
    ensures !IsCookName(t.name) ==> |n.meshes| == |t.meshes|
    ensures |n.meshes| <= |t.meshes|
    ensures n.model == (if transformation then [Uniform(scale)] else Identity)
    ensures transformation ==> n.position == position
    ensures s'.counter == s.counter
    ensures level >= 1 ==> s'.nodes == s.nodes + Registration(t, level, n)
    ensures level >= 1 ==> s'.enemies == s.enemies + EnemyRegistration(t, level, n)
    ensures level == 0 ==> s'.nodes == s.nodes + Registered(t.children, n.children)
    ensures level == 0 ==> s'.enemies == s.enemies + RegisteredEnemies(t.children, n.children)
    decreases t, 1
  {
    var isEnemy := IsEnemyName(t.name);
    var cookMesh := IsCookName(t.name);
    var n0 := NewNode(Identity).(name := t.name);
    if transformation {
      n0 := Nodes.Transform(SetPosition(n0, position), [Uniform(scale)]);
    }
    n0 := ProcessMeshes(n0, t.meshes, cookMesh, isEnemy, position);
    s', n := ProcessChildren(s, t, n0, level, transformation, scale, position);
    s' := s'.(nodes := s'.nodes + Registration(t, level, n), enemies := s'.enemies + EnemyRegistration(t, level, n));
  }

  /** The loop over the children in `processNode`: each is built at
      `level + 1` and appended to `n0`'s children; nothing else of `n0`
      changes. */
  method ProcessChildren(s: Scene, t: ImportNode, n0: Node, level: int, transformation: bool, scale: real, position: Vec3)
    returns (s': Scene, n: Node)
    requires level >= 0 && n0.children == []
    ensures n == n0.(children := n.children)
    ensures |n.children| == |t.children|
    ensures forall k :: 0 <= k < |t.children| ==> Mirrors(n.children[k], t.children[k])
    ensures s'.counter == s.counter
    ensures level >= 1 ==> s' == s
    ensures level == 0 ==> s'.nodes == s.nodes + Registered(t.children, n.children)
    ensures level == 0 ==> s'.enemies == s.enemies + RegisteredEnemies(t.children, n.children)
    decreases t, 0
  {
    n := n0;
    s' := s;
    var j := 0;
    while j < |t.children|
      invariant 0 <= j <= |t.children|
      invariant ChildrenBuilt(s, t.children[..j], n0, s', n, level)
    {
      assert t.children[j] in t.children;
      var s2, child := ProcessChild(s', t.children[j], level, transformation, scale, position);
      ChildBuilt(s, t.children[..j], n0, s', n, level, t.children[j], s2, child);
      assert t.children[..j + 1] == t.children[..j] + [t.children[j]];
      n := Nodes.AddChild(n, child);
      s' := s2;
      j := j + 1;
    }
    assert t.children[..|t.children|] == t.children;
  }

  /** What the loop in `processNode` has done after the children `ts`. */
  ghost predicate ChildrenBuilt(s: Scene, ts: seq<ImportNode>, n0: Node, s': Scene, n: Node, level: int)
  {
    && n == n0.(children := n.children) && |n.children| == |ts|
    && (forall k :: 0 <= k < |ts| ==> Mirrors(n.children[k], ts[k]))
    && s'.counter == s.counter
    && (level >= 1 ==> s' == s)
    && (level == 0 ==> s'.nodes == s.nodes + Registered(ts, n.children))
    && (level == 0 ==> s'.enemies == s.enemies + RegisteredEnemies(ts, n.children))
  }

  /** One more child keeps `ChildrenBuilt`. */
  lemma ChildBuilt(s: Scene, ts: seq<ImportNode>, n0: Node, s1: Scene, n: Node, level: int,
                   c: ImportNode, s2: Scene, child: Node)
    requires ChildrenBuilt(s, ts, n0, s1, n, level)
    requires Mirrors(child, c) && s2.counter == s1.counter
    requires level >= 1 ==> s2 == s1
    requires level == 0 ==> s2.nodes == s1.nodes + Registration(c, 1, child)
    requires level == 0 ==> s2.enemies == s1.enemies + EnemyRegistration(c, 1, child)
    ensures ChildrenBuilt(s, ts + [c], n0, s2, n.(children := n.children + [child]), level)
  {
    var n' := n.(children := n.children + [child]);
    forall k | 0 <= k < |ts| + 1
      ensures Mirrors(n'.children[k], (ts + [c])[k])
    {
      if k < |ts| {
        assert n'.children[k] == n.children[k] && (ts + [c])[k] == ts[k];
      }
    }
    if level == 0 {
      RegisteredSnoc(ts, n.children, c, child);
    }
  }

  /** One iteration of that loop: the child is built one level down; only
      the root's children can be registered. */
  method ProcessChild(s: Scene, c: ImportNode, level: int, transformation: bool, scale: real, position: Vec3)
    returns (s': Scene, child: Node)
    requires level >= 0
    ensures Mirrors(child, c)
    ensures s'.counter == s.counter
    ensures level >= 1 ==> s' == s
    ensures level == 0 ==> s'.nodes == s.nodes + Registration(c, 1, child)
    ensures level == 0 ==> s'.enemies == s.enemies + EnemyRegistration(c, 1, child)
    decreases c, 2
  {
    s', child := ProcessNode(s, c, level + 1, transformation, scale, position);
  }

  /** `loadScene(path)` on a scene that opened: the root is processed at
      level 0 without transformation; its children holding meshes are
      registered in order. */
  method LoadScene(s: Scene, root: ImportNode) returns (s': Scene, n: Node)
    ensures Mirrors(n, root)
    ensures s'.nodes == s.nodes + Registered(root.children, n.children)
    ensures s'.enemies == s.enemies + RegisteredEnemies(root.children, n.children)
    ensures s'.counter == s.counter
  {
    s', n := ProcessNode(s, root, 0, false, 1.0, Zero3);
  }

  /** `loadScene(path, scale, position)`: the same, but every node is
      placed at `position` and scaled uniformly by `scale`. */
  method LoadSceneScaled(s: Scene, root: ImportNode, scale: real, position: Vec3) returns (s': Scene, n: Node)
    ensures Mirrors(n, root)
    ensures n.position == position && n.model == [Uniform(scale)]
    ensures s'.nodes == s.nodes + Registered(root.children, n.children)
    ensures s'.enemies == s.enemies + RegisteredEnemies(root.children, n.children)
    ensures s'.counter == s.counter
  {
    s', n := ProcessNode(s, root, 0, true, scale, position);
  }
}
