/** An enemy (`Enemy`, a node with hit points and a physics character
    controller).

    The controller is outside this model: wherever the source asks the
    controller to move or to teleport and then reads its position back, the
    position read back is an input (`reported`).  The sine and cosine of the
    walking direction only shape the request to the controller, so they do
    not appear either. */
module Enemies {
  import opened Linear
  import opened CInt
  import opened Transforms
  import opened Geometries
  import opened Nodes

  datatype Enemy = Enemy(node: Node, hp: int, maxHp: int, damage: int, spawn: Vec3)

  /** `Enemy(modelMatrix)`: 50 of 50 hit points, damage 5, angle 0. */
  function NewEnemy(model: Mat, spawn: Vec3): (e: Enemy)
    ensures e.hp == 50 && e.maxHp == 50 && e.damage == 5
    ensures e.node.angle == 0.0 && e.node.enabled
    ensures e.node.meshes == [] && e.node.children == []
  {
    Enemy(NewNode(model).(angle := 0.0), 50, 50, 5, spawn)
  }

  /** `hasActor(actor)`: some mesh of the enemy belongs to `actor`. */
  method HasActor(e: Enemy, actor: ActorRef) returns (r: bool)
    ensures r <==> exists i :: 0 <= i < |e.node.meshes| && e.node.meshes[i].actor == actor
  {
    var i := 0;
    while i < |e.node.meshes|
      invariant 0 <= i <= |e.node.meshes|
      invariant forall j :: 0 <= j < i ==> e.node.meshes[j].actor != actor
    {
      if e.node.meshes[i].actor == actor {
        return true;
      }
      i := i + 1;
    }
    return false;
  }

  /** `updateBoundingBox(delta)`: the same delta goes to every mesh. */
  function ForwardDelta(e: Enemy, delta: Vec3): (r: Enemy)
    ensures |r.node.meshes| == |e.node.meshes|
    ensures forall i :: 0 <= i < |e.node.meshes| ==> r.node.meshes[i] == UpdateBoundingBox(e.node.meshes[i], delta)
    ensures r == e.(node := e.node.(meshes := r.node.meshes))
  {
    var ms := e.node.meshes;
    e.(node := e.node.(meshes := seq(|ms|, i requires 0 <= i < |ms| => UpdateBoundingBox(ms[i], delta))))
  }

  /** `respawn(position, scale)`: the controller is put at the spawn
      position and reports `reported`; the node moves there, is enabled,
      forwards the displacement to its meshes and is healed to full. */
  function Respawn(e: Enemy, reported: Vec3): (r: Enemy)
    ensures r.node.position == reported && r.node.enabled
    ensures r.hp == r.maxHp == e.maxHp
    ensures r.damage == e.damage && r.spawn == e.spawn
    ensures r.node.name == e.node.name && r.node.children == e.node.children && r.node.angle == e.node.angle
    ensures |r.node.meshes| == |e.node.meshes|
    ensures forall i :: 0 <= i < |e.node.meshes| ==>
      r.node.meshes[i].shifts == e.node.meshes[i].shifts + [Sub(reported, e.node.position)]
  {
    var moved := e.(node := SetPosition(e.node, reported).(enabled := true));
    ForwardDelta(moved, Sub(reported, e.node.position)).(hp := e.maxHp)
  }

  /** `isDead()`: when hit points are used up the enemy is disabled and at
      once respawned; the answer says whether that happened. */
  function IsDead(e: Enemy, reported: Vec3): (r: (Enemy, bool))
    ensures r.1 <==> e.hp <= 0
    ensures r.1 ==> r.0 == Respawn(e, reported)
    ensures !r.1 ==> r.0 == e
  {
    if e.hp <= 0 then
      var disabled := e.(node := e.node.(enabled := false));
      (Respawn(disabled, reported), true)
    else (e, false)
  }

  /** After a respawn with positive maximum hit points, asking again finds
      the enemy alive. */
  lemma IsDeadThenAlive(e: Enemy, reported: Vec3, again: Vec3)
    requires e.maxHp > 0
    ensures IsDead(e, reported).1 ==> !IsDead(IsDead(e, reported).0, again).1
  {
  }

  /** `hitWithDamage(damage)`: returns the hit points left after the hit,
      which is the full amount if the hit was lethal. */
  function HitWithDamage(e: Enemy, damage: int, reported: Vec3): (r: (Enemy, int))
    ensures r.1 == r.0.hp
    ensures e.hp - damage > 0 ==> r.1 == e.hp - damage && r.0 == e.(hp := e.hp - damage)
    ensures e.hp - damage <= 0 ==> r.1 == e.maxHp && r.0.node.enabled && r.0.node.position == reported
  {
    var hurt := e.(hp := e.hp - damage);
    var (after, _) := IsDead(hurt, reported);
    (after, after.hp)
  }

  /** `move2(dir, speed, dt)`: the controller moves and reports `reported`;
      the node follows and forwards its displacement to every mesh. */
  function Move2(e: Enemy, reported: Vec3): (r: Enemy)
    ensures r.node.position == reported
    ensures |r.node.meshes| == |e.node.meshes|
    ensures forall i :: 0 <= i < |e.node.meshes| ==>
      r.node.meshes[i].shifts == e.node.meshes[i].shifts + [Sub(reported, e.node.position)]
    ensures r.hp == e.hp && r.maxHp == e.maxHp && r.node.enabled == e.node.enabled
  {
    ForwardDelta(e.(node := SetPosition(e.node, reported)), Sub(reported, e.node.position))
  }

  /** `move(forward, strafeLeft, dt)`: the node follows the controller but no
      delta is forwarded, so the meshes' boxes are not told about it. */
  function Move(e: Enemy, reported: Vec3): (r: Enemy)
    ensures r.node.position == reported
    ensures r.node.meshes == e.node.meshes
    ensures r == e.(node := e.node.(position := reported))
  {
    e.(node := SetPosition(e.node, reported))
  }

  /** `updateRotation(value)`: int(90 + value) % 360 with C++ truncation,
      stored as the yaw angle. */
  function UpdateRotation(e: Enemy, value: real): (r: Enemy)
    ensures -360.0 < r.node.angle < 360.0
    ensures 90.0 + value >= 0.0 ==> 0.0 <= r.node.angle < 360.0
    ensures Trunc(90.0 + value) < 0 ==> -360.0 < r.node.angle <= 0.0
    ensures r.node.angle == r.node.angle.Floor as real
    ensures (r.node.angle.Floor - Trunc(90.0 + value)) % 360 == 0
    ensures r == e.(node := Yaw(e.node, r.node.angle))
  {
    var a := TruncRem(Trunc(90.0 + value), 360);
    e.(node := Yaw(e.node, a as real))
  }

  /** A heading below −90 degrees gives a negative angle, as C++'s `%`
      keeps the dividend's sign: −10, not 350. */
  lemma UpdateRotationNegative(e: Enemy)
    ensures UpdateRotation(e, -100.0).node.angle == -10.0
  {
    assert Trunc(-10.0) == -10;
    assert TruncDiv(-10, 360) == 0;
  }

  /** `updateCharacter(dt)`: turn by 30 * dt (plus the 90 degree offset),
      then walk through `move`. */
  function UpdateCharacter(e: Enemy, dt: real, reported: Vec3): (r: Enemy)
    ensures r.node.angle == UpdateRotation(e, 30.0 * dt).node.angle
    ensures r.node.position == reported
    ensures r.node.meshes == e.node.meshes
  {
    Move(UpdateRotation(e, 30.0 * dt), reported)
  }

  /** `chase(playerPos, speed, dt)`: turn towards the player (the heading in
      degrees is an input, it comes from atan2), then walk through `move2`. */
  function Chase(e: Enemy, heading: real, reported: Vec3): (r: Enemy)
    ensures r.node.angle == UpdateRotation(e, heading).node.angle
    ensures r.node.position == reported
  {
    Move2(UpdateRotation(e, heading), reported)
  }

  // ---------------------------------------------------------------------
  // Delta forwarding over a run.

  /** The calls that move an enemy and forward the delta. */
  datatype Step =
    | Move2Step(reported: Vec3)
    | RespawnStep(reported: Vec3)
    | HitStep(damage: int, reported: Vec3)
    | ChaseStep(heading: real, reported: Vec3)

  function Apply(e: Enemy, s: Step): Enemy
  {
    match s
    case Move2Step(p) => Move2(e, p)
    case RespawnStep(p) => Respawn(e, p)
    case HitStep(d, p) => HitWithDamage(e, d, p).0
    case ChaseStep(h, p) => Chase(e, h, p)
  }

  function Run(e: Enemy, steps: seq<Step>): Enemy
    decreases |steps|
  {
    if steps == [] then e else Run(Apply(e, steps[0]), steps[1..])
  }

  /** Sum of a list of deltas. */
  function Sum(ds: seq<Vec3>): Vec3
  {
    if ds == [] then Zero3 else Add(Sum(ds[..|ds| - 1]), ds[|ds| - 1])
  }

  lemma SumSnoc(ds: seq<Vec3>, d: Vec3)
    ensures Sum(ds + [d]) == Add(Sum(ds), d)
  {
    assert (ds + [d])[..|ds|] == ds;
  }

  /** One step either forwards exactly its displacement to every mesh or,
      for a hit that is not lethal, neither moves nor forwards anything. */
  lemma StepShift(e: Enemy, s: Step, k: nat)
    requires k < |e.node.meshes|
    ensures |Apply(e, s).node.meshes| == |e.node.meshes|
    ensures (Apply(e, s).node.meshes[k].shifts == e.node.meshes[k].shifts
             && Apply(e, s).node.position == e.node.position)
         || Apply(e, s).node.meshes[k].shifts ==
              e.node.meshes[k].shifts + [Sub(Apply(e, s).node.position, e.node.position)]
  {
    match s
    case Move2Step(p) =>
    case RespawnStep(p) =>
    case HitStep(d, p) =>
      if e.hp - d <= 0 {
        var hurt := e.(hp := e.hp - d);
        assert Apply(e, s) == Respawn(hurt.(node := hurt.node.(enabled := false)), p);
      }
    case ChaseStep(h, p) =>
      assert UpdateRotation(e, h).node.position == e.node.position;
      assert UpdateRotation(e, h).node.meshes == e.node.meshes;
  }

  lemma StepForwards(e: Enemy, s: Step, k: nat)
    requires k < |e.node.meshes|
    ensures |Apply(e, s).node.meshes| == |e.node.meshes|
    ensures Apply(e, s).node.meshes[k].shifts[..|e.node.meshes[k].shifts|] == e.node.meshes[k].shifts
    ensures Add(e.node.position, Sum(Apply(e, s).node.meshes[k].shifts[|e.node.meshes[k].shifts|..]))
      == Apply(e, s).node.position
  {
    StepShift(e, s, k);
    var before := e.node.meshes[k].shifts;
    var after := Apply(e, s);
    if after.node.meshes[k].shifts == before && after.node.position == e.node.position {
      assert before[|before|..] == [];
      assert before[..|before|] == before;
    } else {
      var d := Sub(after.node.position, e.node.position);
      assert (before + [d])[|before|..] == [] + [d];
      assert (before + [d])[..|before|] == before;
      SingleDelta(e.node.position, after.node.position);
    }
  }

  /** Over any run of `move2`, `respawn`, `hitWithDamage` and `chase` calls,
      the deltas each mesh has been sent add up to the enemy's net
      displacement. */
  lemma {:induction false} ForwardedSumIsDisplacement(e: Enemy, steps: seq<Step>, k: nat)
    requires k < |e.node.meshes|
    ensures |Run(e, steps).node.meshes| == |e.node.meshes|
    ensures |e.node.meshes[k].shifts| <= |Run(e, steps).node.meshes[k].shifts|
    ensures Run(e, steps).node.meshes[k].shifts[..|e.node.meshes[k].shifts|] == e.node.meshes[k].shifts
    ensures Add(e.node.position, Sum(Run(e, steps).node.meshes[k].shifts[|e.node.meshes[k].shifts|..]))
      == Run(e, steps).node.position
    decreases |steps|
  {
    if steps == [] {
      assert e.node.meshes[k].shifts[|e.node.meshes[k].shifts|..] == [];
    } else {
      var e1 := Apply(e, steps[0]);
      StepForwards(e, steps[0], k);
      ForwardedSumIsDisplacement(e1, steps[1..], k);
      var s0 := e.node.meshes[k].shifts;
      var s1 := e1.node.meshes[k].shifts;
      var s2 := Run(e1, steps[1..]).node.meshes[k].shifts;
      assert s2[..|s0|] == s1[..|s0|] == s0;
      SumSplit(s2[|s0|..], |s1| - |s0|);
      assert s2[|s0|..][..|s1| - |s0|] == s1[|s0|..];
      assert s2[|s0|..][|s1| - |s0|..] == s2[|s1|..];
      AddChain(e.node.position, e1.node.position, Run(e1, steps[1..]).node.position,
               Sum(s1[|s0|..]), Sum(s2[|s1|..]), Sum(s2[|s0|..]));
    }
  }

  lemma AddChain(p0: Vec3, p1: Vec3, p2: Vec3, a: Vec3, b: Vec3, c: Vec3)
    requires c == Add(a, b) && Add(p0, a) == p1 && Add(p1, b) == p2
    ensures Add(p0, c) == p2
  {
  }

  lemma {:induction false} SumSplit(ds: seq<Vec3>, n: nat)
    requires n <= |ds|
    ensures Sum(ds) == Add(Sum(ds[..n]), Sum(ds[n..]))
    decreases |ds|
  {
    if n == |ds| {
      assert ds[..n] == ds;
      assert ds[n..] == [];
    } else {
      var init := ds[..|ds| - 1];
      var last := ds[|ds| - 1];
      assert init[..n] == ds[..n];
      assert ds[n..] == init[n..] + [last];
      calc {
        Sum(ds);
        Add(Sum(init), last);
        { SumSplit(init, n); }
        Add(Add(Sum(ds[..n]), Sum(init[n..])), last);
        { AddAssoc(Sum(ds[..n]), Sum(init[n..]), last); }
        Add(Sum(ds[..n]), Add(Sum(init[n..]), last));
        { SumSnoc(init[n..], last); }
        Add(Sum(ds[..n]), Sum(ds[n..]));
      }
    }
  }

  lemma AddAssoc(a: Vec3, b: Vec3, c: Vec3)
    ensures Add(Add(a, b), c) == Add(a, Add(b, c))
  {
  }

  /** Sending the single delta q − p from p lands on q. */
  lemma SingleDelta(p: Vec3, q: Vec3)
    ensures Add(p, Sum([Sub(q, p)])) == q
  {
    SumSnoc([], Sub(q, p));
  }

  /** `move` is the stale-box path: the position changes but no mesh hears
      of it, so after a move to a new place the deltas forwarded so far no
      longer add up to the displacement. */
  lemma MoveLeavesBoxStale(e: Enemy, reported: Vec3, k: nat)
    requires k < |e.node.meshes| && reported != e.node.position
    ensures Move(e, reported).node.meshes[k].shifts == e.node.meshes[k].shifts
    ensures Move(e, reported).node.position != e.node.position
  {
  }
}
