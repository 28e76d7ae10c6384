/** The player character (`Character`, a `Scene` of its own): hit points,
    the keyframe table of its blend animation, its heading and position.

    The physics controller that actually moves the character is outside the
    model; where the source reads the controller's position back, that
    position is an input (`reported`).  The third-person camera the
    character drags along is held by value. */
module Characters {
  import opened Linear
  import opened CInt
  import opened Wrappers
  import opened Nodes
  import opened Scenes
  import Cameras

  datatype Character = Character(scene: Scene, hp: int, angle: real, position: Vec3, camera: Cameras.Camera)

  /** Hit points a character starts with. */
  const StartHp: int := 100

  /** The keyframe order: the animation blends key 2 into 0, 0 into 2,
      2 into 1 and 1 back into 2. */
  const Order: seq<int> := [2, 0, 2, 1]

  /** Number of keyframe meshes (`pos_vbos`, `norm_vbos`). */
  const Keyframes: int := 3

  /** Animation steps per keyframe block. */
  const BlockLength: int := 15

  /** The constructor: 100 hit points, heading 0, and the `move(0, 0, 0)`
      it ends with, which places every registered node, the character and
      the camera where the controller reports. */
  function NewCharacter(s: Scene, camera: Cameras.Camera, reported: Vec3): (c: Character)
    ensures c.hp == StartHp && c.angle == 0.0
    ensures c.position == reported && c.camera == Cameras.SetPosition(camera, reported)
    ensures c.scene.enemies == s.enemies && c.scene.counter == s.counter
    ensures |c.scene.nodes| == |s.nodes|
    ensures forall i :: 0 <= i < |s.nodes| ==> c.scene.nodes[i] == s.nodes[i].(position := reported)
  {
    Relocate(Character(s, StartHp, 0.0, Zero3, camera), reported)
  }

  /** `getHP()`. */
  function GetHp(c: Character): int { c.hp }

  /** `inflictDamage(damage)`: subtracts and clamps at 0 from below only;
      returns the new hit points. */
  function InflictDamage(c: Character, damage: int): (r: (Character, int))
    ensures r.1 == r.0.hp == GetHp(r.0)
    ensures r.1 >= 0
    ensures c.hp - damage >= 0 ==> r.1 == c.hp - damage
    ensures c.hp - damage < 0 ==> r.1 == 0
    ensures r.0 == c.(hp := r.1)
  {
    var hp := c.hp - damage;
    var hp' := if hp < 0 then 0 else hp;
    (c.(hp := hp'), hp')
  }

  /** Two hits of non-negative damage clamp like one hit of their sum. */
  lemma InflictDamageTwice(c: Character, a: int, b: int)
    requires b >= 0
    ensures InflictDamage(InflictDamage(c, a).0, b) == InflictDamage(c, a + b)
  {
  }

  /** There is no upper clamp: negative damage heals past the starting
      hit points. */
  lemma NegativeDamageHealsPastStart(c: Character)
    requires c.hp == StartHp
    ensures InflictDamage(c, -1).1 == StartHp + 1 > StartHp
  {
  }

  /** Every keyframe index of the order table names one of the meshes. */
  lemma OrderIsValid()
    ensures |Order| == 4
    ensures forall i :: 0 <= i < |Order| ==> 0 <= Order[i] < Keyframes
  {
  }

  /** What `animate(step)` hands the compute shader: the blend factor and
      the two keyframe meshes it blends between. */
  datatype Frame = Frame(factor: real, input: int, output: int)

  /** `animate(step)`, with C++'s truncating `/` and `%`.  A negative step
      can index the order table at a negative position; that frame is
      `None`. */
  function Animate(step: int): (r: Option<Frame>)
    ensures step >= 0 ==> r.Some?
    ensures r.Some? ==> 0 <= r.value.input < Keyframes && 0 <= r.value.output < Keyframes
    ensures step >= 0 ==> 0.0 <= r.value.factor <= 14.0 / 15.0
    ensures step >= 0 ==> r.value.factor == (step % BlockLength) as real / BlockLength as real
    ensures step >= 0 ==> r.value.input == Order[(step / BlockLength) % 4]
    ensures step >= 0 ==> r.value.output == Order[(step / BlockLength + 1) % 4]
  {
    var block := TruncDiv(step, BlockLength);
    var i := TruncRem(block, 4);
    var o := TruncRem(block + 1, 4);
    OrderIsValid();
    if 0 <= i && 0 <= o then
      Some(Frame(TruncRem(step, BlockLength) as real / BlockLength as real, Order[i], Order[o]))
    else
      None
  }

  /** A block's target keyframe is the next block's source, so the blend
      never jumps. */
  lemma BlocksChain(k: int)
    requires k >= 0
    ensures Animate(BlockLength * k).value.output == Animate(BlockLength * (k + 1)).value.input
  {
    assert (BlockLength * k) / BlockLength == k;
    assert (BlockLength * (k + 1)) / BlockLength == k + 1;
  }

  /** Every block starts from the keyframe itself: the factor is 0 on its
      first step. */
  lemma BlockStartsAtKey(k: int)
    requires k >= 0
    ensures Animate(BlockLength * k).value.factor == 0.0
  {
    assert (BlockLength * k) % BlockLength == 0;
  }

  /** The animation repeats every four blocks (60 steps). */
  lemma AnimationPeriodic(step: int)
    requires step >= 0
    ensures Animate(step + 4 * BlockLength) == Animate(step)
  {
    var b := step / BlockLength;
    assert step + 4 * BlockLength == (b + 4) * BlockLength + step % BlockLength;
    assert (step + 4 * BlockLength) / BlockLength == b + 4;
    assert (step + 4 * BlockLength) % BlockLength == step % BlockLength;
    assert (b + 4) % 4 == b % 4;
    assert (b + 4 + 1) % 4 == (b + 1) % 4;
  }

  /** A step before the first block can select a negative table index. */
  lemma NegativeStepHasNoFrame()
    ensures Animate(-15).None?
  {
    assert TruncDiv(-15, BlockLength) == -1;
    assert TruncRem(-1, 4) == -1;
  }

  /** `setPosition(pos)`: copies the three coordinates; nothing else changes. */
  function SetPosition(c: Character, pos: Vec3): (r: Character)
    ensures r == c.(position := pos)
  {
    c.(position := Vec3(pos.x, pos.y, pos.z))
  }

  /** `updateRotation(angle)`: stores the heading and makes every registered
      node face it. */
  function UpdateRotation(c: Character, angle: real): (r: Character)
    ensures r.angle == angle && r.hp == c.hp && r.position == c.position && r.camera == c.camera
    ensures r.scene.enemies == c.scene.enemies && r.scene.counter == c.scene.counter
    ensures |r.scene.nodes| == |c.scene.nodes|
    ensures forall i :: 0 <= i < |c.scene.nodes| ==> r.scene.nodes[i] == c.scene.nodes[i].(angle := angle)
  {
    var ns := seq(|c.scene.nodes|, i requires 0 <= i < |c.scene.nodes| => Yaw(c.scene.nodes[i], angle));
    c.(angle := angle, scene := c.scene.(nodes := ns))
  }

  /** Only the last heading counts: rotating twice is rotating once. */
  lemma UpdateRotationOverwrites(c: Character, a: real, b: real)
    ensures UpdateRotation(UpdateRotation(c, a), b) == UpdateRotation(c, b)
  {
    var r1 := UpdateRotation(UpdateRotation(c, a), b);
    var r2 := UpdateRotation(c, b);
    assert r1.scene.nodes == r2.scene.nodes;
  }

  /** The tail of `move` and `relocate`: once the controller reports its
      position, every registered node, the character itself and the camera
      are placed there. */
  function Relocate(c: Character, reported: Vec3): (r: Character)
    ensures r.position == reported && r.hp == c.hp && r.angle == c.angle
    ensures r.camera == Cameras.SetPosition(c.camera, reported)
    ensures r.scene.enemies == c.scene.enemies && r.scene.counter == c.scene.counter
    ensures |r.scene.nodes| == |c.scene.nodes|
    ensures forall i :: 0 <= i < |c.scene.nodes| ==> r.scene.nodes[i] == c.scene.nodes[i].(position := reported)
  {
    var ns := seq(|c.scene.nodes|, i requires 0 <= i < |c.scene.nodes| => Nodes.SetPosition(c.scene.nodes[i], reported));
    SetPosition(c.(scene := c.scene.(nodes := ns), camera := Cameras.SetPosition(c.camera, reported)), reported)
  }

  /** After relocating, every node stands where the character does, and
      the camera holds the negated position, ready as a view translation. */
  lemma RelocateAligns(c: Character, reported: Vec3, i: nat)
    requires i < |c.scene.nodes|
    ensures Relocate(c, reported).scene.nodes[i].position == Relocate(c, reported).position
    ensures Neg(Cameras.GetPosition(Relocate(c, reported).camera)) == Relocate(c, reported).position
  {
    Cameras.SetPositionRoundTrip(c.camera, reported, reported, 0.0, 0.0);
  }
}
