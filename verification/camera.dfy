/** The third-person camera (`PlayerCamera`): yaw and pitch in degrees, a
    zoom distance kept along the view axis, and a position that follows the
    player's controller.

    The cached matrices are kept symbolic: the view matrix is the single
    translation by the zoom, and the rotation matrix is recorded by the two
    angles it was last built from (the sines and cosines glm computes from
    them are outside this model). */
module Cameras {
  import opened Linear
  import opened Transforms

  /** `MINUS_90_DEGREE` and `PLUS_90_DEGREE`. */
  const MinPitch: real := -90.0
  const MaxPitch: real := 90.0

  /** The initial `_zoom`. */
  const InitialZoom: real := -6.0

  datatype Orientation = Orientation(yaw: real, pitch: real)

  datatype Camera = Camera(
    yaw: real,
    pitch: real,
    zoom: real,
    position: Vec3,
    view: Mat,             // `_viewMatrix`
    rotation: Orientation  // the angles `_rotationMatrix` was built from
  )

  /** `glm::translate(mat4(1), vec3(0, 0, zoom))`. */
  function ZoomView(zoom: real): Mat
  {
    [Translate(Vec3(0.0, 0.0, zoom))]
  }

  /** What every public operation keeps: the cached matrices agree with
      the angles and the zoom, and the pitch lies within ±90 degrees. */
  predicate Consistent(c: Camera)
  {
    && c.view == ZoomView(c.zoom)
    && c.rotation == Orientation(c.yaw, c.pitch)
    && MinPitch <= c.pitch <= MaxPitch
  }

  /** The constructor: yaw and pitch 0, zoom −6, the view matrix translated
      by the zoom and the rotation matrix built from the zero angles.  The
      projection matrix only depends on the arguments and is left out. */
  function NewCamera(start: Vec3): (c: Camera)
    ensures Consistent(c)
    ensures c.yaw == 0.0 && c.pitch == 0.0 && c.zoom == InitialZoom && c.position == start
  {
    Camera(0.0, 0.0, InitialZoom, start, ZoomView(InitialZoom), Orientation(0.0, 0.0))
  }

  /** The pitch limit as an independent definition. */
  function Clamp(p: real): (r: real)
  {
    if p < MinPitch then MinPitch else if p > MaxPitch then MaxPitch else p
  }

  /** `rotate(xRotate, yRotate)`: yaw grows without wrapping, pitch is
      pushed up to −90 and then down to 90, and the rotation matrix is
      rebuilt from the new angles. */
  function Rotate(c: Camera, dx: real, dy: real): (r: Camera)
    requires Consistent(c)
    ensures Consistent(r)
    ensures r.yaw == c.yaw + dx
    ensures r.pitch == Clamp(c.pitch + dy)
    ensures r.zoom == c.zoom && r.position == c.position
  {
    var p0 := c.pitch + dy;
    var p1 := if p0 < MinPitch then MinPitch else p0;
    var p2 := if p1 > MaxPitch then MaxPitch else p1;
    c.(yaw := c.yaw + dx, pitch := p2, rotation := Orientation(c.yaw + dx, p2))
  }

  /** The clamp leaves an in-range pitch alone and pins the others to the
      limit they crossed. */
  lemma ClampCases(p: real)
    ensures MinPitch <= Clamp(p) <= MaxPitch
    ensures MinPitch <= p <= MaxPitch <==> Clamp(p) == p
    ensures p < MinPitch <==> Clamp(p) == MinPitch && p != MinPitch
    ensures p > MaxPitch <==> Clamp(p) == MaxPitch && p != MaxPitch
  {
  }

  /** Turning the pitch twice in the same direction ends where one turn by
      the sum ends: the limits absorb any excess. */
  lemma RotateSameDirection(c: Camera, dx1: real, dy1: real, dx2: real, dy2: real)
    requires Consistent(c)
    requires (dy1 >= 0.0 && dy2 >= 0.0) || (dy1 <= 0.0 && dy2 <= 0.0)
    ensures Rotate(Rotate(c, dx1, dy1), dx2, dy2) == Rotate(c, dx1 + dx2, dy1 + dy2)
  {
  }

  /** Turning the pitch up past the limit and straight back is not
      undone: the clamp forgets the excess. */
  lemma RotateNotReversible(c: Camera)
    requires Consistent(c) && c.pitch == 0.0
    ensures Rotate(Rotate(c, 0.0, 120.0), 0.0, -120.0).pitch == -30.0
  {
  }

  /** A rotation of the camera by each pair in turn. */
  function Rotations(c: Camera, turns: seq<(real, real)>): (r: Camera)
    requires Consistent(c)
    ensures Consistent(r)
    decreases |turns|
  {
    if turns == [] then c else Rotations(Rotate(c, turns[0].0, turns[0].1), turns[1..])
  }

  function SumX(turns: seq<(real, real)>): real
    decreases |turns|
  {
    if turns == [] then 0.0 else turns[0].0 + SumX(turns[1..])
  }

  /** `getYaw()`. */
  function GetYaw(c: Camera): (yaw: real)
    ensures yaw == c.rotation.yaw || !Consistent(c)
  {
    c.yaw
  }

  /** `getYaw` reports the sum of every horizontal turn since the start,
      whatever the vertical turns were. */
  lemma {:induction false} YawAccumulates(c: Camera, turns: seq<(real, real)>)
    requires Consistent(c)
    ensures GetYaw(Rotations(c, turns)) == GetYaw(c) + SumX(turns)
    decreases |turns|
  {
    if turns != [] {
      YawAccumulates(Rotate(c, turns[0].0, turns[0].1), turns[1..]);
    }
  }

  /** `move(forward, strafeLeft)`: the position moves along z and x; y and
      the rest stay. */
  function Move(c: Camera, forward: real, strafeLeft: real): (r: Camera)
    ensures r.position == Add(c.position, Vec3(strafeLeft, 0.0, forward))
    ensures r == c.(position := r.position)
    ensures Consistent(c) ==> Consistent(r)
  {
    c.(position := c.position.(z := c.position.z + forward, x := c.position.x + strafeLeft))
  }

  /** Moves compose by adding their steps, in either order. */
  lemma MoveComposes(c: Camera, f1: real, s1: real, f2: real, s2: real)
    ensures Move(Move(c, f1, s1), f2, s2) == Move(c, f1 + f2, s1 + s2)
    ensures Move(Move(c, f1, s1), f2, s2) == Move(Move(c, f2, s2), f1, s1)
  {
  }

  /** `setPosition(pos)`: the camera keeps the negated controller position,
      ready to be used as the translation of the view. */
  function SetPosition(c: Camera, pos: Vec3): (r: Camera)
    ensures Add(r.position, pos) == Vec3(0.0, 0.0, 0.0)
    ensures r == c.(position := r.position)
    ensures Consistent(c) ==> Consistent(r)
  {
    c.(position := Vec3(-pos.x, -pos.y, -pos.z))
  }

  /** `getPosition()`. */
  function GetPosition(c: Camera): (p: Vec3)
    ensures p == c.position
  {
    c.position
  }

  /** The controller position can be read back by negating, and a later
      `setPosition` overrides every earlier one and every `move`. */
  lemma SetPositionRoundTrip(c: Camera, pos: Vec3, later: Vec3, f: real, s: real)
    ensures Neg(GetPosition(SetPosition(c, pos))) == pos
    ensures SetPosition(Move(SetPosition(c, pos), f, s), later) == SetPosition(c, later)
  {
  }

  /** `updateZoom(zoom)`: only a different zoom rebuilds the view matrix. */
  function UpdateZoom(c: Camera, zoom: real): (r: Camera)
    requires Consistent(c)
    ensures Consistent(r)
    ensures r.zoom == zoom
    ensures zoom == c.zoom ==> r == c
    ensures r.yaw == c.yaw && r.pitch == c.pitch && r.position == c.position
  {
    if c.zoom != zoom then c.(zoom := zoom, view := ZoomView(zoom)) else c
  }

  /** Skipping the rebuild when the zoom is unchanged is invisible: the
      result is always the camera with the new zoom and its view, and a
      second identical update changes nothing. */
  lemma UpdateZoomUniform(c: Camera, zoom: real)
    requires Consistent(c)
    ensures UpdateZoom(c, zoom) == c.(zoom := zoom, view := ZoomView(zoom))
    ensures UpdateZoom(UpdateZoom(c, zoom), zoom) == UpdateZoom(c, zoom)
  {
  }
}
