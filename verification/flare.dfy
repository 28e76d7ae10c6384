/** Lens flares (`FlareManager`): the sun is projected to the screen and,
    while it is in front of the camera and within unit distance of the
    screen centre, a row of flare textures is laid out on the line from the
    sun through the centre.

    Drawing the textures is left out; `render` is modelled up to the call
    of the renderer, returning the flares it would draw and their
    brightness.  The square root inside `glm::length` is an input: the
    caller supplies a non-negative number whose square is the squared
    length. */
module Flares {
  import opened Linear

  /** A textured quad of the GUI (`GuiTexture`). */
  datatype Flare = Flare(texture: nat, position: Vec2, scale: Vec2)

  datatype FlareManager = FlareManager(flares: seq<Flare>, spacing: real)

  /** `screen_center`: the origin of normalised device coordinates. */
  const ScreenCenter: Vec2 := Vec2(0.0, 0.0)

  /** Where flare `i` goes: `i * spacing` steps along the sun-to-centre
      vector, starting on the sun. */
  function FlarePosition(sun: Vec2, toCenter: Vec2, spacing: real, i: nat): Vec2
  {
    Add2(sun, Scale2(toCenter, i as real * spacing))
  }

  /** `calcFlarePos(sunToCenter, sunCoords)`: every flare is moved to its
      place on the line; textures, scales and their order stay. */
  method CalcFlarePos(fm: FlareManager, toCenter: Vec2, sun: Vec2) returns (r: FlareManager)
    ensures r.spacing == fm.spacing && |r.flares| == |fm.flares|
    ensures forall i :: 0 <= i < |fm.flares| ==>
      r.flares[i] == fm.flares[i].(position := FlarePosition(sun, toCenter, fm.spacing, i))
  {
    var fs := fm.flares;
    var i := 0;
    while i < |fs|
      invariant 0 <= i <= |fs| && |fs| == |fm.flares|
      invariant forall j :: 0 <= j < i ==>
        fs[j] == fm.flares[j].(position := FlarePosition(sun, toCenter, fm.spacing, j))
      invariant forall j :: i <= j < |fs| ==> fs[j] == fm.flares[j]
    {
      var direction := Scale2(toCenter, i as real * fm.spacing);
      var flarePos := Add2(direction, sun);
      fs := fs[i := fs[i].(position := flarePos)];
      i := i + 1;
    }
    r := fm.(flares := fs);
  }

  /** The first flare sits on the sun, consecutive flares are one
      `spacing` step apart, and the flare whose offset is one whole
      sun-to-centre vector sits on the screen centre. */
  lemma FlareLayout(sun: Vec2, spacing: real, i: nat)
    ensures FlarePosition(sun, Sub2(ScreenCenter, sun), spacing, 0) == sun
    ensures Sub2(FlarePosition(sun, Sub2(ScreenCenter, sun), spacing, i + 1),
                 FlarePosition(sun, Sub2(ScreenCenter, sun), spacing, i))
         == Scale2(Sub2(ScreenCenter, sun), spacing)
    ensures i as real * spacing == 1.0 ==> FlarePosition(sun, Sub2(ScreenCenter, sun), spacing, i) == ScreenCenter
  {
  }

  /** `viewProjMatrix * vec4(sunPos, 1)`. */
  function Clip(m: Mat4, sunPos: Vec3): Vec4
  {
    MulVec(m, Vec4(sunPos.x, sunPos.y, sunPos.z, 1.0))
  }

  /** `convertToScreenSpace(viewProjMatrix, sunPos)`: the perspective
      division of x and y by w, with w kept as the third component; behind
      the camera (w ≤ 0) x and y are 0. */
  function ConvertToScreenSpace(m: Mat4, sunPos: Vec3): (r: Vec3)
    ensures r.z == Clip(m, sunPos).w
    ensures r.z <= 0.0 ==> r.x == 0.0 && r.y == 0.0
    ensures r.z > 0.0 ==> r.x * r.z == Clip(m, sunPos).x && r.y * r.z == Clip(m, sunPos).y
  {
    var coords := Clip(m, sunPos);
    if coords.w <= 0.0 then Vec3(0.0, 0.0, coords.w)
    else Vec3(coords.x / coords.w, coords.y / coords.w, coords.w)
  }

  /** `norm` is `glm::length(v)`. */
  predicate IsLength(norm: real, v: Vec2)
  {
    norm >= 0.0 && norm * norm == LengthSq2(v)
  }

  /** `screen_center - vec2(sunCoords.x, sunCoords.y)`. */
  function SunToCenter(sunCoords: Vec3): Vec2
  {
    Sub2(ScreenCenter, Vec2(sunCoords.x, sunCoords.y))
  }

  /** What one call of `render` produces: nothing, or the repositioned
      flares handed to the renderer with a brightness. */
  datatype Frame = Hidden | Drawn(brightness: real, sunCoords: Vec3)

  /** `render(viewProjMatrix, sunPos)`: nothing happens while the sun is
      behind the camera or at least unit distance from the screen centre;
      otherwise the flares are laid out and drawn with brightness
      1 − distance. */
  method Render(fm: FlareManager, m: Mat4, sunPos: Vec3, norm: real) returns (r: FlareManager, frame: Frame)
    requires IsLength(norm, SunToCenter(ConvertToScreenSpace(m, sunPos)))
    ensures frame.Drawn? <==>
      Clip(m, sunPos).w > 0.0 && LengthSq2(SunToCenter(ConvertToScreenSpace(m, sunPos))) < 1.0
    ensures frame.Hidden? ==> r == fm
    ensures frame.Drawn? ==> 0.0 < frame.brightness <= 1.0 && frame.sunCoords == ConvertToScreenSpace(m, sunPos)
    ensures r.spacing == fm.spacing && |r.flares| == |fm.flares|
    ensures frame.Drawn? ==> forall i :: 0 <= i < |fm.flares| ==>
      r.flares[i].position == FlarePosition(Vec2(frame.sunCoords.x, frame.sunCoords.y), SunToCenter(frame.sunCoords), fm.spacing, i)
  {
    var sunCoords := ConvertToScreenSpace(m, sunPos);
    if sunCoords.z <= 0.0 {
      return fm, Hidden;
    }
    var toCenter := SunToCenter(sunCoords);
    var brightness := 1.0 - norm;
    UnitLength(norm, toCenter);
    if brightness > 0.0 {
      r := CalcFlarePos(fm, toCenter, Vec2(sunCoords.x, sunCoords.y));
      frame := Drawn(brightness, sunCoords);
    } else {
      r, frame := fm, Hidden;
    }
  }

  /** A length is below 1 exactly when its square is. */
  lemma UnitLength(norm: real, v: Vec2)
    requires IsLength(norm, v)
    ensures norm < 1.0 <==> LengthSq2(v) < 1.0
  {
    if norm < 1.0 {
      assert norm * norm <= norm * 1.0;
    } else {
      assert norm * norm >= norm * 1.0;
    }
  }
}
