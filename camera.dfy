/**
 * The two early cameras: a fixed axis-aligned viewport given by its focal
 * length and size, and the same viewport derived from a field of view.
 */
module FixedCameras {
  import opened Vectors
  import opened Utils

  datatype FixedCamera = FixedCamera(origin: Vec3, horizontal: Vec3, vertical: Vec3, lowerLeftCorner: Vec3)

  /** The lower-left corner `origin - horizontal / 2 - vertical / 2 - (0, 0, focal)`. */
  function Corner(origin: Vec3, horizontal: Vec3, vertical: Vec3, focal: real): Vec3 {
    Sub(Sub(Sub(origin, Div(horizontal, 2.0)), Div(vertical, 2.0)), Vec3(0.0, 0.0, focal))
  }

  /** `Camera::new` of the first renderer: a viewport `width` by `height` at distance `focal`. */
  function NewFixed(origin: Vec3, focal: real, width: real, height: real): (cam: FixedCamera)
    ensures cam.origin == origin
    ensures cam.horizontal == Vec3(width, 0.0, 0.0) && cam.vertical == Vec3(0.0, height, 0.0)
    ensures cam.lowerLeftCorner == Vec3(origin.x - width / 2.0, origin.y - height / 2.0, origin.z - focal)
  {
    var horizontal := Vec3(width, 0.0, 0.0);
    var vertical := Vec3(0.0, height, 0.0);
    FixedCamera(origin, horizontal, vertical, Corner(origin, horizontal, vertical, focal))
  }

  /** `tan(fov * pi / 360)`, half the viewport height for a unit focal distance. */
  function HalfHeight(fov: real, m: Maths): real {
    m.tan(fov * F32_PI / 360.0)
  }

  /** `Camera::new` from a vertical field of view and an aspect ratio, at focal distance 1. */
  function NewFromFov(origin: Vec3, fov: real, aspect: real, m: Maths): (cam: FixedCamera)
    ensures cam.origin == origin && cam.lowerLeftCorner.z == origin.z - 1.0
    ensures cam.vertical == Vec3(0.0, 2.0 * HalfHeight(fov, m), 0.0)
    ensures cam.horizontal == Vec3(aspect * cam.vertical.y, 0.0, 0.0)
  {
    var h := HalfHeight(fov, m);
    var horizontal := Vec3(aspect * 2.0 * h, 0.0, 0.0);
    var vertical := Vec3(0.0, 2.0 * h, 0.0);
    FixedCamera(origin, horizontal, vertical, Corner(origin, horizontal, vertical, 1.0))
  }

  /** The field-of-view camera is the fixed camera with focal length 1 and viewport `aspect * 2h` by `2h`. */
  lemma FovIsFixed(origin: Vec3, fov: real, aspect: real, m: Maths)
    ensures var h := HalfHeight(fov, m);
            NewFromFov(origin, fov, aspect, m) == NewFixed(origin, 1.0, aspect * 2.0 * h, 2.0 * h)
  {
  }

  /** `get_ray_from_coords`: from the origin towards the viewport point at `(u, v)`. */
  function GetRay(cam: FixedCamera, u: real, v: real): (r: Ray)
    ensures r.origin == cam.origin
    ensures At(r, 1.0) == Add(Add(cam.lowerLeftCorner, Scale(u, cam.horizontal)), Scale(v, cam.vertical))
  {
    Ray(cam.origin, Sub(Add(Add(cam.lowerLeftCorner, Scale(u, cam.horizontal)), Scale(v, cam.vertical)), cam.origin))
  }

  /** The centre of the viewport lies straight ahead, `focal` along the negative z axis. */
  lemma CentreRayLooksDownZ(origin: Vec3, focal: real, width: real, height: real)
    ensures GetRay(NewFixed(origin, focal, width, height), 0.5, 0.5).direction == Vec3(0.0, 0.0, -focal)
  {
  }

  /** The field-of-view camera looks at the point one unit down the negative z axis. */
  lemma FovCentreRay(origin: Vec3, fov: real, aspect: real, m: Maths)
    ensures GetRay(NewFromFov(origin, fov, aspect, m), 0.5, 0.5).direction == Vec3(0.0, 0.0, -1.0)
  {
    FovIsFixed(origin, fov, aspect, m);
    CentreRayLooksDownZ(origin, 1.0, aspect * 2.0 * HalfHeight(fov, m), 2.0 * HalfHeight(fov, m));
  }
}

/**
 * The positionable camera: a builder, an orthonormal frame from `look_at`
 * and `v_up`, and an optional thin lens for depth of field.
 */
module Cameras {
  import opened Vectors
  import opened Wrappers
  import opened Utils
  import FixedCameras

  datatype FocusData = FocusData(aperture: real, focusDistance: real)

  datatype CameraBuilder = CameraBuilder(
    origin: Vec3,
    vUp: Vec3,
    lookAt: Vec3,
    verticalFov: real,
    aspectRatio: real,
    focusData: Option<FocusData>)

  /** The camera's frame: `w` backwards, `u` to the right, `v` up. */
  datatype Basis = Basis(w: Vec3, u: Vec3, v: Vec3)

  datatype Camera = Camera(
    origin: Vec3,
    horizontal: Vec3,
    vertical: Vec3,
    lowerLeftCorner: Vec3,
    u: Vec3,
    v: Vec3,
    lensRadius: Option<real>)

  /** `CameraBuilder::default`. */
  function DefaultBuilder(): (b: CameraBuilder)
    ensures b.origin == Vec3(0.0, 0.0, 1.0) && b.vUp == Vec3(0.0, 1.0, 0.0) && b.lookAt == Vec3(0.0, 0.0, 1.0)
    ensures b.verticalFov == 40.0 && b.aspectRatio == 16.0 / 9.0 && b.focusData.None?
  {
    CameraBuilder(Vec3(0.0, 0.0, 1.0), Vec3(0.0, 1.0, 0.0), Vec3(0.0, 0.0, 1.0), 40.0, 16.0 / 9.0, None)
  }

  /** The default builder looks at its own origin, so the view direction `origin - look_at` is zero. */
  lemma DefaultLooksAtItself()
    ensures Sub(DefaultBuilder().origin, DefaultBuilder().lookAt) == Black
  {
  }

  function SetOrigin(b: CameraBuilder, origin: Vec3): (r: CameraBuilder)
    ensures r == b.(origin := origin)
  {
    b.(origin := origin)
  }

  function SetVUp(b: CameraBuilder, vUp: Vec3): (r: CameraBuilder)
    ensures r == b.(vUp := vUp)
  {
    b.(vUp := vUp)
  }

  function SetLookAt(b: CameraBuilder, lookAt: Vec3): (r: CameraBuilder)
    ensures r == b.(lookAt := lookAt)
  {
    b.(lookAt := lookAt)
  }

  function SetVerticalFov(b: CameraBuilder, verticalFov: real): (r: CameraBuilder)
    ensures r == b.(verticalFov := verticalFov)
  {
    b.(verticalFov := verticalFov)
  }

  function SetAspectRatio(b: CameraBuilder, aspectRatio: real): (r: CameraBuilder)
    ensures r == b.(aspectRatio := aspectRatio)
  {
    b.(aspectRatio := aspectRatio)
  }

  /** `set_focus`: there is no way back to a builder without focus data. */
  function SetFocus(b: CameraBuilder, focus: FocusData): (r: CameraBuilder)
    ensures r == b.(focusData := Some(focus))
  {
    b.(focusData := Some(focus))
  }

  /** Each setter touches its own field only, so setters of different fields commute. */
  lemma SettersCommute(b: CameraBuilder, origin: Vec3, lookAt: Vec3, fov: real, focus: FocusData)
    ensures SetLookAt(SetOrigin(b, origin), lookAt) == SetOrigin(SetLookAt(b, lookAt), origin)
    ensures SetFocus(SetVerticalFov(b, fov), focus) == SetVerticalFov(SetFocus(b, focus), fov)
    ensures SetFocus(SetOrigin(b, origin), focus).lookAt == b.lookAt
  {
  }

  /** The focus distance used by `Camera::new`: the given one, or 1 without focus data. */
  function FocusDistance(focus: Option<FocusData>): real {
    if focus.Some? then focus.value.focusDistance else 1.0
  }

  /**
   * `Camera::new`: the viewport is `2 tan(fov pi / 360)` high and `aspect`
   * times as wide, spanned along the frame `u`, `v` and placed
   * `focus_distance` along `-w`; the lens radius is half the aperture.
   */
  function NewCamera(origin: Vec3, fov: real, aspect: real, lookAt: Option<Vec3>, vUp: Option<Vec3>,
                     focus: Option<FocusData>, m: Maths): (cam: Camera)
    ensures cam.origin == origin
    ensures cam.lensRadius.Some? <==> focus.Some?
    ensures focus.Some? ==> cam.lensRadius == Some(focus.value.aperture / 2.0)
  {
    var viewportHeight := ViewportHeight(fov, m);
    var viewportWidth := aspect * viewportHeight;
    var frame := Frame(origin, lookAt, vUp, m);
    var w, u, v := frame.w, frame.u, frame.v;
    if focus.Some? then
      var horizontal := Scale(focus.value.focusDistance * viewportWidth, u);
      var vertical := Scale(focus.value.focusDistance * viewportHeight, v);
      var corner := Sub(Sub(Sub(origin, Div(horizontal, 2.0)), Div(vertical, 2.0)), Scale(focus.value.focusDistance, w));
      Camera(origin, horizontal, vertical, corner, u, v, Some(focus.value.aperture / 2.0))
    else
      var horizontal := Scale(viewportWidth, u);
      var vertical := Scale(viewportHeight, v);
      var corner := Sub(Sub(Sub(origin, Div(horizontal, 2.0)), Div(vertical, 2.0)), w);
      Camera(origin, horizontal, vertical, corner, u, v, None)
  }

  /** `2 tan(fov pi / 360)`: twice the half-height of the fixed field-of-view camera. */
  function ViewportHeight(fov: real, m: Maths): real {
    2.0 * FixedCameras.HalfHeight(fov, m)
  }

  /**
   * The camera frame: `w` points from the look-at point back to the origin,
   * `u = normalize(v_up x w)` and `v = w x u`; the up vector defaults to
   * (0, 1, 0) and the look-at point to (0, 0, -1).
   */
  function Frame(origin: Vec3, lookAt: Option<Vec3>, vUp: Option<Vec3>, m: Maths): Basis {
    var up := if vUp.Some? then vUp.value else Vec3(0.0, 1.0, 0.0);
    var target := if lookAt.Some? then lookAt.value else Vec3(0.0, 0.0, -1.0);
    var w := m.normalize(Sub(origin, target));
    var u := m.normalize(m.cross(up, w));
    Basis(w, u, m.cross(w, u))
  }

  /**
   * Without focus data the viewport is `2 tan(fov pi / 360)` high and
   * `aspect` times as wide, spanned along the frame vectors `u` and `v`.
   */
  lemma ViewportSpan(origin: Vec3, fov: real, aspect: real, lookAt: Option<Vec3>, vUp: Option<Vec3>, m: Maths)
    ensures var cam := NewCamera(origin, fov, aspect, lookAt, vUp, None, m);
            var height := ViewportHeight(fov, m);
            var frame := Frame(origin, lookAt, vUp, m);
            cam.u == frame.u && cam.v == frame.v &&
            cam.horizontal == Scale(aspect * height, frame.u) && cam.vertical == Scale(height, frame.v)
  {
  }

  /** The centre of the viewport lies `focus_distance` (1 without focus data) from the origin along `-w`. */
  lemma ViewportCentre(origin: Vec3, fov: real, aspect: real, lookAt: Option<Vec3>, vUp: Option<Vec3>,
                       focus: Option<FocusData>, m: Maths)
    ensures var cam := NewCamera(origin, fov, aspect, lookAt, vUp, focus, m);
            Target(cam, 0.5, 0.5) == Sub(origin, Scale(FocusDistance(focus), Frame(origin, lookAt, vUp, m).w))
  {
    var cam := NewCamera(origin, fov, aspect, lookAt, vUp, focus, m);
    var w := Frame(origin, lookAt, vUp, m).w;
    HalfwayCancels(origin, cam.horizontal, cam.vertical, w, FocusDistance(focus));
    if focus.None? {
      assert Scale(1.0, w) == w;
    }
  }

  /** `origin - h/2 - v/2 - d w + h/2 + v/2 = origin - d w`, componentwise. */
  lemma HalfwayCancels(origin: Vec3, h: Vec3, v: Vec3, w: Vec3, d: real)
    ensures Add(Add(Sub(Sub(Sub(origin, Div(h, 2.0)), Div(v, 2.0)), Scale(d, w)), Scale(0.5, h)), Scale(0.5, v))
            == Sub(origin, Scale(d, w))
  {
  }

  /** Without focus data the viewport is the one at focus distance 1, and there is no lens. */
  lemma NoFocusIsUnitFocus(origin: Vec3, fov: real, aspect: real, lookAt: Option<Vec3>, vUp: Option<Vec3>,
                           aperture: real, m: Maths)
    ensures NewCamera(origin, fov, aspect, lookAt, vUp, None, m) ==
            NewCamera(origin, fov, aspect, lookAt, vUp, Some(FocusData(aperture, 1.0)), m).(lensRadius := None)
  {
    var frame := Frame(origin, lookAt, vUp, m);
    var h := ViewportHeight(fov, m);
    UnitScale(aspect * h, frame.u);
    UnitScale(h, frame.v);
    assert Scale(1.0, frame.w) == frame.w;
  }

  lemma UnitScale(k: real, a: Vec3)
    ensures Scale(1.0 * k, a) == Scale(k, a)
  {
  }

  /** `CameraBuilder::build`: look-at point and up vector are always given. */
  function Build(b: CameraBuilder, m: Maths): (cam: Camera)
    ensures cam.origin == b.origin
    ensures cam.lensRadius.Some? <==> b.focusData.Some?
  {
    NewCamera(b.origin, b.verticalFov, b.aspectRatio, Some(b.lookAt), Some(b.vUp), b.focusData, m)
  }

  /** `Position::position`: where the camera sits. */
  function Position(cam: Camera): Vec3 {
    cam.origin
  }

  /** A built camera sits where the builder's origin says, whatever the setters after `set_origin`. */
  lemma BuiltPosition(b: CameraBuilder, origin: Vec3, fov: real, focus: FocusData, m: Maths)
    ensures Position(Build(SetFocus(SetVerticalFov(SetOrigin(b, origin), fov), focus), m)) == origin
  {
  }

  /** The viewport point `lower_left_corner + s horizontal + t vertical`. */
  function Target(cam: Camera, s: real, t: real): Vec3 {
    Add(Add(cam.lowerLeftCorner, Scale(s, cam.horizontal)), Scale(t, cam.vertical))
  }

  /**
   * `get_ray_from_coords`. With a lens, the origin moves by the disk sample
   * `disk` (the draw of `random_in_unit_disk`) scaled by the lens radius
   * along `u` and `v`, and the direction is corrected by the same offset.
   */
  function GetRay(cam: Camera, s: real, t: real, disk: Vec3): (r: Ray)
    ensures At(r, 1.0) == Target(cam, s, t)
    ensures cam.lensRadius.None? ==> r.origin == cam.origin
    ensures cam.lensRadius.Some? ==>
              r.origin == Add(cam.origin, Add(Scale(cam.lensRadius.value * disk.x, cam.u), Scale(cam.lensRadius.value * disk.y, cam.v)))
  {
    match cam.lensRadius
    case Some(lensRadius) =>
      var rd := Scale(lensRadius, disk);
      var offset := Add(Scale(rd.x, cam.u), Scale(rd.y, cam.v));
      ReachesTarget(Add(cam.origin, offset), Sub(Sub(Target(cam, s, t), cam.origin), offset), Target(cam, s, t), cam.origin, offset);
      Ray(Add(cam.origin, offset), Sub(Sub(Target(cam, s, t), cam.origin), offset))
    case None =>
      ReachesTarget(cam.origin, Sub(Target(cam, s, t), cam.origin), Target(cam, s, t), cam.origin, Black);
      Ray(cam.origin, Sub(Target(cam, s, t), cam.origin))
  }

  /** A ray from `o + d` towards `target - o - d` reaches `target` at time 1. */
  lemma ReachesTarget(from: Vec3, dir: Vec3, target: Vec3, o: Vec3, d: Vec3)
    requires (from == Add(o, d) && dir == Sub(Sub(target, o), d)) || (d == Black && from == o && dir == Sub(target, o))
    ensures At(Ray(from, dir), 1.0) == target
  {
  }


  /** Depth of field: every lens sample aims through the same point of the focal plane. */
  lemma SameFocalPoint(cam: Camera, s: real, t: real, disk1: Vec3, disk2: Vec3)
    ensures At(GetRay(cam, s, t, disk1), 1.0) == At(GetRay(cam, s, t, disk2), 1.0)
  {
  }

  /** The fixed camera of the first renderers, seen as a camera without a lens. */
  function Lensless(cam: FixedCameras.FixedCamera): (c: Camera)
    ensures c.lensRadius.None?
  {
    Camera(cam.origin, cam.horizontal, cam.vertical, cam.lowerLeftCorner, Black, Black, None)
  }

  /** A lensless camera casts exactly the rays of the fixed camera it was made from, whatever the disk sample. */
  lemma LenslessSameRay(cam: FixedCameras.FixedCamera, s: real, t: real, disk: Vec3)
    ensures GetRay(Lensless(cam), s, t, disk) == FixedCameras.GetRay(cam, s, t)
  {
  }
}
