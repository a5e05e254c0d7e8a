/** MouseInputSurface: maps the pointer into the bounded rectangle of the
    viewport and projects it onto the horizontal throw plane. Every operation
    is a pure function of the component's fields and the pointer. */
module MouseInput {
  import opened Geometry
  import opened Viewport

  /** Trigonometry.PointIntersectsAPlane(rayOrigin, target, planePoint,
      planeNormal): the intersection of the line through rayOrigin and target
      with the plane, or None when there is none. Its code is not part of this
      model, so it is a parameter. */
  type PlaneIntersector = (Vec3, Vec3, Vec3, Vec3) -> Option<Vec3>

  /** The serialized fields of a MouseInputSurface. */
  datatype MouseInputSurface = MouseInputSurface(
    widthPercentage: real,
    heightPercentage: real,
    camera: Camera,
    throwHeight: real)

  /** The depth at which screen points are built before projection. */
  const ScreenDepth: real := 5.0

  /** What is assumed of the intersection routine: every point it reports lies
      on the plane it was asked about. */
  ghost predicate LandsOnPlane(intersect: PlaneIntersector) {
    forall a, b, o, n :: intersect(a, b, o, n).Some? ==> Dot(Sub(intersect(a, b, o, n).value, o), n) == 0.0
  }

  /** The point the throw plane passes through: a point at throw height. */
  function PlaneOrigin(s: MouseInputSurface): (o: Vec3)
    ensures o.y == s.throwHeight
  {
    Vec3(0.0, s.throwHeight, 0.0)
  }

  /** The plane through PlaneOrigin with normal up, the one every cast asks
      about, is exactly the set of points at throw height. */
  lemma ThrowPlaneIsThrowHeight(s: MouseInputSurface)
    ensures forall p :: Dot(Sub(p, PlaneOrigin(s)), Up) == 0.0 <==> p.y == s.throwHeight
  {
  }

  /** The screen rectangle the pointer is confined to. */
  function InputBounds(s: MouseInputSurface): Rect {
    Bounds(s.camera, s.widthPercentage, s.heightPercentage)
  }

  /** The pointer clamped into the input rectangle, at depth 5. */
  function ClampedScreenPoint(s: MouseInputSurface, mouseX: real, mouseY: real): (p: Vec3)
    ensures p.z == ScreenDepth
    ensures IsPercentage(s.widthPercentage) ==> InputBounds(s).width.min <= p.x <= InputBounds(s).width.max
    ensures IsPercentage(s.heightPercentage) ==> InputBounds(s).height.min <= p.y <= InputBounds(s).height.max
    ensures s.widthPercentage == 100.0 && 0.0 <= mouseX <= s.camera.scaledPixelWidth as real ==> p.x == mouseX
    ensures s.heightPercentage == 100.0 && 0.0 <= mouseY <= s.camera.scaledPixelHeight as real ==> p.y == mouseY
    ensures s.widthPercentage == 0.0 ==> p.x == s.camera.scaledPixelWidth as real / 2.0
    ensures s.heightPercentage == 0.0 ==> p.y == s.camera.scaledPixelHeight as real / 2.0
  {
    var rect := InputBounds(s);
    Vec3(Clamp(mouseX, rect.width.min, rect.width.max),
         Clamp(mouseY, rect.height.min, rect.height.max),
         ScreenDepth)
  }

  /** The centre of the viewport, at depth 5: the midpoint of the input
      rectangle, whatever the percentages, and so inside it whenever they
      are valid. */
  function CenterScreenPoint(s: MouseInputSurface): (p: Vec3)
    ensures p.z == ScreenDepth
    ensures p.x == (InputBounds(s).width.min + InputBounds(s).width.max) / 2.0
    ensures p.y == (InputBounds(s).height.min + InputBounds(s).height.max) / 2.0
    ensures IsPercentage(s.widthPercentage) ==> InputBounds(s).width.min <= p.x <= InputBounds(s).width.max
    ensures IsPercentage(s.heightPercentage) ==> InputBounds(s).height.min <= p.y <= InputBounds(s).height.max
  {
    Vec3(s.camera.scaledPixelWidth as real / 2.0, s.camera.scaledPixelHeight as real / 2.0, ScreenDepth)
  }

  /** Projects a screen point onto the throw plane (through PlaneOrigin, normal
      up) along the camera ray; when the intersection routine reports none,
      the unprojected screen point itself is returned. */
  function CastPointOnPlane(s: MouseInputSurface, intersect: PlaneIntersector, origin: Vec3): (r: Vec3)
    ensures var hit := intersect(s.camera.position, s.camera.screenToWorld(origin), PlaneOrigin(s), Up);
            && (hit.Some? ==> r == hit.value)
            && (hit.None? ==> r == origin)
    ensures LandsOnPlane(intersect) ==> r == origin || r.y == s.throwHeight
  {
    var worldPosition := s.camera.screenToWorld(origin);
    match intersect(s.camera.position, worldPosition, PlaneOrigin(s), Up)
    case Some(result) => result
    case None => origin
  }

  /** The pointer, clamped and projected: a point of the throw plane, or the
      clamped screen point itself when projection fails. */
  function GetMousePosition(s: MouseInputSurface, intersect: PlaneIntersector, mouseX: real, mouseY: real): (r: Vec3)
    ensures var p := ClampedScreenPoint(s, mouseX, mouseY);
            var hit := intersect(s.camera.position, s.camera.screenToWorld(p), PlaneOrigin(s), Up);
            && (hit.Some? ==> r == hit.value)
            && (hit.None? ==> r == p)
    ensures LandsOnPlane(intersect) ==> r == ClampedScreenPoint(s, mouseX, mouseY) || r.y == s.throwHeight
  {
    CastPointOnPlane(s, intersect, ClampedScreenPoint(s, mouseX, mouseY))
  }

  /** The viewport centre, projected: the automatic-roll target. */
  function GetCenterPosition(s: MouseInputSurface, intersect: PlaneIntersector): (r: Vec3)
    ensures var p := CenterScreenPoint(s);
            var hit := intersect(s.camera.position, s.camera.screenToWorld(p), PlaneOrigin(s), Up);
            && (hit.Some? ==> r == hit.value)
            && (hit.None? ==> r == p)
    ensures LandsOnPlane(intersect) ==> r == CenterScreenPoint(s) || r.y == s.throwHeight
  {
    CastPointOnPlane(s, intersect, CenterScreenPoint(s))
  }

  /** With both percentages at 0 the rectangle is the single centre pixel:
      wherever the pointer is, the dragged target is the automatic-roll
      target. */
  lemma ZeroPercentageIsCenter(s: MouseInputSurface, intersect: PlaneIntersector, mouseX: real, mouseY: real)
    requires s.widthPercentage == 0.0 && s.heightPercentage == 0.0
    ensures ClampedScreenPoint(s, mouseX, mouseY) == CenterScreenPoint(s)
    ensures GetMousePosition(s, intersect, mouseX, mouseY) == GetCenterPosition(s, intersect)
  {
    assert ClampedScreenPoint(s, mouseX, mouseY) == CenterScreenPoint(s);
  }

  /** With both percentages at 100 the rectangle is the whole viewport: an
      on-screen pointer reaches the projection unchanged. */
  lemma FullPercentageKeepsPointer(s: MouseInputSurface, intersect: PlaneIntersector, mouseX: real, mouseY: real)
    requires s.widthPercentage == 100.0 && s.heightPercentage == 100.0
    requires 0.0 <= mouseX <= s.camera.scaledPixelWidth as real
    requires 0.0 <= mouseY <= s.camera.scaledPixelHeight as real
    ensures GetMousePosition(s, intersect, mouseX, mouseY) == CastPointOnPlane(s, intersect, Vec3(mouseX, mouseY, ScreenDepth))
  {
    assert ClampedScreenPoint(s, mouseX, mouseY) == Vec3(mouseX, mouseY, ScreenDepth);
  }

  /** A reference solve of the line-plane intersection over the reals: the
      line through rayOrigin and target meets the plane unless it is parallel
      to it. It shows what LandsOnPlane asks of the intersection routine. */
  function RayPlaneIntersection(rayOrigin: Vec3, target: Vec3, planePoint: Vec3, planeNormal: Vec3): Option<Vec3> {
    var direction := Sub(target, rayOrigin);
    var denominator := Dot(direction, planeNormal);
    if denominator == 0.0 then None
    else Some(Add(rayOrigin, Scale(Dot(Sub(planePoint, rayOrigin), planeNormal) / denominator, direction)))
  }

  lemma DotAlongLine(a: Vec3, t: real, d: Vec3, o: Vec3, n: Vec3)
    ensures Dot(Sub(Add(a, Scale(t, d)), o), n) == Dot(Sub(a, o), n) + t * Dot(d, n)
  {
  }

  /** The reference solve meets the assumption made of the intersection routine. */
  lemma RayPlaneIntersectionLandsOnPlane()
    ensures LandsOnPlane(RayPlaneIntersection)
  {
    forall a, b, o, n | RayPlaneIntersection(a, b, o, n).Some?
      ensures Dot(Sub(RayPlaneIntersection(a, b, o, n).value, o), n) == 0.0
    {
      var d := Sub(b, a);
      var t := Dot(Sub(o, a), n) / Dot(d, n);
      DotAlongLine(a, t, d, o, n);
      assert t * Dot(d, n) == Dot(Sub(o, a), n);
    }
  }

  /** A target already on the plane is its own projection. */
  lemma RayPlaneIntersectionKeepsPlanePoints(a: Vec3, b: Vec3, o: Vec3, n: Vec3)
    requires Dot(Sub(b, o), n) == 0.0
    requires Dot(Sub(b, a), n) != 0.0
    ensures RayPlaneIntersection(a, b, o, n) == Some(b)
  {
    var d := Sub(b, a);
    assert Dot(Sub(o, a), n) == Dot(d, n);
    var t := Dot(Sub(o, a), n) / Dot(d, n);
    assert t == 1.0;
    assert Add(a, Scale(t, d)) == b;
  }

  /** Cast with the reference solve: a screen point whose world point already
      lies at throw height projects onto that world point itself, provided
      the camera is not at throw height. */
  lemma CastKeepsPointsOnThrowPlane(s: MouseInputSurface, origin: Vec3)
    requires s.camera.screenToWorld(origin).y == s.throwHeight
    requires s.camera.position.y != s.throwHeight
    ensures CastPointOnPlane(s, RayPlaneIntersection, origin) == s.camera.screenToWorld(origin)
  {
    var a, b := s.camera.position, s.camera.screenToWorld(origin);
    assert Dot(Sub(b, PlaneOrigin(s)), Up) == 0.0;
    assert Dot(Sub(b, a), Up) == b.y - a.y;
    RayPlaneIntersectionKeepsPlanePoints(a, b, PlaneOrigin(s), Up);
  }
}
