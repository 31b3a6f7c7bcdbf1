/** The photo backdrop quad (apps/web/src/photoContext.ts) and the viewer's
    calibrated projection matrix (apps/web/src/SceneViewer.tsx), both held
    against the pinhole projection. */
module PhotoQuad {
  import opened Wrappers
  import opened Reals
  import opened Mat3
  import opened Projection

  datatype FrameCameraData = FrameCamera(width: real, height: real, intrinsics: Intrinsics)

  type FrameCamera = c: FrameCameraData | c.width > 0.0 && c.height > 0.0
    witness FrameCamera(1.0, 1.0, Intrinsics(1.0, 1.0, 0.0, 0.0))

  datatype Frame = Frame(width: real, height: real, centerX: real, centerY: real, centerZ: real)

  /** photoContextFrameAtDepth. */
  function FrameAtDepth(camera: FrameCamera, depth: real): Frame {
    var i := camera.intrinsics;
    Frame(depth * camera.width / i.fx,
          depth * camera.height / i.fy,
          depth * (camera.width / 2.0 - i.cx) / i.fx,
          depth * (i.cy - camera.height / 2.0) / i.fy,
          -depth)
  }

  /** The quad point at texture coordinates (s, t): (0, 0) is bottom left, (1, 1) top right. */
  function QuadPoint(frame: Frame, s: real, t: real): Vec {
    Vec(frame.centerX + (s - 0.5) * frame.width, frame.centerY + (t - 0.5) * frame.height, frame.centerZ)
  }

  /** One axis of the quad: f (x / d) for x at fraction s of an extent around a centre. */
  lemma QuadAxis(f: real, d: real, extent: real, centre: real, s: real, x: real)
    requires f > 0.0 && d > 0.0
    requires x == d * centre / f + (s - 0.5) * (d * extent / f)
    ensures f * (x / d) == centre + (s - 0.5) * extent
  {
    var p, q, k, y := d * centre / f, d * extent / f, s - 0.5, x / d;
    DivTimes(d * centre, f);
    DivTimes(d * extent, f);
    DivTimes(x, d);
    MulEqual(q * f, d * extent, k);
    assert x * f == (centre + k * extent) * d;
    MulEqual(y * d, x, f);
    Cancel(f * y, centre + k * extent, d);
  }

  /** Every point of the quad projects to the photo pixel its texture coordinates name. */
  lemma QuadFitsPhoto(camera: FrameCamera, depth: real, s: real, t: real)
    requires depth > 0.0
    ensures IsSeenAt(Pinhole(camera.intrinsics, QuadPoint(FrameAtDepth(camera, depth), s, t)),
                     s * camera.width, (1.0 - t) * camera.height, depth)
  {
    var i, p := camera.intrinsics, QuadPoint(FrameAtDepth(camera, depth), s, t);
    QuadAxis(i.fx, depth, camera.width, camera.width / 2.0 - i.cx, s, p.x);
    QuadAxis(i.fy, depth, camera.height, i.cy - camera.height / 2.0, t, p.y);
    PinholeAt(i, p, depth);
  }

  /** The image is pixel (u, v) at the given depth. */
  ghost predicate IsSeenAt(image: Option<Projected>, u: real, v: real, depth: real) {
    image.Some? && image.value.u == u && image.value.v == v && image.value.depth == depth
  }

  lemma PinholeAt(i: Intrinsics, p: Vec, d: real)
    requires d > 0.0 && p.z == -d
    ensures IsSeenAt(Pinhole(i, p), i.fx * (p.x / d) + i.cx, i.cy - i.fy * (p.y / d), d)
  {
    var depth := -p.z;
    DivTimes(p.x, d);
    DivTimes(p.y, d);
    DivUnique(p.x, depth, p.x / d);
    DivUnique(p.y, depth, p.y / d);
    MulEqual(p.x / depth, p.x / d, i.fx);
    MulEqual(p.y / depth, p.y / d, i.fy);
  }

  /** The four corners land on the four corners of the photo, wherever the camera is posed. */
  lemma QuadCornersFitPhoto(trig: Trig, pose: Transform, camera: FrameCamera, depth: real, right: bool, top: bool)
    requires depth > 0.0
    ensures var s, t := if right then 1.0 else 0.0, if top then 1.0 else 0.0;
            var corner := TransformLocalPoint(trig, pose, QuadPoint(FrameAtDepth(camera, depth), s, t));
            IsSeenAt(ProjectWorldPoint(trig, camera.intrinsics, pose, corner),
                     if right then camera.width else 0.0, if top then 0.0 else camera.height, depth)
  {
    var s, t := if right then 1.0 else 0.0, if top then 1.0 else 0.0;
    QuadFitsPhoto(camera, depth, s, t);
    ProjectPosed(trig, camera.intrinsics, pose, QuadPoint(FrameAtDepth(camera, depth), s, t));
    hide QuadPoint;
    hide TransformLocalPoint;
    hide ProjectWorldPoint;
  }

  ghost predicate OnQuad(frame: Frame, p: Vec) {
    exists s: real, t: real :: 0.0 <= s <= 1.0 && 0.0 <= t <= 1.0 && p == QuadPoint(frame, s, t)
  }

  /** The quad is exactly what the photo shows at that depth: a point in front of
      the camera lies on the quad iff its pixel lies inside the photo. */
  lemma QuadIsVisibleSection(camera: FrameCamera, image: Projected, p: Vec)
    requires Pinhole(camera.intrinsics, p) == Some(image)
    ensures OnQuad(FrameAtDepth(camera, image.depth), p)
       <==> 0.0 <= image.u <= camera.width && 0.0 <= image.v <= camera.height
  {
    assert image.depth > 0.0;
    hide *;
    if OnQuad(FrameAtDepth(camera, image.depth), p) {
      QuadPixelInside(camera, image, p);
    }
    if 0.0 <= image.u <= camera.width && 0.0 <= image.v <= camera.height {
      PixelOnQuad(camera, image, p);
    }
  }

  lemma QuadPixelInside(camera: FrameCamera, image: Projected, p: Vec)
    requires image.depth > 0.0 && Pinhole(camera.intrinsics, p) == Some(image)
    requires OnQuad(FrameAtDepth(camera, image.depth), p)
    ensures 0.0 <= image.u <= camera.width && 0.0 <= image.v <= camera.height
  {
    hide Pinhole;
    hide QuadPoint;
    hide FrameAtDepth;
    var frame := FrameAtDepth(camera, image.depth);
    var s: real, t: real :| 0.0 <= s <= 1.0 && 0.0 <= t <= 1.0 && p == QuadPoint(frame, s, t);
    QuadFitsPhoto(camera, image.depth, s, t);
    Interpolates(s, camera.width);
    Interpolates(1.0 - t, camera.height);
  }

  lemma PixelOnQuad(camera: FrameCamera, image: Projected, p: Vec)
    requires image.depth > 0.0 && Pinhole(camera.intrinsics, p) == Some(image)
    requires 0.0 <= image.u <= camera.width && 0.0 <= image.v <= camera.height
    ensures OnQuad(FrameAtDepth(camera, image.depth), p)
  {
    hide Pinhole;
    hide Unproject;
    var s, t := image.u / camera.width, 1.0 - image.v / camera.height;
    FractionOf(image.u, camera.width);
    FractionOf(image.v, camera.height);
    var q := QuadPoint(FrameAtDepth(camera, image.depth), s, t);
    QuadFitsPhoto(camera, image.depth, s, t);
    assert s * camera.width == image.u && (1.0 - t) * camera.height == image.v;
    assert Pinhole(camera.intrinsics, q) == Some(image);
    PinholeInverse(camera.intrinsics, image, p);
    PinholeInverse(camera.intrinsics, image, q);
    assert p == q;
  }

  lemma Interpolates(s: real, w: real)
    requires 0.0 <= s <= 1.0 && w > 0.0
    ensures 0.0 <= s * w <= w
  {
  }

  lemma FractionOf(a: real, w: real)
    requires 0.0 <= a <= w && w > 0.0
    ensures 0.0 <= a / w <= 1.0 && (a / w) * w == a
  {
  }

  /** Units do not matter: the viewer's metres and the scene's millimetres give the same pixel. */
  lemma PinholeScaleFree(intrinsics: Intrinsics, k: real, p: Vec)
    requires k > 0.0
    ensures Pinhole(intrinsics, p).Some? <==> Pinhole(intrinsics, Scale(k, p)).Some?
    ensures Pinhole(intrinsics, p).Some? ==>
              && Pinhole(intrinsics, Scale(k, p)).value.u == Pinhole(intrinsics, p).value.u
              && Pinhole(intrinsics, Scale(k, p)).value.v == Pinhole(intrinsics, p).value.v
  {
    var d := -p.z;
    assert -(k * p.z) == k * d;
    if d > 0.0 {
      PositiveProduct(k, d);
      CommonFactor(k, p.x, d);
      CommonFactor(k, p.y, d);
    } else if d < 0.0 {
      PositiveProduct(k, -d);
    }
  }

  lemma CommonFactor(k: real, a: real, d: real)
    requires k > 0.0 && d > 0.0 && k * d > 0.0
    ensures (k * a) / (k * d) == a / d
  {
    var q := a / d;
    assert a == q * d;
    assert k * a == q * (k * d);
  }

  // ---------------------------------------------------------------------
  // The viewer's projection matrix
  // ---------------------------------------------------------------------

  const NEAR: real := 0.01
  const FAR: real := 1000.0

  /** Rows 0-2 of camera.projectionMatrix applied to (p, 1); row 3 gives -p.z. */
  function Clip(camera: FrameCamera, p: Vec): Vec {
    var i := camera.intrinsics;
    Vec((2.0 * i.fx) / camera.width * p.x + (1.0 - (2.0 * i.cx) / camera.width) * p.z,
        (2.0 * i.fy) / camera.height * p.y + ((2.0 * i.cy) / camera.height - 1.0) * p.z,
        -(FAR + NEAR) / (FAR - NEAR) * p.z + (-2.0 * FAR * NEAR) / (FAR - NEAR))
  }

  /** Normalised device coordinates after the perspective division. */
  function Ndc(camera: FrameCamera, p: Vec): Vec
    requires p.z < 0.0
  {
    var clip := Clip(camera, p);
    Vec(clip.x / -p.z, clip.y / -p.z, clip.z / -p.z)
  }

  /** One axis of the clip row over the depth is the pixel rescaled to [-1, 1]. */
  lemma HorizontalNdc(f: real, c: real, w: real, a: real, z: real, d: real, clip: real, image: real)
    requires w > 0.0 && d > 0.0 && z == -d
    requires clip == (2.0 * f) / w * a + (1.0 - (2.0 * c) / w) * z
    requires image == f * (a / d) + c
    ensures clip / d == 2.0 * image / w - 1.0
  {
    var q, g, e := a / d, (2.0 * f) / w, (2.0 * c) / w;
    DivTimes(a, d);
    DivTimes(2.0 * f, w);
    DivTimes(2.0 * c, w);
    MulEqual(q * d, a, g);
    assert clip == (g * q + e - 1.0) * d;
    DivUnique(clip, d, g * q + e - 1.0);
    MulEqual(g * w, 2.0 * f, q);
    assert 2.0 * image == (g * q + e) * w;
    DivUnique(2.0 * image, w, g * q + e);
  }

  /** The vertical axis points up on screen and down in the photo. */
  lemma VerticalNdc(f: real, c: real, h: real, a: real, z: real, d: real, clip: real, image: real)
    requires h > 0.0 && d > 0.0 && z == -d
    requires clip == (2.0 * f) / h * a + ((2.0 * c) / h - 1.0) * z
    requires image == c - f * (a / d)
    ensures clip / d == 1.0 - 2.0 * image / h
  {
    var q, g, e := a / d, (2.0 * f) / h, (2.0 * c) / h;
    DivTimes(a, d);
    DivTimes(2.0 * f, h);
    DivTimes(2.0 * c, h);
    MulEqual(q * d, a, g);
    assert clip == (g * q - e + 1.0) * d;
    DivUnique(clip, d, g * q - e + 1.0);
    MulEqual(g * h, 2.0 * f, q);
    assert 2.0 * image == (e - g * q) * h;
    DivUnique(2.0 * image, h, e - g * q);
  }

  /** The viewer draws every point in front of the camera where the projection puts it,
      and keeps exactly the depths between the near and the far plane. */
  lemma ViewerAgreesWithProjection(camera: FrameCamera, p: Vec)
    requires p.z < 0.0
    ensures var image := Pinhole(camera.intrinsics, p).value;
            var ndc := Ndc(camera, p);
            && ndc.x == 2.0 * image.u / camera.width - 1.0
            && ndc.y == 1.0 - 2.0 * image.v / camera.height
            && (-1.0 <= ndc.z <= 1.0 <==> 0.01 <= image.depth <= 1000.0)
  {
    var i, d, clip, image := camera.intrinsics, -p.z, Clip(camera, p), Pinhole(camera.intrinsics, p).value;
    HorizontalNdc(i.fx, i.cx, camera.width, p.x, p.z, d, clip.x, image.u);
    VerticalNdc(i.fy, i.cy, camera.height, p.y, p.z, d, clip.y, image.v);
    DepthWindow(p.z, d, clip.z);
  }

  lemma DepthWindow(z: real, d: real, clip: real)
    requires d > 0.0 && z == -d
    requires clip == -(FAR + NEAR) / (FAR - NEAR) * z + (-2.0 * FAR * NEAR) / (FAR - NEAR)
    ensures -1.0 <= clip / d <= 1.0 <==> NEAR <= d <= FAR
  {
    DivTimes(clip, d);
    ScaleLe(-1.0, clip / d, d);
    ScaleLe(clip / d, 1.0, d);
  }
}
