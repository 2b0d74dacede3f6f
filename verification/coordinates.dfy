/** The pixel-to-scene part of `Window.pixel_coords_to_space_coords`: a pixel
    point is scaled by the ratio of the fixed frame to the window's pixel
    size, and, for an absolute point, moved so that the window centre lands on
    the origin. The result is the fixed-frame point the scene's frame then
    converts on its own. */
module Coordinates {

  datatype Vec3 = Vec3(x: real, y: real, z: real)

  const Zero := Vec3(0.0, 0.0, 0.0)

  function Add(a: Vec3, b: Vec3): Vec3 {
    Vec3(a.x + b.x, a.y + b.y, a.z + b.z)
  }

  function Scale(k: real, a: Vec3): Vec3 {
    Vec3(k * a.x, k * a.y, k * a.z)
  }

  /** `FRAME_SHAPE`: the width and height of the fixed frame in scene units. */
  datatype FrameShape = FrameShape(width: real, height: real)

  predicate Nondegenerate(frame: FrameShape) {
    frame.width != 0.0 && frame.height != 0.0
  }

  /** Half the fixed frame, the shift applied to absolute points. */
  function HalfFrame(frame: FrameShape): Vec3 {
    Vec3(0.5 * frame.width, 0.5 * frame.height, 0.0)
  }

  /** The pixel point a fixed-frame point stands for: the inverse of
      `FixedFramePoint` for the same window size and mode. */
  function PixelPoint(frame: FrameShape, pixelWidth: int, pixelHeight: int, p: Vec3, relative: bool): (real, real)
    requires Nondegenerate(frame)
  {
    var x := if relative then p.x else p.x + 0.5 * frame.width;
    var y := if relative then p.y else p.y + 0.5 * frame.height;
    (x * pixelWidth as real / frame.width, y * pixelHeight as real / frame.height)
  }

  /** One axis of the inverse: scaling a pixel coordinate into the frame,
      shifting by `shift * f` and back, and scaling back gives it again. */
  lemma AxisInverts(f: real, n: real, v: real, shift: real)
    requires f != 0.0 && n != 0.0
    ensures ((f / n * v - shift * f) + shift * f) * n / f == v
  {
    var x := f / n * v;
    assert (x - shift * f) + shift * f == x;
    assert x * n / f == (f / n * n) * v / f;
    assert f / n * n == f;
    assert f * v / f == v;
  }

  /** The shape of every point `FixedFramePoint` builds, taken back by `PixelPoint`. */
  lemma PixelPointInverts(frame: FrameShape, pixelWidth: int, pixelHeight: int, px: real, py: real, relative: bool)
    requires pixelWidth != 0 && pixelHeight != 0
    ensures var x := frame.width / pixelWidth as real * px;
            var y := frame.height / pixelHeight as real * py;
            var shift := if relative then 0.0 else 0.5;
            Nondegenerate(frame) ==>
              PixelPoint(frame, pixelWidth, pixelHeight, Vec3(x - shift * frame.width, y - shift * frame.height, 0.0), relative) == (px, py)
  {
    if Nondegenerate(frame) {
      var shift := if relative then 0.0 else 0.5;
      var x := frame.width / pixelWidth as real * px;
      var y := frame.height / pixelHeight as real * py;
      var p := Vec3(x - shift * frame.width, y - shift * frame.height, 0.0);
      AxisInverts(frame.width, pixelWidth as real, px, shift);
      AxisInverts(frame.height, pixelHeight as real, py, shift);
      assert (if relative then p.x else p.x + 0.5 * frame.width) == p.x + shift * frame.width;
      assert (if relative then p.y else p.y + 0.5 * frame.height) == p.y + shift * frame.height;
      assert PixelPoint(frame, pixelWidth, pixelHeight, p, relative).0 == px;
      assert PixelPoint(frame, pixelWidth, pixelHeight, p, relative).1 == py;
    }
  }

  /** The fixed-frame point for pixel `(px, py)` in a window of the given
      pixel size: `(FW/W * px, FH/H * py, 0)`, less half the frame unless
      `relative`. It lies in the plane z = 0, and `PixelPoint` recovers the
      pixel point from it. */
  function FixedFramePoint(frame: FrameShape, pixelWidth: int, pixelHeight: int, px: real, py: real, relative: bool): (p: Vec3)
    requires pixelWidth != 0 && pixelHeight != 0
    ensures p.z == 0.0
    ensures Nondegenerate(frame) ==> PixelPoint(frame, pixelWidth, pixelHeight, p, relative) == (px, py)
  {
    var x := frame.width / pixelWidth as real * px;
    var y := frame.height / pixelHeight as real * py;
    var shift := if relative then 0.0 else 0.5;
    PixelPointInverts(frame, pixelWidth, pixelHeight, px, py, relative);
    Vec3(x - shift * frame.width, y - shift * frame.height, 0.0)
  }

  /** One axis of the round trip: scaling a coordinate shifted by
      `shift * f` to pixels and back, then shifting again, gives it back. */
  lemma AxisRoundTrip(f: real, n: real, c: real, shift: real)
    requires f != 0.0 && n != 0.0
    ensures f / n * ((c + shift * f) * n / f) - shift * f == c
  {
    var x := c + shift * f;
    assert x * n / f == (x / f) * n;
    assert f / n * ((x / f) * n) == (f / n * n) * (x / f);
    assert f / n * n == f;
    assert f * (x / f) == x;
  }

  /** Every fixed-frame point in the plane z = 0 is the image of the pixel
      point `PixelPoint` gives for it. */
  lemma FixedFramePointOfPixelPoint(frame: FrameShape, pixelWidth: int, pixelHeight: int, p: Vec3, relative: bool)
    requires Nondegenerate(frame)
    requires pixelWidth != 0 && pixelHeight != 0
    requires p.z == 0.0
    ensures var (px, py) := PixelPoint(frame, pixelWidth, pixelHeight, p, relative);
            FixedFramePoint(frame, pixelWidth, pixelHeight, px, py, relative) == p
  {
    var shift := if relative then 0.0 else 0.5;
    AxisRoundTrip(frame.width, pixelWidth as real, p.x, shift);
    AxisRoundTrip(frame.height, pixelHeight as real, p.y, shift);
  }

  /** An absolute point is the relative point for the same pixels shifted by
      half the frame. */
  lemma AbsoluteIsShiftedRelative(frame: FrameShape, pixelWidth: int, pixelHeight: int, px: real, py: real)
    requires pixelWidth != 0 && pixelHeight != 0
    ensures FixedFramePoint(frame, pixelWidth, pixelHeight, px, py, false)
         == Add(FixedFramePoint(frame, pixelWidth, pixelHeight, px, py, true), Scale(-1.0, HalfFrame(frame)))
  {
  }

  /** The pixel at the window centre maps to the origin of the fixed frame. */
  lemma CentreMapsToOrigin(frame: FrameShape, pixelWidth: int, pixelHeight: int)
    requires pixelWidth != 0 && pixelHeight != 0
    ensures FixedFramePoint(frame, pixelWidth, pixelHeight, pixelWidth as real / 2.0, pixelHeight as real / 2.0, false) == Zero
  {
  }

  /** The pixel at the window's origin corner maps to the corner of the fixed
      frame, half the frame away from the centre. */
  lemma CornerMapsToFrameCorner(frame: FrameShape, pixelWidth: int, pixelHeight: int)
    requires pixelWidth != 0 && pixelHeight != 0
    ensures FixedFramePoint(frame, pixelWidth, pixelHeight, 0.0, 0.0, false) == Scale(-1.0, HalfFrame(frame))
  {
  }

  /** In relative mode the map is linear: it preserves sums and scalings of
      pixel offsets. */
  lemma RelativeIsLinear(frame: FrameShape, pixelWidth: int, pixelHeight: int, px: real, py: real, qx: real, qy: real, k: real)
    requires pixelWidth != 0 && pixelHeight != 0
    ensures FixedFramePoint(frame, pixelWidth, pixelHeight, px + qx, py + qy, true)
         == Add(FixedFramePoint(frame, pixelWidth, pixelHeight, px, py, true),
                FixedFramePoint(frame, pixelWidth, pixelHeight, qx, qy, true))
    ensures FixedFramePoint(frame, pixelWidth, pixelHeight, k * px, k * py, true)
         == Scale(k, FixedFramePoint(frame, pixelWidth, pixelHeight, px, py, true))
  {
    var sx := frame.width / pixelWidth as real;
    var sy := frame.height / pixelHeight as real;
    assert sx * (px + qx) == sx * px + sx * qx;
    assert sy * (py + qy) == sy * py + sy * qy;
    assert sx * (k * px) == k * (sx * px);
    assert sy * (k * py) == k * (sy * py);
  }
}
