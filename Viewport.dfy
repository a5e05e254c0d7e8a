/** The bounded input rectangle shared by MouseInputSurface and
    BoundaryController: both compute it with the same formulas, so it is
    defined once here. */
module Viewport {
  import opened Geometry

  /** The part of a camera the core reads: its pixel size, its position and
      the engine's ScreenToWorldPoint. */
  datatype Camera = Camera(
    scaledPixelWidth: nat,
    scaledPixelHeight: nat,
    position: Vec3,
    screenToWorld: Vec3 -> Vec3)

  /** A closed interval [min, max] of pixel coordinates along one axis. */
  datatype Span = Span(min: real, max: real)

  datatype Rect = Rect(width: Span, height: Span)

  predicate IsPercentage(p: real) {
    0.0 <= p <= 100.0
  }

  /** 0.5 + ((percentage / 100) / 2): the upper bound as a fraction of the extent. */
  function HalfProportion(percentage: real): (h: real)
    ensures IsPercentage(percentage) ==> 0.5 <= h <= 1.0
  {
    0.5 + ((percentage / 100.0) / 2.0)
  }

  /** The bounds along one axis of `pixels` pixels: the lower bound is
      pixels * (1 - h), the upper bound pixels * h. The interval is centred on
      the middle of the axis; a full percentage covers the whole axis and a
      zero percentage collapses it to the middle pixel. */
  function AxisBounds(pixels: nat, percentage: real): (s: Span)
    ensures s.min + s.max == pixels as real
    ensures IsPercentage(percentage) ==> 0.0 <= s.min <= s.max <= pixels as real
    ensures percentage == 100.0 ==> s == Span(0.0, pixels as real)
    ensures percentage == 0.0 ==> s.min == s.max == pixels as real / 2.0
  {
    var h := HalfProportion(percentage);
    var p := pixels as real;
    assert p * h == p - p * (1.0 - h);
    assert IsPercentage(percentage) ==> 0.0 <= p * (1.0 - h) <= p * h by {
      if IsPercentage(percentage) {
        assert 0.0 <= 1.0 - h && 0.0 <= 2.0 * h - 1.0;
        assert 0.0 <= p * (1.0 - h);
        assert p * h - p * (1.0 - h) == p * (2.0 * h - 1.0);
        assert 0.0 <= p * (2.0 * h - 1.0);
      }
    }
    Span(p * (1.0 - h), p * h)
  }

  /** The rectangle [minWidth, maxWidth] x [minHeight, maxHeight] for a camera. */
  function Bounds(camera: Camera, widthPercentage: real, heightPercentage: real): (r: Rect)
    ensures r.width.min + r.width.max == camera.scaledPixelWidth as real
    ensures r.height.min + r.height.max == camera.scaledPixelHeight as real
    ensures IsPercentage(widthPercentage) ==> r.width.min <= r.width.max
    ensures IsPercentage(heightPercentage) ==> r.height.min <= r.height.max
  {
    Rect(AxisBounds(camera.scaledPixelWidth, widthPercentage),
         AxisBounds(camera.scaledPixelHeight, heightPercentage))
  }

  /** Mathf.Clamp: below min gives min, otherwise above max gives max. */
  function Clamp(value: real, min: real, max: real): (r: real)
    ensures min <= max ==> min <= r <= max
    ensures min <= value <= max ==> r == value
    ensures r == value || r == min || r == max
  {
    if value < min then min else if value > max then max else value
  }
}
