/**
 Geometry shared by the window chrome and the app panel: `Math.min`,
 `Math.max` and the centred default frame sized to 80% of the viewport and
 capped at 1200 by 800.
 */
module Geometry {
  import opened WindowTypes

  /** A window's position together with its size. */
  datatype Frame = Frame(position: Position, size: Size)

  const DefaultMaxWidth: real := 1200.0
  const DefaultMaxHeight: real := 800.0
  const DefaultViewportShare: real := 0.8

  /** `Math.min` */
  function Min(a: real, b: real): (r: real)
    ensures r <= a && r <= b && (r == a || r == b)
  {
    if a <= b then a else b
  }

  /** `Math.max` */
  function Max(a: real, b: real): (r: real)
    ensures r >= a && r >= b && (r == a || r == b)
  {
    if a >= b then a else b
  }

  /**
   The default frame for a viewport of `vw` by `vh`: width
   `min(1200, 0.8 * vw)`, height `min(800, 0.8 * vh)`, centred.
   */
  function CenteredDefault(vw: real, vh: real): (f: Frame)
    ensures f.size.width <= DefaultMaxWidth && f.size.width <= DefaultViewportShare * vw
    ensures f.size.width == DefaultMaxWidth || f.size.width == DefaultViewportShare * vw
    ensures f.size.height <= DefaultMaxHeight && f.size.height <= DefaultViewportShare * vh
    ensures f.size.height == DefaultMaxHeight || f.size.height == DefaultViewportShare * vh
    ensures 2.0 * f.position.x + f.size.width == vw
    ensures 2.0 * f.position.y + f.size.height == vh
    ensures vw >= 0.0 ==> f.position.x >= 0.0
    ensures vh >= 0.0 ==> f.position.y >= 0.0
  {
    var w := Min(DefaultMaxWidth, vw * DefaultViewportShare);
    var h := Min(DefaultMaxHeight, vh * DefaultViewportShare);
    Frame(Position((vw - w) / 2.0, (vh - h) / 2.0), Size(w, h))
  }
}
