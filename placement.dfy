/** Where the scaled image sits on the canvas before any drift (`compute_base_position`). */
module Placement {

  datatype Point = Point(x: int, y: int)

  /** The placement settings: canvas size, placement mode and both sets of coordinates. */
  datatype Layout = Layout(
    outW: int, outH: int,
    basePosMode: string,
    centerOffsetX: int, centerOffsetY: int,
    baseX: int, baseY: int)

  /**
   * Mode exactly "center": the image is centred with Python floor division
   * (rounding towards minus infinity, also when the image is larger than
   * the canvas), then shifted by the centre offsets. Any other mode: the
   * explicit coordinates, whatever the image size.
   */
  function ComputeBasePosition(layout: Layout, imgW: int, imgH: int): (p: Point)
    ensures layout.basePosMode == "center" ==>
      2 * (p.x - layout.centerOffsetX) <= layout.outW - imgW < 2 * (p.x - layout.centerOffsetX) + 2 &&
      2 * (p.y - layout.centerOffsetY) <= layout.outH - imgH < 2 * (p.y - layout.centerOffsetY) + 2
    ensures layout.basePosMode != "center" ==> p == Point(layout.baseX, layout.baseY)
  {
    if layout.basePosMode == "center" then
      Point((layout.outW - imgW) / 2 + layout.centerOffsetX,
            (layout.outH - imgH) / 2 + layout.centerOffsetY)
    else
      Point(layout.baseX, layout.baseY)
  }

  /**
   * Centred without offsets, the margins left and right of the image (and
   * above and below it) are equal or the far one is one pixel wider.
   */
  lemma CenteredMargins(layout: Layout, imgW: int, imgH: int)
    requires layout.basePosMode == "center"
    requires layout.centerOffsetX == 0 && layout.centerOffsetY == 0
    ensures var p := ComputeBasePosition(layout, imgW, imgH);
      var right, bottom := layout.outW - (p.x + imgW), layout.outH - (p.y + imgH);
      (right == p.x || right == p.x + 1) && (bottom == p.y || bottom == p.y + 1)
  {
  }

  /** The centre offsets move the image by exactly their amount. */
  lemma CenterOffsetShifts(layout: Layout, imgW: int, imgH: int)
    requires layout.basePosMode == "center"
    ensures var p := ComputeBasePosition(layout, imgW, imgH);
      var q := ComputeBasePosition(layout.(centerOffsetX := 0, centerOffsetY := 0), imgW, imgH);
      p == Point(q.x + layout.centerOffsetX, q.y + layout.centerOffsetY)
  {
  }

  /** The two placements in the unit tests, and an image wider than its canvas. */
  lemma TestedPlacements()
    ensures ComputeBasePosition(Layout(200, 100, "center", 5, -3, 0, 0), 50, 20) == Point(80, 37)
    ensures ComputeBasePosition(Layout(200, 100, "coords", 5, -3, 7, 9), 10, 10) == Point(7, 9)
    ensures ComputeBasePosition(Layout(100, 100, "center", 0, 0, 0, 0), 151, 100) == Point(-26, 0)
  {
  }
}
