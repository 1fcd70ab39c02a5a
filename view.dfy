/** The world-space rectangle `getVisibleRange` derives from the camera. */
module View {

  datatype VisibleRange = VisibleRange(width: real, height: real, left: real, right: real, bottom: real, top: real)

  /** Fraction of the full frustum cross-section the launcher uses. */
  const ScaleFactor: real := 0.4

  function Abs(x: real): real {
    if x < 0.0 then -x else x
  }

  /** `getVisibleRange()`. The field of view enters through
      `tanHalfFov = Math.tan(fov / 2)`, trigonometry being left to the caller;
      `cameraZ` is `camera.position.z`.

      The rectangle is horizontally centred, keeps the camera's aspect ratio,
      is scaled by 0.4 in both dimensions, and its centre sits 0.3 of the full
      visible height (0.75 of its own height) above the origin. */
  function GetVisibleRange(tanHalfFov: real, aspect: real, cameraZ: real): (r: VisibleRange)
    ensures r.right - r.left == r.width && r.top - r.bottom == r.height
    ensures r.left == -r.right
    ensures r.width == r.height * aspect
    ensures r.top + r.bottom == 1.5 * r.height
    ensures r.height == ScaleFactor * (2.0 * tanHalfFov * Abs(cameraZ))
    ensures 0.0 <= tanHalfFov && 0.0 <= aspect ==> 0.0 <= r.height && 0.0 <= r.width
  {
    var visibleHeight := 2.0 * tanHalfFov * Abs(cameraZ);
    var visibleWidth := visibleHeight * aspect;
    var verticalOffset := visibleHeight * 0.3;
    VisibleRange(
      visibleWidth * ScaleFactor,
      visibleHeight * ScaleFactor,
      -visibleWidth * ScaleFactor / 2.0,
      visibleWidth * ScaleFactor / 2.0,
      (-visibleHeight * ScaleFactor / 2.0) + verticalOffset,
      (visibleHeight * ScaleFactor / 2.0) + verticalOffset)
  }
}
