/** The stroke configuration: width, the derived segment step used to
    subdivide long ribbons, the point count, and the two cap flags read by
    the open-path stroke. */
module Style {
  import opened Math2d

  datatype StrokeStyle = StrokeStyle(
    width: real,
    step: real,
    pointCount: int,
    startCap: bool,
    endCap: bool)

  /** The `StrokeStyle` constructor. It asserts `Width > 0`; the segment step
      is twice the width, but never less than `MinSegmentStep`. The C#
      struct declares no cap fields although `PathStroke.OpenStroke` reads
      them; here they are two constructor arguments stored unchanged. */
  function NewStrokeStyle(width: real, minSegmentStep: real, pointCount: int,
                          startCap: bool, endCap: bool): (s: StrokeStyle)
    requires width > 0.0
    ensures s.width == width && s.pointCount == pointCount
    ensures s.startCap == startCap && s.endCap == endCap
    ensures s.step >= 2.0 * width && s.step >= minSegmentStep
    ensures s.step == 2.0 * width || s.step == minSegmentStep
  {
    var twice := 2.0 * width;
    var step := if twice < minSegmentStep then minSegmentStep else twice;
    StrokeStyle(width, step, pointCount, startCap, endCap)
  }

  /** The step is `max(2·Width, MinSegmentStep)` and stays positive even when
      `MinSegmentStep` is zero or negative. */
  lemma StepIsMaximum(width: real, minSegmentStep: real, pointCount: int, startCap: bool, endCap: bool)
    requires width > 0.0
    ensures NewStrokeStyle(width, minSegmentStep, pointCount, startCap, endCap).step
      == Max(2.0 * width, minSegmentStep)
    ensures NewStrokeStyle(width, minSegmentStep, pointCount, startCap, endCap).step > 0.0
  {
  }

  /** The default arguments `Width = 0.1`, `MinSegmentStep = 0.1`,
      `PointCount = 16`; the caps are off. */
  function DefaultStrokeStyle(): (s: StrokeStyle)
    ensures s.width == 0.1 && s.step == 0.2 && s.pointCount == 16
  {
    NewStrokeStyle(0.1, 0.1, 16, false, false)
  }
}
