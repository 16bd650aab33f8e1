/** What is known of a cube besides its values: its three axes, and where it lies in the world. */
module CubeMetadata {
  import opened Axes
  import opened Surfaces

  datatype AxisType = Iline | Xline | Sample

  datatype Metadata = Metadata(iline: Axis, xline: Axis, sample: Axis, worldToAnnotation: Point -> Point) {
    /** Metadata validation accepts the axes, and they take up the three dimensions of the cube. */
    predicate Valid() {
      && iline.Accepted() && xline.Accepted() && sample.Accepted()
      && iline.dimension < 3 && xline.dimension < 3 && sample.dimension < 3
      && iline.dimension != xline.dimension && xline.dimension != sample.dimension && iline.dimension != sample.dimension
    }

    function AxisOf(t: AxisType): Axis {
      match t case Iline => iline case Xline => xline case Sample => sample
    }

    predicate HasTraceAt(cdp: Point)
      requires Valid()
    {
      var ij := worldToAnnotation(cdp);
      iline.InRangeWithMargin(ij.x) && xline.InRangeWithMargin(ij.y)
    }
  }
}
