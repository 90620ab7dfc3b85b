/** What the coordinate maps return: the same kind of value they were
    called with. */
module MapValues {
  import opened Plane
  import opened Region

  datatype Mapped =
    | MPair(x: real, y: real)           // a tuple of two floats
    | MComplex(re: real, im: real)      // a complex number
    | MPoint(p: Plane)
    | MSize(s: Plane)
    | MRegion(g: Region)
}
