/** `ScaleMap`: scaling by `(sx, sy)` with non-negative factors.

    Every constructor sets both factors, so the fallback of 1 for a factor
    that was never set is not reached.
 */
module ScaleMap {
  import opened Errors
  import opened Reals
  import opened Plane
  import opened Region
  import opened MapValues
  import Size

  datatype ScaleMap = ScaleMap(sx: real, sy: real)

  /** What every constructor checks before it stores the factors. */
  predicate Valid(m: ScaleMap) {
    m.sx >= 0.0 && m.sy >= 0.0
  }

  /** Store `(a, b)`, raising ValueError if either is negative. */
  function Checked(a: real, b: real): (r: Result<ScaleMap>)
    ensures r.Ok? <==> a >= 0.0 && b >= 0.0
    ensures r.Ok? ==> r.value == ScaleMap(a, b) && Valid(r.value)
    ensures r.Err? ==> r.FailsWith(ValueFailure)
  {
    if a < 0.0 || b < 0.0 then Err(ValueFailure) else Ok(ScaleMap(a, b))
  }

  /** `ScaleMap(*args)`: two numbers, a complex (real, imag), one number
      for both directions, or a point or vector. */
  function New(args: seq<RArg>): (r: Result<ScaleMap>)
    ensures r.Ok? ==> Valid(r.value)
    ensures |args| == 2 && args[0].RNum? && args[1].RNum? ==> r == Checked(args[0].x, args[1].x)
    ensures |args| == 1 && args[0].RNum? ==> r == Checked(args[0].x, args[0].x)
    ensures |args| == 1 && args[0].RComplex? ==> r == Checked(args[0].re, args[0].im)
    ensures |args| == 1 && args[0].RPoint? ==> r == Checked(args[0].p.r0, args[0].p.r1)
    ensures r.Err? ==> r.FailsWith(ValueFailure) || r.FailsWith(DispatchFailure)
    ensures |args| == 0 || |args| > 2 ==> r.FailsWith(DispatchFailure)
  {
    if |args| == 2 && args[0].RNum? && args[1].RNum? then Checked(args[0].x, args[1].x)
    else if |args| == 1 then
      match args[0]
      case RNum(s) => Checked(s, s)
      case RComplex(re, im) => Checked(re, im)
      case RPoint(p) => Checked(p.r0, p.r1)
      case _ => Err(DispatchFailure)
    else Err(DispatchFailure)
  }

  function ScalePoint(m: ScaleMap, p: Plane): Plane {
    Plane(Times(p.r0, m.sx), Times(p.r1, m.sy))
  }

  /** `scale(*args)`: a pair or a point is scaled componentwise; a size has
      its width and height scaled; a region keeps its top-left corner and
      has its width and height scaled. */
  function Call(m: ScaleMap, args: seq<RArg>): (r: Result<Mapped>)
    ensures |args| == 2 && args[0].RNum? && args[1].RNum? ==>
      r == Ok(MPair(Times(args[0].x, m.sx), Times(args[1].x, m.sy)))
    ensures |args| == 1 && args[0].RPoint? ==> r == Ok(MPoint(ScalePoint(m, args[0].p)))
    ensures |args| == 1 && (args[0].RSize? || args[0].RRegion?) ==> r.Ok?
    ensures |args| == 1 && args[0].RSize? && Valid(m) ==>
      r.value.MSize? &&
      Size.Width(r.value.s) == Times(Size.Width(args[0].s), m.sx) &&
      Size.Height(r.value.s) == Times(Size.Height(args[0].s), m.sy)
    ensures |args| == 1 && args[0].RRegion? && Valid(m) ==>
      r.value.MRegion? &&
      TopLeft(r.value.g) == TopLeft(args[0].g) &&
      Width(r.value.g) == Times(Width(args[0].g), m.sx) &&
      Height(r.value.g) == Times(Height(args[0].g), m.sy)
    ensures r.Err? ==> r.FailsWith(DispatchFailure)
  {
    if |args| == 2 && args[0].RNum? && args[1].RNum? then
      Ok(MPair(Times(args[0].x, m.sx), Times(args[1].x, m.sy)))
    else if |args| == 1 then
      match args[0]
      case RPoint(p) => Ok(MPoint(ScalePoint(m, p)))
      case RSize(s) =>
        ScaledSize(m, s);
        Ok(MSize(Plane(Times(Size.Width(s), m.sx), Times(Size.Height(s), m.sy))))
      case RRegion(g) =>
        ScaledRegion(m, g);
        Ok(MRegion(ScaleRegion(m, g)))
      case _ => Err(DispatchFailure)
    else Err(DispatchFailure)
  }

  /** The region case: the bottom-right corner moves away from the fixed
      top-left corner by the scaled width and height. */
  function ScaleRegion(m: ScaleMap, g: Region): Region {
    var x0, y0 := Left(g), Top(g);
    Region(x0, y0, x0 + Times(Right(g) - x0, m.sx), y0 + Times(Bottom(g) - y0, m.sy))
  }

  lemma ScaledSize(m: ScaleMap, s: Plane)
    ensures Valid(m) ==> Size.Width(Plane(Times(Size.Width(s), m.sx), Times(Size.Height(s), m.sy))) == Times(Size.Width(s), m.sx)
    ensures Valid(m) ==> Size.Height(Plane(Times(Size.Width(s), m.sx), Times(Size.Height(s), m.sy))) == Times(Size.Height(s), m.sy)
  {
    if Valid(m) {
      ProductNonNegative(Size.Width(s), m.sx);
      ProductNonNegative(Size.Height(s), m.sy);
    }
  }

  lemma ScaledRegion(m: ScaleMap, g: Region)
    ensures Valid(m) ==> TopLeft(ScaleRegion(m, g)) == TopLeft(g)
    ensures Valid(m) ==> Width(ScaleRegion(m, g)) == Times(Width(g), m.sx)
    ensures Valid(m) ==> Height(ScaleRegion(m, g)) == Times(Height(g), m.sy)
  {
    if Valid(m) {
      ProductNonNegative(Width(g), m.sx);
      ProductNonNegative(Height(g), m.sy);
    }
  }

  /** For positive factors, scaling by the reciprocals undoes a scaling. */
  lemma ScaleInverse(m: ScaleMap, x: real, y: real)
    requires m.sx > 0.0 && m.sy > 0.0
    ensures New([RNum(Quot(1.0, m.sx)), RNum(Quot(1.0, m.sy))]).Ok?
    ensures Call(New([RNum(Quot(1.0, m.sx)), RNum(Quot(1.0, m.sy))]).value,
                 [RNum(Times(x, m.sx)), RNum(Times(y, m.sy))]) == Ok(MPair(x, y))
  {
    QuotNonNegative(1.0, m.sx);
    QuotNonNegative(1.0, m.sy);
    ScaleBack(x, m.sx);
    ScaleBack(y, m.sy);
  }
}
