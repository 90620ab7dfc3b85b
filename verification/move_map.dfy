/** `MoveMap`: the translation by `(dx, dy)`.

    Every constructor sets both moves, so the fallback of 1 for a move
    that was never set is not reached.
 */
module MoveMap {
  import opened Errors
  import opened Plane
  import opened Region
  import opened MapValues

  datatype MoveMap = MoveMap(dx: real, dy: real)

  /** `MoveMap(*args)`: two numbers, a complex (real, imag), one number
      for both directions, or a point. */
  function New(args: seq<RArg>): (r: Result<MoveMap>)
    ensures |args| == 2 && args[0].RNum? && args[1].RNum? ==> r == Ok(MoveMap(args[0].x, args[1].x))
    ensures |args| == 1 && args[0].RNum? ==> r.Ok? && r.value.dx == r.value.dy == args[0].x
    ensures |args| == 1 && args[0].RComplex? ==> r == Ok(MoveMap(args[0].re, args[0].im))
    ensures |args| == 1 && args[0].RPoint? ==> r == Ok(MoveMap(args[0].p.r0, args[0].p.r1))
    ensures r.Err? ==> r.FailsWith(DispatchFailure)
    ensures |args| == 0 || |args| > 2 ==> r.Err?
  {
    if |args| == 2 && args[0].RNum? && args[1].RNum? then Ok(MoveMap(args[0].x, args[1].x))
    else if |args| == 1 then
      match args[0]
      case RNum(v) => Ok(MoveMap(v, v))
      case RComplex(re, im) => Ok(MoveMap(re, im))
      case RPoint(p) => Ok(MoveMap(p.r0, p.r1))
      case _ => Err(DispatchFailure)
    else Err(DispatchFailure)
  }

  function MovePoint(m: MoveMap, p: Plane): Plane {
    Plane(p.r0 + m.dx, p.r1 + m.dy)
  }

  /** `move(*args)`: a pair, a complex, a point, a single number (used for
      both coordinates) or a region; a region is rebuilt from its moved
      top-left corner and its size. */
  function Call(m: MoveMap, args: seq<RArg>): (r: Result<Mapped>)
    ensures |args| == 2 && args[0].RNum? && args[1].RNum? ==>
      r == Ok(MPair(args[0].x + m.dx, args[1].x + m.dy))
    ensures |args| == 1 && args[0].RNum? ==> r == Ok(MPair(args[0].x + m.dx, args[0].x + m.dy))
    ensures |args| == 1 && args[0].RComplex? ==>
      r == Ok(MComplex(args[0].re + m.dx, args[0].im + m.dy))
    ensures |args| == 1 && args[0].RPoint? ==> r == Ok(MPoint(MovePoint(m, args[0].p)))
    ensures |args| == 1 && args[0].RRegion? ==> r.Ok? && r.value.MRegion?
    ensures |args| == 1 && args[0].RRegion? ==>
      (var g, h := args[0].g, r.value.g;
       Width(h) == Width(g) && Height(h) == Height(g) &&
       TopLeft(h) == MovePoint(m, TopLeft(g)) && BottomRight(h) == MovePoint(m, BottomRight(g)))
    ensures r.Err? ==> r.FailsWith(DispatchFailure)
  {
    if |args| == 2 && args[0].RNum? && args[1].RNum? then Ok(MPair(args[0].x + m.dx, args[1].x + m.dy))
    else if |args| == 1 then
      match args[0]
      case RNum(v) => Ok(MPair(v + m.dx, v + m.dy))
      case RComplex(re, im) => Ok(MComplex(re + m.dx, im + m.dy))
      case RPoint(p) => Ok(MPoint(MovePoint(m, p)))
      case RRegion(g) => Ok(MRegion(FromPointSize(MovePoint(m, TopLeft(g)), SizeOf(g))))
      case _ => Err(DispatchFailure)
    else Err(DispatchFailure)
  }

  /** The translation by `(-dx, -dy)`. */
  function Inverse(m: MoveMap): MoveMap {
    MoveMap(-m.dx, -m.dy)
  }

  /** Moving by the inverse undoes a move on pairs and points. */
  lemma MoveInverse(m: MoveMap, x: real, y: real, p: Plane)
    ensures Call(Inverse(m), [RNum(x + m.dx), RNum(y + m.dy)]) == Ok(MPair(x, y))
    ensures Call(Inverse(m), [RPoint(MovePoint(m, p))]) == Ok(MPoint(p))
  {
  }

  /** Moving a region by the inverse gives back the same rectangle (its
      stored edges come back ordered). */
  lemma MoveInverseRegion(m: MoveMap, g: Region)
    ensures Call(m, [RRegion(g)]).Ok?
    ensures Call(Inverse(m), [RRegion(Call(m, [RRegion(g)]).value.g)]).Ok?
    ensures SameRect(Call(Inverse(m), [RRegion(Call(m, [RRegion(g)]).value.g)]).value.g, g)
  {
    var h := Call(m, [RRegion(g)]).value.g;
    var k := Call(Inverse(m), [RRegion(h)]).value.g;
    assert TopLeft(k) == MovePoint(Inverse(m), TopLeft(h));
    assert BottomRight(k) == MovePoint(Inverse(m), BottomRight(h));
  }

  /** Two moves in a row are the move by the sum. */
  lemma MoveCompose(m: MoveMap, n: MoveMap, x: real, y: real)
    ensures Call(n, [RNum(m.dx + x), RNum(m.dy + y)]) == Call(MoveMap(m.dx + n.dx, m.dy + n.dy), [RNum(x), RNum(y)])
  {
  }
}
