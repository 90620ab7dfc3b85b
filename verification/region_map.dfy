/** `RegionMap`: the per-axis affine map that takes a source region onto
    a target region.

    A source or target that was never given reads as the unit square
    `(0, 0, 1, 1)`. A point is placed relative to the source's top-left
    corner, divided by the source's width and height, multiplied by the
    target's, and added to the target's top-left corner.
 */
module RegionMap {
  import opened Errors
  import opened Reals
  import P = Plane
  import opened Region
  import opened MapValues

  datatype RegionMap = RegionMap(source: Option<Region>, target: Option<Region>)

  const UnitSquare: Region := Region(0.0, 0.0, 1.0, 1.0)

  function Source(m: RegionMap): Region { m.source.GetOr(UnitSquare) }
  function Target(m: RegionMap): Region { m.target.GetOr(UnitSquare) }

  /** `Region(size)`: the size anchored at the origin. */
  function OfSize(s: P.Plane): (g: Region)
    ensures New([RSize(s)]) == Ok(g)
  {
    FromPointSize(P.Plane(0.0, 0.0), s)
  }

  /** `RegionMap(*args)`: a source and a target (either may be a size),
      only a target, or nothing. */
  function NewMap(args: seq<RArg>): (r: Result<RegionMap>)
    ensures |args| == 2 && args[0].RRegion? && args[1].RRegion? ==>
      r == Ok(RegionMap(Some(args[0].g), Some(args[1].g)))
    ensures |args| == 2 && args[0].RRegion? && args[1].RSize? ==>
      r == Ok(RegionMap(Some(args[0].g), Some(OfSize(args[1].s))))
    ensures |args| == 2 && args[0].RSize? && args[1].RRegion? ==>
      r == Ok(RegionMap(Some(OfSize(args[0].s)), Some(args[1].g)))
    ensures |args| == 1 && args[0].RRegion? ==> r.Ok? && Source(r.value) == UnitSquare && Target(r.value) == args[0].g
    ensures |args| == 1 && args[0].RSize? ==> r.Ok? && Source(r.value) == UnitSquare && Target(r.value) == OfSize(args[0].s)
    ensures |args| == 0 ==> r.Ok? && Source(r.value) == Target(r.value) == UnitSquare
    ensures r.Err? ==> r.FailsWith(DispatchFailure)
  {
    if |args| == 0 then Ok(RegionMap(None, None))
    else if |args| == 1 then
      match args[0]
      case RRegion(t) => Ok(RegionMap(None, Some(t)))
      case RSize(t) => Ok(RegionMap(None, Some(OfSize(t))))
      case _ => Err(DispatchFailure)
    else if |args| == 2 then
      match (args[0], args[1])
      case (RRegion(s), RRegion(t)) => Ok(RegionMap(Some(s), Some(t)))
      case (RRegion(s), RSize(t)) => Ok(RegionMap(Some(s), Some(OfSize(t))))
      case (RSize(s), RRegion(t)) => Ok(RegionMap(Some(OfSize(s)), Some(t)))
      case _ => Err(DispatchFailure)
    else Err(DispatchFailure)
  }

  /** One axis of the map: `x` relative to `[lo, lo + len]` carried over to
      `[toLo, toLo + toLen]`. */
  function Axis(x: real, lo: real, len: real, toLo: real, toLen: real): real
    requires len != 0.0
  {
    toLo + Times(Quot(x - lo, len), toLen)
  }

  /** The ends of the source interval go to the ends of the target
      interval. */
  lemma AxisEnds(lo: real, len: real, toLo: real, toLen: real)
    requires len != 0.0
    ensures Axis(lo, lo, len, toLo, toLen) == toLo
    ensures Axis(lo + len, lo, len, toLo, toLen) == toLo + toLen
  {
    QuotSelf(len);
    TimesUnit(toLen);
  }

  /** Carrying a coordinate over and back is the identity. */
  lemma AxisRoundTrip(x: real, lo: real, len: real, toLo: real, toLen: real)
    requires len != 0.0 && toLen != 0.0
    ensures Axis(Axis(x, lo, len, toLo, toLen), toLo, toLen, lo, len) == x
  {
    var q := Quot(x - lo, len);
    assert Axis(x, lo, len, toLo, toLen) - toLo == Times(q, toLen);
    QuotCancels(q, toLen);
    QuotCancels(x - lo, len);
  }

  /** The map on a point: a source of zero width, then of zero height,
      makes the division raise ZeroDivisionError. */
  function MapPoint(m: RegionMap, p: P.Plane): (r: Result<P.Plane>)
    ensures r.Err? <==> !Truthy(Source(m))
    ensures r.Err? ==> r.FailsWith(ZeroDivision)
  {
    var s, t := Source(m), Target(m);
    if Width(s) == 0.0 || Height(s) == 0.0 then Err(ZeroDivision)
    else Ok(P.Plane(Axis(p.r0, Left(s), Width(s), Left(t), Width(t)),
                  Axis(p.r1, Top(s), Height(s), Top(t), Height(t))))
  }

  /** The source's top-left and bottom-right corners go exactly to the
      target's. */
  lemma CornersToCorners(m: RegionMap)
    requires Truthy(Source(m))
    ensures MapPoint(m, TopLeft(Source(m))) == Ok(TopLeft(Target(m)))
    ensures MapPoint(m, BottomRight(Source(m))) == Ok(BottomRight(Target(m)))
  {
    var s, t := Source(m), Target(m);
    AxisEnds(Left(s), Width(s), Left(t), Width(t));
    AxisEnds(Top(s), Height(s), Top(t), Height(t));
  }

  /** `RegionMap()` is the identity. */
  lemma DefaultIsIdentity(p: P.Plane)
    ensures NewMap([]).Ok? && MapPoint(NewMap([]).value, p) == Ok(p)
  {
    QuotSelf(1.0);
    assert Quot(p.r0, 1.0) == p.r0 && Quot(p.r1, 1.0) == p.r1;
    assert Times(p.r0, 1.0) == p.r0 && Times(p.r1, 1.0) == p.r1;
  }

  /** `RegionMap(target)` takes the unit square onto the target. */
  lemma TargetOnlyFromUnitSquare(t: Region)
    ensures NewMap([RRegion(t)]).Ok?
    ensures MapPoint(NewMap([RRegion(t)]).value, P.Plane(0.0, 0.0)) == Ok(TopLeft(t))
    ensures MapPoint(NewMap([RRegion(t)]).value, P.Plane(1.0, 1.0)) == Ok(BottomRight(t))
  {
    var m := NewMap([RRegion(t)]).value;
    assert Source(m) == UnitSquare;
    assert TopLeft(UnitSquare) == P.Plane(0.0, 0.0) && BottomRight(UnitSquare) == P.Plane(1.0, 1.0);
    CornersToCorners(m);
  }

  /** With non-degenerate regions, mapping `a` onto `b` and then `b` onto
      `a` gives back every point. */
  lemma RoundTrip(a: Region, b: Region, p: P.Plane)
    requires Truthy(a) && Truthy(b)
    ensures MapPoint(RegionMap(Some(a), Some(b)), p).Ok?
    ensures MapPoint(RegionMap(Some(b), Some(a)), MapPoint(RegionMap(Some(a), Some(b)), p).value) == Ok(p)
  {
    AxisRoundTrip(p.r0, Left(a), Width(a), Left(b), Width(b));
    AxisRoundTrip(p.r1, Top(a), Height(a), Top(b), Height(b));
  }

  /** `map(*args)`: a region through its two corners, a point, a pair, a
      complex, or a tuple or list whose items are the arguments. */
  function Call(m: RegionMap, args: seq<RArg>): (r: Result<Mapped>)
    ensures |args| == 1 && args[0].RPoint? ==>
      (r.Ok? <==> MapPoint(m, args[0].p).Ok?) && (r.Ok? ==> r == Ok(MPoint(MapPoint(m, args[0].p).value)))
    ensures |args| == 1 && args[0].RRegion? && r.Ok? ==>
      MapPoint(m, TopLeft(args[0].g)).Ok? && MapPoint(m, BottomRight(args[0].g)).Ok? &&
      r.value.MRegion? && r.value.g == FromPoints(MapPoint(m, TopLeft(args[0].g)).value, MapPoint(m, BottomRight(args[0].g)).value)
    ensures |args| == 2 && args[0].RNum? && args[1].RNum? ==>
      var q := MapPoint(m, P.Plane(args[0].x, args[1].x));
      (r.Ok? <==> q.Ok?) && (r.Ok? ==> r == Ok(MPair(q.value.r0, q.value.r1)))
    ensures |args| == 1 && args[0].RComplex? ==>
      var q := MapPoint(m, P.Plane(args[0].re, args[0].im));
      (r.Ok? <==> q.Ok?) && (r.Ok? ==> r == Ok(MComplex(q.value.r0, q.value.r1)))
    ensures r.Err? ==> r.FailsWith(ZeroDivision) || r.FailsWith(DispatchFailure)
    ensures (|args| == 1 && (args[0].RPoint? || args[0].RRegion? || args[0].RComplex?)) ||
            (|args| == 2 && args[0].RNum? && args[1].RNum?) ==>
      (r.FailsWith(ZeroDivision) <==> !Truthy(Source(m)))
    decreases args
  {
    if |args| == 2 && args[0].RNum? && args[1].RNum? then
      match MapPoint(m, P.Plane(args[0].x, args[1].x))
      case Ok(q) => Ok(MPair(q.r0, q.r1))
      case Err(e) => Err(e)
    else if |args| == 1 then
      match args[0]
      case RPoint(p) =>
        (match MapPoint(m, p)
         case Ok(q) => Ok(MPoint(q))
         case Err(e) => Err(e))
      case RComplex(re, im) =>
        (match MapPoint(m, P.Plane(re, im))
         case Ok(q) => Ok(MComplex(q.r0, q.r1))
         case Err(e) => Err(e))
      case RRegion(g) =>
        (match MapPoint(m, TopLeft(g))
         case Err(e) => Err(e)
         case Ok(a) =>
           match MapPoint(m, BottomRight(g))
           case Err(e) => Err(e)
           case Ok(b) => Ok(MRegion(FromPoints(a, b))))
      case RSeq(items) => Call(m, items)
      case _ => Err(DispatchFailure)
    else Err(DispatchFailure)
  }

  /** A pair of numbers, a complex number, a point, and a tuple holding the
      pair all go through the same point map, each keeping its own kind. */
  lemma {:induction false} CallFormsAgree(m: RegionMap, x: real, y: real)
    ensures Call(m, [RNum(x), RNum(y)]).Ok? <==> Truthy(Source(m))
    ensures Call(m, [RPoint(P.Plane(x, y))]).Ok? <==> Truthy(Source(m))
    ensures Truthy(Source(m)) ==>
      var q := Call(m, [RPoint(P.Plane(x, y))]).value.p;
      Call(m, [RNum(x), RNum(y)]) == Ok(MPair(q.r0, q.r1)) &&
      Call(m, [RComplex(x, y)]) == Ok(MComplex(q.r0, q.r1))
    ensures Call(m, [RSeq([RNum(x), RNum(y)])]) == Call(m, [RNum(x), RNum(y)])
  {
    var pair: seq<RArg> := [RNum(x), RNum(y)];
    assert pair[0].x == x && pair[1].x == y;
  }

  /** Mapping the source region itself gives the target rectangle. */
  lemma SourceToTarget(m: RegionMap)
    requires Truthy(Source(m))
    ensures Call(m, [RRegion(Source(m))]).Ok?
    ensures SameRect(Call(m, [RRegion(Source(m))]).value.g, Target(m))
  {
    CornersToCorners(m);
    GettersOrdered(Target(m));
  }
}
