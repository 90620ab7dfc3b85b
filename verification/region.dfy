/** `Region`: a rectangle spanned by two points of the plane.

    The constructors store four edges as given; the public edges are read
    through getters that take the minimum and the maximum of each stored
    pair, so a region is never inverted however it was built. Every
    constructor stores all four edges, so the fallback of 0 for an edge
    that was never stored does not arise here.
 */
module Region {
  import opened Errors
  import opened Reals
  import opened Plane
  import Size

  /** The four stored edges, in constructor order. */
  datatype Region = Region(leftEdge: real, topEdge: real, rightEdge: real, bottomEdge: real)

  function Left(r: Region): real { Min(r.leftEdge, r.rightEdge) }
  function Top(r: Region): real { Min(r.topEdge, r.bottomEdge) }
  function Right(r: Region): real { Max(r.leftEdge, r.rightEdge) }
  function Bottom(r: Region): real { Max(r.topEdge, r.bottomEdge) }

  /** The getters never cross, and they read back the stored edges when
      those are already ordered. */
  lemma GettersOrdered(r: Region)
    ensures Left(r) <= Right(r) && Top(r) <= Bottom(r)
    ensures r.leftEdge <= r.rightEdge ==> Left(r) == r.leftEdge && Right(r) == r.rightEdge
    ensures r.topEdge <= r.bottomEdge ==> Top(r) == r.topEdge && Bottom(r) == r.bottomEdge
    ensures {Left(r), Right(r)} == {r.leftEdge, r.rightEdge}
    ensures {Top(r), Bottom(r)} == {r.topEdge, r.bottomEdge}
  {
  }

  /** Two regions with the same getters are the same rectangle. */
  predicate SameRect(a: Region, b: Region) {
    Left(a) == Left(b) && Top(a) == Top(b) && Right(a) == Right(b) && Bottom(a) == Bottom(b)
  }

  // ------------------------------------------------------- derived values

  function HCenter(r: Region): (c: real)
    ensures Left(r) <= c <= Right(r)
    ensures c - Left(r) == Right(r) - c
  {
    (Left(r) + Right(r)) / 2.0
  }

  function VCenter(r: Region): (c: real)
    ensures Top(r) <= c <= Bottom(r)
    ensures c - Top(r) == Bottom(r) - c
  {
    (Top(r) + Bottom(r)) / 2.0
  }

  function TopLeft(r: Region): Plane { Plane(Left(r), Top(r)) }
  function TopRight(r: Region): Plane { Plane(Right(r), Top(r)) }
  function BottomRight(r: Region): Plane { Plane(Right(r), Bottom(r)) }
  function BottomLeft(r: Region): Plane { Plane(Left(r), Bottom(r)) }
  function Center(r: Region): Plane { Plane(HCenter(r), VCenter(r)) }

  function Width(r: Region): (w: real)
    ensures w >= 0.0
    ensures Left(r) + w == Right(r)
  {
    Right(r) - Left(r)
  }

  function Height(r: Region): (h: real)
    ensures h >= 0.0
    ensures Top(r) + h == Bottom(r)
  {
    Bottom(r) - Top(r)
  }

  /** `area`, the width times the height. */
  function Area(r: Region): (a: real)
    ensures a >= 0.0
    ensures a == 0.0 <==> Width(r) == 0.0 || Height(r) == 0.0
  {
    ProductNonNegative(Width(r), Height(r));
    ProductZero(Width(r), Height(r));
    Times(Width(r), Height(r))
  }

  /** `size`: a `Size` of the width and the height. */
  function SizeOf(r: Region): (s: Plane)
    ensures Size.Width(s) == Width(r) && Size.Height(s) == Height(r)
  {
    Plane(Width(r), Height(r))
  }

  /** `aspect`: a zero height raises ZeroDivisionError, and a zero width
      (tested second) gives 0. */
  function Aspect(r: Region): (a: Result<real>)
    ensures a.Err? <==> Height(r) == 0.0
    ensures a.Err? ==> a.FailsWith(ZeroDivision)
    ensures a.Ok? ==> Times(a.value, Height(r)) == Width(r)
    ensures a.Ok? ==> (a.value == 0.0 <==> Width(r) == 0.0)
    ensures a.Ok? ==> a == Size.AspectRatio(SizeOf(r))
  {
    if Height(r) == 0.0 then Err(ZeroDivision)
    else if Width(r) == 0.0 then
      ProductZero(0.0, Height(r));
      QuotCancels(0.0, Height(r));
      Ok(0.0)
    else
      QuotCancels(Width(r), Height(r));
      ProductZero(Quot(Width(r), Height(r)), Height(r));
      Ok(Quot(Width(r), Height(r)))
  }

  /** `__bool__`: true when both the width and the height are non-zero. */
  predicate Truthy(r: Region) {
    Width(r) != 0.0 && Height(r) != 0.0
  }

  /** A region is falsy exactly when its area is zero. */
  lemma TruthyIffArea(r: Region)
    ensures Truthy(r) <==> Area(r) != 0.0
  {
  }

  // --------------------------------------------------------- constructors

  /** A constructor argument. `RPoint` is a `Point` or a `Vector`. */
  datatype RArg =
    | RNum(x: real)                   // an int or a float
    | RComplex(re: real, im: real)    // a complex number
    | RPoint(p: Plane)
    | RSize(s: Plane)
    | RRegion(g: Region)
    | RSeq(items: seq<RArg>)          // a tuple or a list
    | ROther

  /** `Region(p1, p2)`: the edges are ordered on the way in. */
  function FromPoints(p: Plane, q: Plane): (r: Region)
    ensures r.leftEdge <= r.rightEdge && r.topEdge <= r.bottomEdge
    ensures {r.leftEdge, r.rightEdge} == {p.r0, q.r0}
    ensures {r.topEdge, r.bottomEdge} == {p.r1, q.r1}
  {
    Region(Min(p.r0, q.r0), Min(p.r1, q.r1), Max(p.r0, q.r0), Max(p.r1, q.r1))
  }

  /** `Region(point, size)`: anchored at the point, extending by the
      size's (absolute) width and height. */
  function FromPointSize(p: Plane, s: Plane): (r: Region)
    ensures TopLeft(r) == p
    ensures Width(r) == Size.Width(s) && Height(r) == Size.Height(s)
  {
    Region(p.r0, p.r1, p.r0 + Size.Width(s), p.r1 + Size.Height(s))
  }

  /** `Region(*args)`, one case per overload; an argument list no overload
      accepts ends in `DispatchFailure`. */
  function New(args: seq<RArg>): (r: Result<Region>)
    ensures |args| == 4 && (forall i :: 0 <= i < 4 ==> args[i].RNum?) ==>
      r == Ok(Region(args[0].x, args[1].x, args[2].x, args[3].x))
    ensures |args| == 2 && args[0].RPoint? && args[1].RPoint? ==> r == Ok(FromPoints(args[0].p, args[1].p))
    ensures |args| == 2 && args[0].RPoint? && args[1].RSize? ==> r == Ok(FromPointSize(args[0].p, args[1].s))
    ensures |args| == 2 && args[0].RSize? && args[1].RPoint? ==> r == Ok(FromPointSize(args[1].p, args[0].s))
    ensures |args| == 1 && args[0].RSize? ==> r.Ok? && TopLeft(r.value) == Plane(0.0, 0.0)
    ensures |args| == 1 && args[0].RRegion? ==> r.Ok? && SameRect(r.value, args[0].g)
    ensures |args| == 1 && args[0].RPoint? ==> r.Ok? && TopLeft(r.value) == args[0].p && !Truthy(r.value)
    ensures |args| == 0 ==> r == Ok(Region(0.0, 0.0, 0.0, 0.0))
    ensures |args| == 1 && (args[0].RNum? || args[0].ROther?) ==> r.FailsWith(DispatchFailure)
    ensures |args| == 3 || |args| > 4 ==> r.FailsWith(DispatchFailure)
    decreases args
  {
    if |args| == 0 then Ok(Region(0.0, 0.0, 0.0, 0.0))
    else if |args| == 1 then
      match args[0]
      case RPoint(p) => Ok(Region(p.r0, p.r1, p.r0, p.r1))
      case RSize(s) => Ok(FromPointSize(Plane(0.0, 0.0), s))
      case RComplex(re, im) => Ok(FromPoints(Plane(re, im), Plane(re, im)))
      case RRegion(g) =>
        GettersOrdered(g);
        Ok(Region(Left(g), Top(g), Right(g), Bottom(g)))
      case RSeq(items) => New(items)
      case _ => Err(DispatchFailure)
    else if |args| == 2 then
      match (args[0], args[1])
      case (RPoint(p), RPoint(q)) => Ok(FromPoints(p, q))
      case (RComplex(a, b), RComplex(c, d)) => Ok(FromPoints(Plane(a, b), Plane(c, d)))
      case (RPoint(p), RSize(s)) => Ok(FromPointSize(p, s))
      case (RSize(s), RPoint(p)) => Ok(FromPointSize(p, s))
      case (RNum(a), RNum(b)) => Ok(Region(a, b, a, b))
      case _ => Err(DispatchFailure)
    else if |args| == 4 then
      if forall i :: 0 <= i < 4 ==> args[i].RNum? then
        Ok(Region(args[0].x, args[1].x, args[2].x, args[3].x))
      else Err(DispatchFailure)
    else Err(DispatchFailure)
  }

  /** `Region(a, b)` repeats its two numbers as `Region(a, b, a, b)`, the
      same degenerate region as the point `(a, b)`. */
  lemma PairIsPoint(a: real, b: real)
    ensures New([RNum(a), RNum(b)]) == New([RNum(a), RNum(b), RNum(a), RNum(b)])
    ensures New([RNum(a), RNum(b)]) == New([RPoint(Plane(a, b))])
  {
    var four := [RNum(a), RNum(b), RNum(a), RNum(b)];
    assert forall i :: 0 <= i < 4 ==> four[i].RNum?;
  }

  // ----------------------------------------------------------- operations

  /** `_resolveOther`: a region as it is, anything else through the
      one-argument constructor; what it rejects is `NotImplemented`. */
  function Resolve(o: RArg): (r: Option<Region>)
    ensures o.RRegion? ==> r == Some(o.g)
    ensures o.RPoint? ==> r.Some? && TopLeft(r.value) == o.p && BottomRight(r.value) == o.p
    ensures o.RNum? || o.ROther? ==> r.None?
  {
    if o.RRegion? then Some(o.g)
    else match New([o])
      case Ok(g) => Some(g)
      case Err(_) => None
  }

  /** The inclusive edge test of `__contains__`. */
  predicate Within(outer: Region, inner: Region) {
    Left(outer) <= Left(inner) && Top(outer) <= Top(inner) &&
    Right(inner) <= Right(outer) && Bottom(inner) <= Bottom(outer)
  }

  /** `other in region`: false, not an error, when `other` does not
      resolve to a region. */
  function Contains(r: Region, o: RArg): (b: bool)
    ensures b <==> Resolve(o).Some? && Within(r, Resolve(o).value)
    ensures o.RPoint? ==> (b <==> Left(r) <= o.p.r0 <= Right(r) && Top(r) <= o.p.r1 <= Bottom(r))
  {
    match Resolve(o)
    case None => false
    case Some(g) =>
      if Left(g) < Left(r) then false
      else if Top(g) < Top(r) then false
      else if Right(g) > Right(r) then false
      else if Bottom(g) > Bottom(r) then false
      else true
  }

  /** Containment between regions is reflexive and transitive. */
  lemma WithinPreorder(a: Region, b: Region, c: Region)
    ensures Contains(a, RRegion(a))
    ensures Contains(a, RRegion(b)) && Contains(b, RRegion(c)) ==> Contains(a, RRegion(c))
  {
  }

  /** `a + other`: the bounding region of both. */
  function Union(a: Region, o: RArg): (r: Result<Region>)
    ensures r.Ok? <==> Resolve(o).Some?
    ensures r.Err? ==> r.FailsWith(NotSupported)
    ensures r.Ok? ==> Within(r.value, a) && Within(r.value, Resolve(o).value)
  {
    match Resolve(o)
    case None => Err(NotSupported)
    case Some(b) => Ok(Region(Min(Left(a), Left(b)), Min(Top(a), Top(b)),
                              Max(Right(a), Right(b)), Max(Bottom(a), Bottom(b))))
  }

  /** The union is the least region containing both operands. */
  lemma UnionIsLeast(a: Region, b: Region, t: Region)
    ensures Union(a, RRegion(b)).Ok?
    ensures Within(t, Union(a, RRegion(b)).value) <==> Within(t, a) && Within(t, b)
  {
  }

  /** `a - other`: `a` cut at `other`'s left and top edges, keeping `a`'s
      top-left corner; the cut never goes past that corner. */
  function Clip(a: Region, o: RArg): (r: Result<Region>)
    ensures r.Ok? <==> Resolve(o).Some?
    ensures r.Err? ==> r.FailsWith(NotSupported)
    ensures r.Ok? ==> TopLeft(r.value) == TopLeft(a) && Within(a, r.value)
    ensures r.Ok? ==> Right(r.value) <= Left(Resolve(o).value) || Right(r.value) == Left(a)
    ensures r.Ok? ==> Bottom(r.value) <= Top(Resolve(o).value) || Bottom(r.value) == Top(a)
  {
    match Resolve(o)
    case None => Err(NotSupported)
    case Some(b) =>
      var left, top := Left(a), Top(a);
      Ok(Region(left, top, Max(left, Min(Right(a), Left(b))), Max(top, Min(Bottom(a), Top(b)))))
  }

  /** Among the regions sharing `a`'s top-left corner, the clip contains
      exactly those inside `a` whose right edge stops at `other`'s left
      edge (or collapses onto `a`'s left edge) and whose bottom edge stops
      at `other`'s top edge (or collapses onto `a`'s top edge): it is the
      greatest such region. */
  lemma ClipIsGreatest(a: Region, b: Region, t: Region)
    requires TopLeft(t) == TopLeft(a)
    ensures Clip(a, RRegion(b)).Ok?
    ensures Within(Clip(a, RRegion(b)).value, t) <==>
      Within(a, t) &&
      (Right(t) <= Left(b) || Right(t) == Left(a)) &&
      (Bottom(t) <= Top(b) || Bottom(t) == Top(a))
  {
    GettersOrdered(a);
    GettersOrdered(t);
  }

  /** Whether two regions meet, edges included. */
  predicate Overlap(a: Region, b: Region) {
    Left(a) <= Right(b) && Left(b) <= Right(a) && Top(a) <= Bottom(b) && Top(b) <= Bottom(a)
  }

  /** `a * other`: the part shared by both; the stored edges are never
      inverted. */
  function Intersect(a: Region, o: RArg): (r: Result<Region>)
    ensures r.Ok? <==> Resolve(o).Some?
    ensures r.Err? ==> r.FailsWith(NotSupported)
    ensures r.Ok? ==> r.value.leftEdge <= r.value.rightEdge && r.value.topEdge <= r.value.bottomEdge
    ensures r.Ok? && Overlap(a, Resolve(o).value) ==> Within(a, r.value) && Within(Resolve(o).value, r.value)
  {
    match Resolve(o)
    case None => Err(NotSupported)
    case Some(b) =>
      var left, top := Max(Left(a), Left(b)), Max(Top(a), Top(b));
      Ok(Region(left, top, Max(left, Min(Right(a), Right(b))), Max(top, Min(Bottom(a), Bottom(b)))))
  }

  /** For overlapping regions the intersection is the greatest region
      inside both. */
  lemma IntersectIsGreatest(a: Region, b: Region, t: Region)
    requires Overlap(a, b)
    ensures Intersect(a, RRegion(b)).Ok?
    ensures Within(Intersect(a, RRegion(b)).value, t) <==> Within(a, t) && Within(b, t)
  {
  }

  /** Disjoint regions intersect in a region of zero width or height. */
  lemma DisjointIntersectionIsEmpty(a: Region, b: Region)
    requires !Overlap(a, b)
    ensures Intersect(a, RRegion(b)).Ok? && !Truthy(Intersect(a, RRegion(b)).value)
  {
  }
}
