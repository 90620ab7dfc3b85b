/** `Vector`: a `Point` with the dot product (`*`), the scalar cross
    product (`@`), the perpendicular "hat" vector (`~`) and the two
    projections (`>>` and `<<`).

    A vector is a `Plane` value; the other operand goes through the same
    `_resolveOther` as in `Plane`, except that a bare int or float is
    handled before it is resolved.
 */
module Vector {
  import opened Errors
  import opened Reals
  import opened Plane

  /** The dot product `x * wx + y * wy`. */
  function Dot(v: Plane, w: Plane): real {
    Times(v.r0, w.r0) + Times(v.r1, w.r1)
  }

  /** The scalar cross product `x * wy - y * wx`. */
  function Cross(v: Plane, w: Plane): real {
    Times(v.r0, w.r1) - Times(v.r1, w.r0)
  }

  /** `k * v`, through `Plane.__rmul__`, and `v * k`. */
  function Scaled(v: Plane, k: real): Plane {
    Plane(Times(v.r0, k), Times(v.r1, k))
  }

  /** The dot product is symmetric, and a vector's square is zero exactly
      for the zero vector. */
  lemma DotFacts(v: Plane, w: Plane)
    ensures Dot(v, w) == Dot(w, v)
    ensures Dot(v, v) == 0.0 <==> !Truthy(v)
    ensures Dot(v, v) >= 0.0
  {
    TimesCommutes(v.r0, w.r0);
    TimesCommutes(v.r1, w.r1);
    SquareSumZero(v.r0, v.r1);
    SquarePositive(v.r0);
    SquarePositive(v.r1);
  }

  /** The cross product is antisymmetric, so a vector crossed with itself
      is zero. */
  lemma CrossFacts(v: Plane, w: Plane)
    ensures Cross(v, w) == -Cross(w, v)
    ensures Cross(v, v) == 0.0
  {
    TimesCommutes(v.r0, w.r1);
    TimesCommutes(v.r1, w.r0);
    TimesCommutes(v.r0, v.r1);
  }

  /** What `v * other` and `v @ other` return: a vector or a number. */
  datatype Product = AVector(v: Plane) | ANumber(x: real)

  /** `v * other`: an int or a float scales the vector; anything the
      resolver accepts gives the dot product; anything else is not
      supported. */
  function DotMul(v: Plane, o: Operand): (r: Result<Product>)
    ensures r.Ok? <==> Resolve(o).Some?
    ensures r.Err? ==> r.FailsWith(NotSupported)
    ensures o.OScalar? ==> r == Ok(AVector(Mul(v, o).value))
    ensures r.Ok? && !o.OScalar? ==> r.value.ANumber? && r.value.x == Dot(v, Resolve(o).value)
  {
    if o.OScalar? then Ok(AVector(Scaled(v, o.s)))
    else match Resolve(o)
      case None => Err(NotSupported)
      case Some(w) => Ok(ANumber(Dot(v, w)))
  }

  /** `v @ other`: an int or a float scales the vector, as `*` does;
      otherwise the cross product. */
  function CrossMul(v: Plane, o: Operand): (r: Result<Product>)
    ensures r.Ok? <==> Resolve(o).Some?
    ensures r.Err? ==> r.FailsWith(NotSupported)
    ensures o.OScalar? ==> r == DotMul(v, o)
    ensures r.Ok? && !o.OScalar? ==> r.value.ANumber? && r.value.x == Cross(v, Resolve(o).value)
  {
    if o.OScalar? then Ok(AVector(Scaled(v, o.s)))
    else match Resolve(o)
      case None => Err(NotSupported)
      case Some(w) => Ok(ANumber(Cross(v, w)))
  }

  /** `~v`, the hat vector `(-y, x)`: perpendicular to `v`, and `v @ ~v`
      is the square of `v`'s length. */
  function Hat(v: Plane): (h: Plane)
    ensures Dot(v, h) == 0.0
    ensures Cross(v, h) == Dot(v, v)
  {
    TimesNegates(v.r0, v.r1);
    TimesCommutes(v.r0, v.r1);
    TimesNegates(v.r1, v.r1);
    Plane(-v.r1, v.r0)
  }

  /** Applying the hat twice negates, and the hat keeps dot products. */
  lemma HatTwice(v: Plane, w: Plane)
    ensures Hat(Hat(v)) == Neg(v)
    ensures Dot(Hat(v), Hat(w)) == Dot(v, w)
  {
    TimesNegates(-v.r1, w.r1);
    TimesNegates(v.r1, w.r1);
  }

  /** The projection of `v` onto a non-zero `w`: `((v . w) / (w . w)) w`. */
  function Project(v: Plane, w: Plane): (r: Plane)
    requires Truthy(w)
  {
    DotFacts(w, w);
    Scaled(w, Quot(Dot(v, w), Dot(w, w)))
  }

  /** The projection is a multiple of `w`, so it is parallel to `w`. */
  lemma ProjectIsParallel(v: Plane, w: Plane)
    requires Truthy(w)
    ensures Cross(Project(v, w), w) == 0.0
  {
    DotFacts(w, w);
    var k := Quot(Dot(v, w), Dot(w, w));
    assert Project(v, w) == Plane(Times(w.r0, k), Times(w.r1, k));
    ScaledCrossTerms(w.r0, w.r1, k);
  }

  /** Taking `k w` away from `v` takes `k (w . w)` away from `v . w`. */
  lemma ResidualOfScaled(v: Plane, w: Plane, k: real)
    ensures Dot(Sub(v, OPlane(Scaled(w, k))).value, w) == Dot(v, w) - Times(k, Dot(w, w))
  {
    assert Sub(v, OPlane(Scaled(w, k))).value == Plane(v.r0 - Times(w.r0, k), v.r1 - Times(w.r1, k));
    ResidualDot(v.r0, w.r0, v.r1, w.r1, k);
  }

  /** What is left of `v` after the projection is perpendicular to `w`. */
  lemma ResidualIsPerpendicular(v: Plane, w: Plane)
    requires Truthy(w)
    ensures Dot(Sub(v, OPlane(Project(v, w))).value, w) == 0.0
  {
    DotFacts(w, w);
    var k := Quot(Dot(v, w), Dot(w, w));
    ResidualOfScaled(v, w, k);
    QuotCancels(Dot(v, w), Dot(w, w));
  }

  /** Parallel to `w` with a perpendicular remainder: the two facts that
      single out the orthogonal projection. */
  lemma ProjectIsOrthogonal(v: Plane, w: Plane)
    requires Truthy(w)
    ensures Cross(Project(v, w), w) == 0.0
    ensures Dot(Sub(v, OPlane(Project(v, w))).value, w) == 0.0
  {
    ProjectIsParallel(v, w);
    ResidualIsPerpendicular(v, w);
  }

  /** `v >> other`, `v` projected onto `other`: a bare number is not
      supported, nor is anything the resolver rejects; a zero vector
      raises ZeroDivisionError. */
  function RShift(v: Plane, o: Operand): (r: Result<Plane>)
    ensures o.OScalar? ==> r.FailsWith(NotSupported)
    ensures Resolve(o).None? ==> r.FailsWith(NotSupported)
    ensures !o.OScalar? && Resolve(o).Some? && !Truthy(Resolve(o).value) ==> r.FailsWith(ZeroDivision)
    ensures r.Ok? <==> !o.OScalar? && Resolve(o).Some? && Truthy(Resolve(o).value)
    ensures r.Ok? ==> Cross(r.value, Resolve(o).value) == 0.0
    ensures r.Ok? ==> Dot(Sub(v, OPlane(r.value)).value, Resolve(o).value) == 0.0
  {
    if o.OScalar? then Err(NotSupported)
    else match Resolve(o)
      case None => Err(NotSupported)
      case Some(w) =>
        if !Truthy(w) then Err(ZeroDivision)
        else
          ProjectIsOrthogonal(v, w);
          Ok(Project(v, w))
  }

  /** `v << other`, `other` projected onto `v`. The guard tests the other
      operand, so a zero `other` raises ZeroDivisionError; a zero `v`
      makes the float division by `v . v` raise it too. */
  function LShift(v: Plane, o: Operand): (r: Result<Plane>)
    ensures o.OScalar? ==> r.FailsWith(NotSupported)
    ensures Resolve(o).None? ==> r.FailsWith(NotSupported)
    ensures !o.OScalar? && Resolve(o).Some? && (!Truthy(Resolve(o).value) || !Truthy(v)) ==> r.FailsWith(ZeroDivision)
    ensures r.Ok? <==> !o.OScalar? && Resolve(o).Some? && Truthy(Resolve(o).value) && Truthy(v)
    ensures r.Ok? ==> Cross(r.value, v) == 0.0
    ensures r.Ok? ==> Dot(Sub(Resolve(o).value, OPlane(r.value)).value, v) == 0.0
  {
    if o.OScalar? then Err(NotSupported)
    else match Resolve(o)
      case None => Err(NotSupported)
      case Some(u) =>
        if !Truthy(u) then Err(ZeroDivision)
        else if !Truthy(v) then Err(ZeroDivision)
        else
          ProjectIsOrthogonal(u, v);
          Ok(Project(u, v))
  }

  /** `other >> v` with an operand that has no `>>` of its own: `v << other`,
      so `other` is projected onto `v`. */
  function RRShift(v: Plane, o: Operand): (r: Result<Plane>)
    ensures r.Ok? <==> !o.OScalar? && Resolve(o).Some? && Truthy(Resolve(o).value) && Truthy(v)
    ensures r.Ok? ==> Cross(r.value, v) == 0.0
    ensures r.Ok? ==> Dot(Sub(Resolve(o).value, OPlane(r.value)).value, v) == 0.0
  {
    LShift(v, o)
  }

  /** `other << v` with an operand that has no `<<` of its own: `v >> other`,
      so `v` is projected onto `other`. */
  function RLShift(v: Plane, o: Operand): (r: Result<Plane>)
    ensures r.Ok? <==> !o.OScalar? && Resolve(o).Some? && Truthy(Resolve(o).value)
    ensures r.Ok? ==> Cross(r.value, Resolve(o).value) == 0.0
    ensures r.Ok? ==> Dot(Sub(v, OPlane(r.value)).value, Resolve(o).value) == 0.0
  {
    RShift(v, o)
  }

  /** `v << u` and `u >> v` agree whenever `u` is not zero. For a zero `u`
      and a non-zero `v`, `u >> v` is the zero vector while `v << u`
      raises, because the guard in `<<` tests `u` rather than the divisor
      `v . v`. */
  lemma ShiftsMirror(u: Plane, v: Plane)
    ensures Truthy(u) ==> LShift(v, OPlane(u)) == RShift(u, OPlane(v))
    ensures !Truthy(u) && Truthy(v) ==>
      LShift(v, OPlane(u)).FailsWith(ZeroDivision) && RShift(u, OPlane(v)) == Ok(Plane(0.0, 0.0))
  {
    if !Truthy(u) && Truthy(v) {
      DotFacts(v, v);
      assert u == Plane(0.0, 0.0);
      ProductZero(0.0, v.r0);
      ProductZero(0.0, v.r1);
      assert Dot(u, v) == 0.0;
      QuotCancels(0.0, Dot(v, v));
      ProductZero(Quot(0.0, Dot(v, v)), Dot(v, v));
      ProductZero(v.r0, 0.0);
      ProductZero(v.r1, 0.0);
    }
  }
}
