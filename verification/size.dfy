/** `Size`: a `Plane` read as a width and a height.

    The width and height are the absolute values of the two components,
    so a size built from negative numbers still has non-negative
    dimensions. `fit` scales a size uniformly so that it fits inside
    another one.
 */
module Size {
  import opened Errors
  import opened Reals
  import opened Plane

  function Width(s: Plane): (w: real)
    ensures w >= 0.0
    ensures w == s.r0 || w == -s.r0
  {
    Abs(s.r0)
  }

  function Height(s: Plane): (h: real)
    ensures h >= 0.0
    ensures h == s.r1 || h == -s.r1
  {
    Abs(s.r1)
  }

  /** `aspectRatio`, width over height; a zero height raises
      ZeroDivisionError. */
  function AspectRatio(s: Plane): (r: Result<real>)
    ensures r.Err? <==> Height(s) == 0.0
    ensures r.Err? ==> r.FailsWith(ZeroDivision)
    ensures r.Ok? ==> r.value >= 0.0 && Times(r.value, Height(s)) == Width(s)
  {
    if Height(s) == 0.0 then Err(ZeroDivision)
    else
      QuotCancels(Width(s), Height(s));
      QuotNonNegative(Width(s), Height(s));
      Ok(Quot(Width(s), Height(s)))
  }

  /** The size `(width, height)` scaled by `k`. */
  function ScaledBy(s: Plane, k: real): Plane {
    Plane(Times(Width(s), k), Times(Height(s), k))
  }

  /** Whether `s` fits inside `other`, comparing with `<=`. */
  predicate FitsIn(s: Plane, other: Plane) {
    Height(s) <= Height(other) && Width(s) <= Width(other)
  }

  /** `fit`: both scales are computed first, the height scale before the
      width scale, so a zero height and then a zero width raise
      ZeroDivisionError. The height-scaled candidate is taken when it
      fits, else the width-scaled one when it fits, else RuntimeError. */
  function Fit(s: Plane, other: Plane): (r: Result<Plane>)
    ensures Height(s) == 0.0 || Width(s) == 0.0 ==> r.FailsWith(ZeroDivision)
    ensures r.Ok? ==> FitsIn(r.value, other)
    ensures r.Ok? ==> exists k :: k >= 0.0 && r.value == ScaledBy(s, k)
    ensures r.Err? ==> r.FailsWith(ZeroDivision) || r.FailsWith(RuntimeFailure)
    ensures Height(s) != 0.0 && Width(s) != 0.0 ==>
      var hFit := ScaledBy(s, Quot(Height(other), Height(s)));
      var wFit := ScaledBy(s, Quot(Width(other), Width(s)));
      (FitsIn(hFit, other) ==> r == Ok(hFit)) &&
      (!FitsIn(hFit, other) && FitsIn(wFit, other) ==> r == Ok(wFit)) &&
      (!FitsIn(hFit, other) && !FitsIn(wFit, other) ==> r.FailsWith(RuntimeFailure))
  {
    if Height(s) == 0.0 || Width(s) == 0.0 then Err(ZeroDivision)
    else
      var hScale := Quot(Height(other), Height(s));
      var wScale := Quot(Width(other), Width(s));
      QuotNonNegative(Height(other), Height(s));
      QuotNonNegative(Width(other), Width(s));
      ScaledDimensions(s, hScale);
      ScaledDimensions(s, wScale);
      if Times(Height(s), hScale) <= Height(other) && Times(Width(s), hScale) <= Width(other) then
        Ok(ScaledBy(s, hScale))
      else if Times(Height(s), wScale) <= Height(other) && Times(Width(s), wScale) <= Width(other) then
        Ok(ScaledBy(s, wScale))
      else Err(RuntimeFailure)
  }

  /** A non-negative scaling of a size has the scaled dimensions. */
  lemma ScaledDimensions(s: Plane, k: real)
    requires k >= 0.0
    ensures Width(ScaledBy(s, k)) == Times(Width(s), k)
    ensures Height(ScaledBy(s, k)) == Times(Height(s), k)
  {
    ProductNonNegative(Width(s), k);
    ProductNonNegative(Height(s), k);
  }

  /** For a size with non-zero dimensions `fit` always succeeds: when the
      height-scaled candidate is too wide, the width-scaled one is low
      enough. The RuntimeError branch cannot be reached. */
  lemma FitSucceeds(s: Plane, other: Plane)
    requires Width(s) != 0.0 && Height(s) != 0.0
    ensures Fit(s, other).Ok?
  {
    var w, h := Width(s), Height(s);
    var hScale := Quot(Height(other), h);
    var wScale := Quot(Width(other), w);
    QuotCancels(Height(other), h);
    QuotCancels(Width(other), w);
    TimesCommutes(h, hScale);
    TimesCommutes(w, wScale);
    if Times(w, hScale) > Width(other) {
      // w * hScale > w * wScale, so hScale > wScale, so h * wScale < h * hScale
      TimesMonotone(w, hScale, wScale);
      TimesMonotone(h, wScale, hScale);
    }
  }

  /** A 160 by 100 size fitted into 120 by 90: the height scale 0.9 gives
      a width of 144, too wide, so the width scale 0.75 applies. The
      result touches the other size's width, so it is not strictly
      smaller. */
  lemma FitExample()
    ensures Fit(Plane(160.0, 100.0), Plane(120.0, 90.0)) == Ok(Plane(120.0, 75.0))
  {
    assert Quot(90.0, 100.0) == 0.9;
    assert Quot(120.0, 160.0) == 0.75;
  }
}
