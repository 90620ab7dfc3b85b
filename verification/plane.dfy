/** `Plane`: the two-component value behind `Point`, `Vector` and `Size`.

    Components are modelled as `real`, an idealisation of Python floats in
    which every arithmetic identity holds exactly. The subclasses change only
    the class of the results, so all of them share this datatype; `Point`
    adds the aliases `x` and `y` for `r0` and `r1`.

    The constructor overloads are chosen at run time from the argument types;
    here the arguments are a sequence of tagged values, and an argument list
    no overload accepts ends in `DispatchFailure`. An operator that returns
    `NotImplemented` ends in `NotSupported`.
 */
module Plane {
  import opened Errors
  import opened Reals
  import Iteration
  import opened Text

  datatype Plane = Plane(r0: real, r1: real)

  /** `Point.x` and `Point.y`. */
  function X(p: Plane): real { p.r0 }
  function Y(p: Plane): real { p.r1 }

  // ----------------------------------------------------------- constructors

  /** A constructor argument. */
  datatype Arg =
    | ANum(x: real)                   // an int or a float
    | AComplex(re: real, im: real)    // a complex number
    | APlane(p: Plane)                // an instance of the class
    | ASeq(items: seq<Arg>)           // a tuple or a list
    | AOther                          // anything else

  /** `Plane(*args)`: two numbers; one complex; one instance (a copy); two
      instances (the difference from the first to the second); a tuple or
      list, whose items are passed on as the arguments; or nothing. */
  function New(args: seq<Arg>): (r: Result<Plane>)
    ensures |args| == 2 && args[0].ANum? && args[1].ANum? ==> r == Ok(Plane(args[0].x, args[1].x))
    ensures |args| == 2 && args[0].APlane? && args[1].APlane? ==>
      r.Ok? && Add(args[0].p, OPlane(r.value)) == Ok(args[1].p)
    ensures |args| == 1 && args[0].AComplex? ==> r == Ok(Plane(args[0].re, args[0].im))
    ensures |args| == 1 && args[0].APlane? ==> r == Ok(args[0].p)
    ensures |args| == 0 ==> r.Ok? && !Truthy(r.value)
    ensures |args| == 1 && (args[0].ANum? || args[0].AOther?) ==> r.FailsWith(DispatchFailure)
    ensures |args| > 2 ==> r.FailsWith(DispatchFailure)
    decreases args
  {
    if |args| == 0 then Ok(Plane(0.0, 0.0))
    else if |args| == 1 then
      match args[0]
      case AComplex(re, im) => Ok(Plane(re, im))
      case APlane(p) => Ok(Plane(p.r0, p.r1))
      case ASeq(items) => New(items)
      case _ => Err(DispatchFailure)
    else if |args| == 2 then
      match (args[0], args[1])
      case (ANum(a), ANum(b)) => Ok(Plane(a, b))
      case (APlane(p), APlane(q)) => Ok(Plane(q.r0 - p.r0, q.r1 - p.r1))
      case _ => Err(DispatchFailure)
    else Err(DispatchFailure)
  }

  /** The tuple and list forms agree with the two-number form. */
  lemma PairForms(a: real, b: real)
    ensures New([ASeq([ANum(a), ANum(b)])]) == New([ANum(a), ANum(b)]) == Ok(Plane(a, b))
    ensures New([ASeq([ASeq([ANum(a), ANum(b)])])]) == Ok(Plane(a, b))
  {
    assert [ASeq([ANum(a), ANum(b)])][0].items == [ANum(a), ANum(b)];
  }

  // ------------------------------------------------------------- operands

  /** A right-hand operand. */
  datatype Operand =
    | OPlane(p: Plane)                // an instance of the class
    | OScalar(s: real)                // an int or a float
    | OComplex(re: real, im: real)    // a complex number
    | OSeq(items: seq<real>)          // a tuple or a list of numbers
    | OOther                          // anything the constructor rejects

  /** `_resolveOther`: an instance as it is; the first two items of a tuple
      or list (fewer raise IndexError, caught as `NotImplemented`); a scalar
      on both components; a complex as (real, imag). */
  function Resolve(o: Operand): (r: Option<Plane>)
    ensures o.OSeq? ==> (r.Some? <==> |o.items| >= 2)
    ensures o.OScalar? ==> r == Some(Plane(o.s, o.s))
    ensures o.OOther? ==> r.None?
  {
    match o
    case OPlane(p) => Some(p)
    case OSeq(items) => if |items| < 2 then None else Some(Plane(items[0], items[1]))
    case OScalar(s) => Some(Plane(s, s))
    case OComplex(re, im) => Some(Plane(re, im))
    case OOther => None
  }

  // ------------------------------------------------------------ arithmetic

  /** `-p`. */
  function Neg(p: Plane): (r: Plane)
    ensures Add(p, OPlane(r)) == Ok(Plane(0.0, 0.0))
  {
    Plane(-p.r0, -p.r1)
  }

  /** `p + other` (and `other + p`): componentwise. */
  function Add(p: Plane, o: Operand): (r: Result<Plane>)
    ensures r.Ok? <==> Resolve(o).Some?
    ensures r.Err? ==> r.FailsWith(NotSupported)
    ensures r.Ok? ==> r.value.r0 - p.r0 == Resolve(o).value.r0 && r.value.r1 - p.r1 == Resolve(o).value.r1
  {
    match Resolve(o)
    case None => Err(NotSupported)
    case Some(q) => Ok(Plane(p.r0 + q.r0, p.r1 + q.r1))
  }

  /** `p - other`: the other operand is resolved, negated and added. */
  function Sub(p: Plane, o: Operand): (r: Result<Plane>)
    ensures r.Ok? <==> Resolve(o).Some?
    ensures r.Err? ==> r.FailsWith(NotSupported)
    ensures r.Ok? ==> Add(r.value, OPlane(Resolve(o).value)) == Ok(p)
  {
    match Resolve(o)
    case None => Err(NotSupported)
    case Some(q) => Add(p, OPlane(Neg(q)))
  }

  /** `other - p`. */
  function RSub(p: Plane, o: Operand): (r: Result<Plane>)
    ensures r.Ok? <==> Resolve(o).Some?
    ensures r.Ok? ==> Add(p, OPlane(r.value)) == Ok(Resolve(o).value)
    ensures r.Ok? ==> Sub(Resolve(o).value, OPlane(p)) == r
  {
    match Resolve(o)
    case None => Err(NotSupported)
    case Some(q) => Ok(Plane(q.r0 - p.r0, q.r1 - p.r1))
  }

  /** `p * s` and `s * p`: only an int or a float scales; anything else,
      a complex included, is not supported. */
  function Mul(p: Plane, o: Operand): (r: Result<Plane>)
    ensures r.Ok? <==> o.OScalar?
    ensures r.Err? ==> r.FailsWith(NotSupported)
    ensures o.OScalar? ==> (Truthy(r.value) <==> o.s != 0.0 && Truthy(p))
  {
    match o
    case OScalar(s) =>
      ProductZero(p.r0, s);
      ProductZero(p.r1, s);
      Ok(Plane(Times(p.r0, s), Times(p.r1, s)))
    case _ => Err(NotSupported)
  }

  /** Dividing by a non-zero scalar undoes multiplying by it. */
  lemma MulDivInverse(p: Plane, s: real)
    requires s != 0.0
    ensures Mul(p, OScalar(s)).Ok?
    ensures Div(Mul(p, OScalar(s)).value, OScalar(s)) == Ok(p)
  {
    QuotCancels(p.r0, s);
    QuotCancels(p.r1, s);
  }

  /** `p / s`: a zero scalar raises ZeroDivisionError. */
  function Div(p: Plane, o: Operand): (r: Result<Plane>)
    ensures o.OScalar? && o.s == 0.0 ==> r.FailsWith(ZeroDivision)
    ensures !o.OScalar? ==> r.FailsWith(NotSupported)
    ensures r.Ok? <==> o.OScalar? && o.s != 0.0
    ensures r.Ok? ==> Mul(r.value, o) == Ok(p)
  {
    match o
    case OScalar(s) =>
      if s == 0.0 then Err(ZeroDivision)
      else
        QuotCancels(p.r0, s);
        QuotCancels(p.r1, s);
        Ok(Plane(Quot(p.r0, s), Quot(p.r1, s)))
    case _ => Err(NotSupported)
  }

  /** `s / p`: componentwise `s / r0`, `s / r1`; a zero scalar is rejected
      first, and a zero component makes the float division raise. */
  function RDiv(p: Plane, o: Operand): (r: Result<Plane>)
    ensures !o.OScalar? ==> r.FailsWith(NotSupported)
    ensures o.OScalar? && (o.s == 0.0 || p.r0 == 0.0 || p.r1 == 0.0) ==> r.FailsWith(ZeroDivision)
    ensures r.Ok? ==> Times(r.value.r0, p.r0) == o.s && Times(r.value.r1, p.r1) == o.s
  {
    match o
    case OScalar(s) =>
      if s == 0.0 then Err(ZeroDivision)
      else if p.r0 == 0.0 || p.r1 == 0.0 then Err(ZeroDivision)
      else
        QuotCancels(s, p.r0);
        QuotCancels(s, p.r1);
        Ok(Plane(Quot(s, p.r0), Quot(s, p.r1)))
    case _ => Err(NotSupported)
  }

  /** Subtraction is addition of the negation, and `-(-p) == p`. */
  lemma SubIsAddNeg(p: Plane, q: Plane)
    ensures Sub(p, OPlane(q)) == Add(p, OPlane(Neg(q)))
    ensures Neg(Neg(q)) == q
    ensures RSub(p, OPlane(q)) == Sub(q, OPlane(p))
  {
  }

  // ------------------------------------------------------------- protocols

  /** `__bool__`: `r0 ** 2 + r1 ** 2` is non-zero. */
  function Truthy(p: Plane): (b: bool)
    ensures !b <==> p.r0 == 0.0 && p.r1 == 0.0
  {
    SquareSumZero(p.r0, p.r1);
    Square(p.r0) + Square(p.r1) != 0.0
  }

  /** `__len__`. */
  const Len: nat := 2

  /** `__iter__`'s buffer: `r0`, then `r1`. */
  function Items(p: Plane): (s: seq<real>)
    ensures |s| == Len
  {
    [p.r0, p.r1]
  }

  /** `Plane` uses the checking `__next__`, so unpacking yields both
      components and rebuilds the value through the pair constructor. */
  lemma UnpackRoundTrip(p: Plane)
    ensures Iteration.Drain(Some(Items(p))) == Ok([p.r0, p.r1])
    ensures New([ANum(Items(p)[0]), ANum(Items(p)[1])]) == Ok(p)
  {
    Iteration.DrainYieldsBuffer(Items(p));
  }

  // -------------------------------------------------------------- indexing

  /** The two attribute names. */
  datatype Component = R0 | R1

  function Get(p: Plane, c: Component): real {
    match c
    case R0 => p.r0
    case R1 => p.r1
  }

  /** `_parseIndex`: a negative index is retried with `len + index`; an index
      of at least `len` raises IndexError. */
  function ParseIndex(i: int): (r: Result<Component>)
    ensures i >= Len ==> r.FailsWith(IndexOutOfRange)
    ensures i < Len ==> r == Ok(if i % 2 == 0 then R0 else R1)
    decreases if i < 0 then -i else 0
  {
    if i < 0 then ParseIndex(Len + i)
    else if i >= Len then Err(IndexOutOfRange)
    else if i != 0 then Ok(R1)
    else Ok(R0)
  }

  /** `_parseKey`: `'x'`/`'r0'` and `'y'`/`'r1'`, in any letter case;
      anything else raises KeyError. */
  function ParseKey(key: string): (r: Result<Component>)
    ensures r.Ok? <==> Lower(key) in ["x", "r0", "y", "r1"]
    ensures r.Err? ==> r.FailsWith(KeyMissing)
    ensures r == Ok(R0) <==> Lower(key) in ["x", "r0"]
  {
    var k := Lower(key);
    if k in ["x", "r0"] then Ok(R0)
    else if k in ["y", "r1"] then Ok(R1)
    else Err(KeyMissing)
  }

  /** What `p[item]` may be given. */
  datatype Item = IInt(i: int) | IStr(s: string) | IOther

  /** `__getitem__`: an int through `_parseIndex`, a string through
      `_parseKey`, anything else raises TypeError. */
  function GetItem(p: Plane, item: Item): (r: Result<real>)
    ensures item.IInt? ==> (r.Ok? <==> item.i < Len)
    ensures item.IInt? && item.i < Len ==> r == Ok(Items(p)[item.i % 2])
    ensures item.IInt? && item.i >= Len ==> r.FailsWith(IndexOutOfRange)
    ensures item.IStr? ==> (r.Ok? <==> Lower(item.s) in ["x", "r0", "y", "r1"])
    ensures item.IStr? && r.Ok? ==> r.value == if Lower(item.s) in ["x", "r0"] then p.r0 else p.r1
    ensures item.IStr? && r.Err? ==> r.FailsWith(KeyMissing)
    ensures item.IOther? ==> r.FailsWith(TypeMismatch)
  {
    var key := match item
      case IInt(i) => ParseIndex(i)
      case IStr(s) => ParseKey(s)
      case IOther => Err(TypeMismatch);
    match key
    case Err(e) => Err(e)
    case Ok(c) => Ok(Get(p, c))
  }

  /** Key lookup ignores letter case: `p['X'] == p['x'] == p.r0`. */
  lemma KeysIgnoreCase(p: Plane, s: string)
    ensures GetItem(p, IStr(s)) == GetItem(p, IStr(Lower(s)))
    ensures GetItem(p, IStr("X")) == Ok(p.r0) && GetItem(p, IStr("R1")) == Ok(p.r1)
  {
    LowerIdempotent(s);
    assert Lower("X") == "x";
    assert Lower("R1") == "r1";
  }
}
