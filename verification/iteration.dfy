/** The buffered iterator protocol shared by `LayoutIndex` and both
    `LayoutRect` classes: `__iter__` stores a list of items on the object and
    `__next__` pops its front.

    Two versions of `__next__` exist. The layouts `LayoutRect` checks the
    buffer before popping and raises StopIteration when it is empty or
    cleared. `LayoutIndex` and the widgets `LayoutRect` pop inside a `try`
    that catches only IndexError, and clear the buffer to `None` as soon as
    it is empty, so the call after the last item pops from `None`.

    A `for` loop, `list(...)` or unpacking calls `__next__` until it raises;
    StopIteration ends the loop normally, and any other exception escapes.
 */
module Iteration {
  import opened Errors

  /** The size of an iteration buffer; a cleared buffer (`None`) is smallest. */
  function BufferSize<T>(buf: Option<seq<T>>): nat {
    match buf
    case None => 0
    case Some(s) => |s| + 1
  }

  /** `__next__` that checks the buffer first. */
  function Next<T>(buf: Option<seq<T>>): (r: (Result<T>, Option<seq<T>>))
    ensures r.0.Ok? ==> BufferSize(r.1) < BufferSize(buf)
    ensures r.0.Err? ==> r.0.FailsWith(IterationStop) && r.1.None?
  {
    if buf.Some? && |buf.value| > 0 then (Ok(buf.value[0]), Some(buf.value[1..]))
    else (Err(IterationStop), None)
  }

  /** A loop over the checking iterator. */
  function Drain<T>(buf: Option<seq<T>>): Result<seq<T>>
    decreases BufferSize(buf)
  {
    match Next(buf).0
    case Err(e) => if e == IterationStop then Ok([]) else Err(e)
    case Ok(x) =>
      match Drain(Next(buf).1)
      case Ok(rest) => Ok([x] + rest)
      case Err(e) => Err(e)
  }

  /** Looping over the checking iterator yields exactly the buffer, in order. */
  lemma {:induction false} DrainYieldsBuffer<T>(s: seq<T>)
    ensures Drain(Some(s)) == Ok(s)
    decreases |s|
  {
    if |s| > 0 {
      DrainYieldsBuffer(s[1..]);
      assert s == [s[0]] + s[1..];
    }
  }

  /** `__next__` that pops first and clears the buffer once it is empty:
      `pop` on an empty list raises IndexError, turned into StopIteration,
      while `pop` on `None` raises AttributeError, which escapes. */
  function NextClearing<T>(buf: Option<seq<T>>): (r: (Result<T>, Option<seq<T>>))
    ensures r.0.Ok? ==> BufferSize(r.1) < BufferSize(buf)
    ensures buf.None? ==> r.0.FailsWith(AttributeMissing)
    ensures buf == Some([]) ==> r.0.FailsWith(IterationStop)
    ensures r.1.Some? ==> |r.1.value| > 0
  {
    match buf
    case None => (Err(AttributeMissing), None)
    case Some(s) =>
      if |s| == 0 then (Err(IterationStop), None)
      else (Ok(s[0]), if |s| == 1 then None else Some(s[1..]))
  }

  /** A loop over the clearing iterator. */
  function DrainClearing<T>(buf: Option<seq<T>>): Result<seq<T>>
    decreases BufferSize(buf)
  {
    match NextClearing(buf).0
    case Err(e) => if e == IterationStop then Ok([]) else Err(e)
    case Ok(x) =>
      match DrainClearing(NextClearing(buf).1)
      case Ok(rest) => Ok([x] + rest)
      case Err(e) => Err(e)
  }

  /** Looping over a non-empty buffer with the clearing iterator ends in
      AttributeError; only an empty buffer stops normally. */
  lemma {:induction false} DrainClearingFails<T>(s: seq<T>)
    ensures |s| > 0 ==> DrainClearing(Some(s)).FailsWith(AttributeMissing)
    ensures |s| == 0 ==> DrainClearing(Some(s)) == Ok([])
    decreases |s|
  {
    if |s| > 1 {
      DrainClearingFails(s[1..]);
    }
  }
}
