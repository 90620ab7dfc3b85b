/** Minimum and maximum of finite integer sets, and the cardinality facts the
    grid search needs. Python's `min(...)`/`max(...)` over a list of
    coordinates is modelled as the extremum of the set of those coordinates,
    which does not depend on the list's order.
 */
module IntSets {

  /** Every non-empty finite set of integers has a least element. */
  lemma {:induction false} LeastExists(s: set<int>)
    requires s != {}
    ensures exists m :: m in s && forall y :: y in s ==> m <= y
    decreases |s|
  {
    if forall y :: y !in s {
      assert false;
    }
    var x :| x in s;
    var rest := s - {x};
    if rest == {} {
      forall y | y in s ensures x <= y {
        assert y == x || y in rest;
      }
    } else {
      LeastExists(rest);
      var m :| m in rest && forall y :: y in rest ==> m <= y;
      var least := if x < m then x else m;
      forall y | y in s ensures least <= y {
        if y != x { assert y in rest; }
      }
      assert least in s;
    }
  }

  /** Every non-empty finite set of integers has a greatest element. */
  lemma {:induction false} GreatestExists(s: set<int>)
    requires s != {}
    ensures exists m :: m in s && forall y :: y in s ==> y <= m
    decreases |s|
  {
    if forall y :: y !in s {
      assert false;
    }
    var x :| x in s;
    var rest := s - {x};
    if rest == {} {
      forall y | y in s ensures y <= x {
        assert y == x || y in rest;
      }
    } else {
      GreatestExists(rest);
      var m :| m in rest && forall y :: y in rest ==> y <= m;
      var greatest := if m < x then x else m;
      forall y | y in s ensures y <= greatest {
        if y != x { assert y in rest; }
      }
      assert greatest in s;
    }
  }

  function MinOf(s: set<int>): (m: int)
    requires s != {}
    ensures m in s
    ensures forall y :: y in s ==> m <= y
  {
    LeastExists(s);
    var m :| m in s && forall y :: y in s ==> m <= y;
    m
  }

  function MaxOf(s: set<int>): (m: int)
    requires s != {}
    ensures m in s
    ensures forall y :: y in s ==> y <= m
  {
    GreatestExists(s);
    var m :| m in s && forall y :: y in s ==> y <= m;
    m
  }
}
