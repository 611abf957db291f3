// The largest element of a finite set of numbers.
module Sets {
  /** MAX over a set, or `none` for an empty one. */
  function MaxOr(s: set<int>, none: int): (m: int)
    ensures if s == {} then m == none else m in s && forall x :: x in s ==> x <= m
  {
    if s == {} then none
    else
      HasMax(s);
      var m :| m in s && forall x :: x in s ==> x <= m;
      m
  }

  lemma Element<T>(s: set<T>) returns (x: T)
    requires s != {}
    ensures x in s
  {
    x :| x in s;
  }

  lemma HasMax(s: set<int>)
    requires s != {}
    ensures exists m :: m in s && forall x :: x in s ==> x <= m
  {
    var x := Element(s);
    var rest := s - {x};
    if rest == {} {
      assert s == {x};
      assert forall y :: y in s ==> y <= x;
    } else {
      HasMax(rest);
      var m :| m in rest && forall y :: y in rest ==> y <= m;
      TopOf(s, x, m);
    }
  }

  lemma TopOf(s: set<int>, x: int, m: int)
    requires x in s && m in s && forall y :: y in s - {x} ==> y <= m
    ensures exists top :: top in s && forall y :: y in s ==> y <= top
  {
    var top := if x > m then x else m;
    forall y | y in s
      ensures y <= top
    {
      if y != x {
        assert y in s - {x};
      }
    }
  }
}
