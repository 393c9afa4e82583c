/** Finite sets of integers: the largest element, and the elements in ascending order. */
module IntSets {

  lemma Member<T>(s: set<T>) returns (y: T)
    requires s != {}
    ensures y in s
  {
    y :| y in s;
  }

  lemma {:induction false} MaxExists(s: set<int>)
    requires s != {}
    ensures exists m :: m in s && forall x :: x in s ==> x <= m
  {
    var y := Member(s);
    if s != {y} {
      MaxExists(s - {y});
      var n :| n in s - {y} && forall x :: x in s - {y} ==> x <= n;
      var m := if y <= n then n else y;
      assert m in s && forall x :: x in s ==> x <= m by {
        forall x | x in s ensures x <= m {
          if x != y { assert x in s - {y}; }
        }
      }
    } else {
      assert y in s && forall x :: x in s ==> x <= y;
    }
  }

  lemma MinExists(s: set<int>)
    requires s != {}
    ensures exists m :: m in s && forall x :: x in s ==> m <= x
  {
    var negated := set x | x in s :: -x;
    var y := Member(s);
    assert -y in negated;
    MaxExists(negated);
    var m :| m in negated && forall x :: x in negated ==> x <= m;
    assert -m in s && forall x :: x in s ==> -m <= x by {
      forall x | x in s ensures -m <= x { assert -x in negated; }
    }
  }

  function MaxOf(s: set<int>): (m: int)
    requires s != {}
    ensures m in s && forall x :: x in s ==> x <= m
  {
    MaxExists(s);
    var m :| m in s && forall x :: x in s ==> x <= m;
    m
  }

  function Ascending(s: set<int>): (q: seq<int>)
    ensures forall x :: x in q <==> x in s
    ensures forall i, j :: 0 <= i < j < |q| ==> q[i] < q[j]
  {
    if s == {} then
      []
    else
      MinExists(s);
      var m :| m in s && forall x :: x in s ==> m <= x;
      [m] + Ascending(s - {m})
  }

  function Interval(lo: int, hi: int): (s: set<int>)
    requires lo <= hi
    ensures forall x :: x in s <==> lo < x <= hi
    ensures |s| == hi - lo
    decreases hi - lo
  {
    if lo == hi then {} else Interval(lo, hi - 1) + {hi}
  }

  lemma {:induction false} SubsetSize<T>(s: set<T>, t: set<T>)
    requires s <= t
    ensures |s| <= |t|
    ensures |s| == |t| <==> s == t
  {
    if s != {} {
      var x := Member(s);
      SubsetSize(s - {x}, t - {x});
      assert s == (s - {x}) + {x} && t == (t - {x}) + {x};
    } else {
      assert t == {} <==> |t| == 0;
    }
  }

  lemma {:induction false} AscendingSize(s: set<int>)
    ensures |Ascending(s)| == |s|
  {
    var q := Ascending(s);
    if s != {} {
      AscendingSize(s - {q[0]});
    }
  }
}
