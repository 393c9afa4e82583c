/** Stable sorting by a comparator, and text comparison by code units. */
module Sorting {
  import opened JsonText
  import opened KeyOrder

  function ByText(a: Text, b: Text): int {
    if Less(a, b) then -1 else if Less(b, a) then 1 else 0
  }

  ghost predicate TotalPreorder<T(!new)>(compare: (T, T) -> int) {
    && (forall a, b :: compare(a, b) <= 0 || compare(b, a) <= 0)
    && (forall a, b, c :: compare(a, b) <= 0 && compare(b, c) <= 0 ==> compare(a, c) <= 0)
  }

  ghost predicate SortedBy<T>(compare: (T, T) -> int, s: seq<T>) {
    forall i, j :: 0 <= i < j < |s| ==> compare(s[i], s[j]) <= 0
  }

  function InsertBy<T>(compare: (T, T) -> int, s: seq<T>, x: T): seq<T> {
    if s == [] || compare(s[|s| - 1], x) <= 0 then s + [x]
    else InsertBy(compare, s[..|s| - 1], x) + [s[|s| - 1]]
  }

  function SortBy<T>(compare: (T, T) -> int, s: seq<T>): seq<T> {
    if s == [] then [] else InsertBy(compare, SortBy(compare, s[..|s| - 1]), s[|s| - 1])
  }

  lemma Transits<T(!new)>(compare: (T, T) -> int, a: T, b: T, c: T)
    requires TotalPreorder(compare)
    ensures compare(a, b) <= 0 || compare(b, a) <= 0
    ensures compare(a, b) <= 0 && compare(b, c) <= 0 ==> compare(a, c) <= 0
  {
  }

  lemma {:induction false} InsertAdds<T>(compare: (T, T) -> int, s: seq<T>, x: T)
    ensures multiset(InsertBy(compare, s, x)) == multiset(s) + multiset{x}
  {
    if s != [] && compare(s[|s| - 1], x) > 0 {
      InsertAdds(compare, s[..|s| - 1], x);
      assert s == s[..|s| - 1] + [s[|s| - 1]];
    }
  }

  lemma {:induction false} InsertIsSorted<T(!new)>(compare: (T, T) -> int, s: seq<T>, x: T)
    requires TotalPreorder(compare) && SortedBy(compare, s)
    ensures SortedBy(compare, InsertBy(compare, s, x))
  {
    hide TotalPreorder;
    if s != [] && compare(s[|s| - 1], x) > 0 {
      var front, last := s[..|s| - 1], s[|s| - 1];
      InsertIsSorted(compare, front, x);
      InsertAdds(compare, front, x);
      var out := InsertBy(compare, front, x);
      Transits(compare, x, last, last);
      forall i | 0 <= i < |out| ensures compare(out[i], last) <= 0 {
        assert out[i] in multiset(out);
        if out[i] != x {
          assert out[i] in front;
        }
      }
    } else {
      forall i | 0 <= i < |s| ensures compare(s[i], x) <= 0 {
        Transits(compare, s[i], s[|s| - 1], x);
      }
    }
  }

  lemma {:induction false} SortIsSorted<T(!new)>(compare: (T, T) -> int, s: seq<T>)
    requires TotalPreorder(compare)
    ensures SortedBy(compare, SortBy(compare, s))
    ensures multiset(SortBy(compare, s)) == multiset(s)
    ensures |SortBy(compare, s)| == |s|
  {
    if s != [] {
      var front := s[..|s| - 1];
      SortIsSorted(compare, front);
      hide TotalPreorder;
      InsertAdds(compare, SortBy(compare, front), s[|s| - 1]);
      InsertIsSorted(compare, SortBy(compare, front), s[|s| - 1]);
      assert s == front + [s[|s| - 1]];
    }
    assert |multiset(SortBy(compare, s))| == |multiset(s)|;
  }

  lemma ByTextOrders(a: Text, b: Text, c: Text)
    ensures ByText(a, b) <= 0 || ByText(b, a) <= 0
    ensures ByText(a, b) <= 0 && ByText(b, c) <= 0 ==> ByText(a, c) <= 0
    ensures ByText(a, b) == 0 <==> a == b
    ensures ByText(a, b) < 0 <==> ByText(b, a) > 0
    ensures ByText(a, b) < 0 && ByText(b, c) <= 0 ==> ByText(a, c) < 0
    ensures ByText(a, b) <= 0 && ByText(b, c) < 0 ==> ByText(a, c) < 0
  {
    LessTrichotomy(a, b);
    LessTrichotomy(b, c);
    LessTrichotomy(a, c);
    if Less(a, b) && Less(b, c) {
      LessTransitive(a, b, c);
    }
  }
}
