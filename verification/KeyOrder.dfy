/**
 Sorting keyed entries by key, as `Array.sort` orders strings: by UTF-16 code units. With distinct
 keys there is one sorted list for one set of entries.
 */
module KeyOrder {
  import opened Wrappers
  import opened JsonText

  predicate Less(a: Text, b: Text) {
    b != [] && (a == [] || a[0] < b[0] || (a[0] == b[0] && Less(a[1..], b[1..])))
  }

  lemma {:induction false} LessTrichotomy(a: Text, b: Text)
    ensures Less(a, b) || a == b || Less(b, a)
    ensures !(Less(a, b) && Less(b, a)) && !(a == b && Less(a, b))
  {
    if a != [] && b != [] {
      LessTrichotomy(a[1..], b[1..]);
      if a[0] == b[0] {
        assert a == [a[0]] + a[1..] && b == [b[0]] + b[1..];
      }
    }
  }

  lemma {:induction false} LessTransitive(a: Text, b: Text, c: Text)
    requires Less(a, b) && Less(b, c)
    ensures Less(a, c)
  {
    if a != [] && a[0] == b[0] == c[0] {
      LessTransitive(a[1..], b[1..], c[1..]);
    }
  }

  predicate Sorted<T>(s: seq<Keyed<T>>) {
    forall i, j :: 0 <= i < j < |s| ==> Less(s[i].key, s[j].key)
  }

  predicate Distinct<T>(s: seq<Keyed<T>>) {
    forall i, j :: 0 <= i < j < |s| ==> s[i].key != s[j].key
  }

  function Insert<T>(e: Keyed<T>, s: seq<Keyed<T>>): seq<Keyed<T>> {
    if s == [] then [e]
    else if Less(s[0].key, e.key) then [s[0]] + Insert(e, s[1..])
    else [e] + s
  }

  function Sort<T>(s: seq<Keyed<T>>): seq<Keyed<T>> {
    if s == [] then [] else Insert(s[0], Sort(s[1..]))
  }

  function Lookup<T>(s: seq<Keyed<T>>, k: Text): Option<T> {
    if s == [] then None else if s[0].key == k then Some(s[0].value) else Lookup(s[1..], k)
  }

  lemma {:induction false} LookupNone<T>(s: seq<Keyed<T>>, k: Text)
    ensures Lookup(s, k).None? <==> forall i :: 0 <= i < |s| ==> s[i].key != k
  {
    if s != [] {
      LookupNone(s[1..], k);
      if Lookup(s, k).None? {
        forall i | 0 <= i < |s| ensures s[i].key != k {
          if i > 0 { assert s[i] == s[1..][i - 1]; }
        }
      } else if s[0].key != k {
        var i :| 0 <= i < |s[1..]| && s[1..][i].key == k;
        assert s[i + 1].key == k;
      }
    }
  }

  /** Inserting an entry under a new key adds it to the lookups and keeps the list sorted. */
  lemma {:induction false} InsertSorts<T>(e: Keyed<T>, s: seq<Keyed<T>>)
    requires Sorted(s) && Lookup(s, e.key).None?
    ensures Sorted(Insert(e, s))
    ensures forall k :: Lookup(Insert(e, s), k) == if k == e.key then Some(e.value) else Lookup(s, k)
    ensures forall i :: 0 <= i < |Insert(e, s)| ==>
              Insert(e, s)[i] == e || Insert(e, s)[i] in s
  {
    if s != [] {
      LessTrichotomy(s[0].key, e.key);
      if Less(s[0].key, e.key) {
        InsertSorts(e, s[1..]);
        InsertAfter(e, s);
      } else {
        forall j | 0 <= j < |s| ensures Less(e.key, s[j].key) {
          if j > 0 { LessTransitive(e.key, s[0].key, s[j].key); }
        }
      }
    }
  }

  lemma InsertAfter<T>(e: Keyed<T>, s: seq<Keyed<T>>)
    requires Sorted(s) && s != [] && Less(s[0].key, e.key)
    requires Sorted(Insert(e, s[1..]))
    requires forall i :: 0 <= i < |Insert(e, s[1..])| ==>
               Insert(e, s[1..])[i] == e || Insert(e, s[1..])[i] in s[1..]
    ensures Sorted(Insert(e, s))
    ensures forall i :: 0 <= i < |Insert(e, s)| ==> Insert(e, s)[i] == e || Insert(e, s)[i] in s
  {
    var tail := Insert(e, s[1..]);
    forall i | 0 <= i < |tail| ensures Less(s[0].key, tail[i].key) && (tail[i] == e || tail[i] in s) {
      if tail[i] != e {
        var j :| 0 <= j < |s[1..]| && s[1..][j] == tail[i];
        assert s[j + 1] == tail[i];
      }
    }
  }

  /** Sorting distinct keys yields a strictly ascending list with the same entries. */
  lemma {:induction false} SortSorts<T>(s: seq<Keyed<T>>)
    requires Distinct(s)
    ensures Sorted(Sort(s))
    ensures forall k :: Lookup(Sort(s), k) == Lookup(s, k)
  {
    if s != [] {
      SortSorts(s[1..]);
      LookupNone(s[1..], s[0].key);
      InsertSorts(s[0], Sort(s[1..]));
    }
  }

  lemma HeadIsFound<T>(s: seq<Keyed<T>>)
    requires s != []
    ensures Lookup(s, s[0].key) == Some(s[0].value)
  {
  }

  lemma FoundIsAfterHead<T>(s: seq<Keyed<T>>, k: Text)
    requires Sorted(s) && s != [] && Lookup(s, k).Some?
    ensures k == s[0].key || Less(s[0].key, k)
  {
    LookupNone(s, k);
  }

  lemma TailLookup<T>(s: seq<Keyed<T>>, k: Text)
    requires Sorted(s) && s != []
    ensures Lookup(s[1..], k) == if k == s[0].key then None else Lookup(s, k)
  {
    LookupNone(s[1..], s[0].key);
    forall i | 0 <= i < |s[1..]| ensures s[1..][i].key != s[0].key {
      LessTrichotomy(s[0].key, s[i + 1].key);
    }
  }

  /** Two sorted lists with the same lookups are the same list. */
  lemma {:induction false} SortedUnique<T>(s: seq<Keyed<T>>, t: seq<Keyed<T>>)
    requires Sorted(s) && Sorted(t)
    requires forall k :: Lookup(s, k) == Lookup(t, k)
    ensures s == t
  {
    if s == [] {
      if t != [] { HeadIsFound(t); }
    } else {
      HeadIsFound(s);
      LookupNone(t, s[0].key);
      HeadIsFound(t);
      FoundIsAfterHead(s, t[0].key);
      FoundIsAfterHead(t, s[0].key);
      LessTrichotomy(s[0].key, t[0].key);
      forall k ensures Lookup(s[1..], k) == Lookup(t[1..], k) {
        TailLookup(s, k);
        TailLookup(t, k);
      }
      SortedUnique(s[1..], t[1..]);
      assert s == [s[0]] + s[1..] && t == [t[0]] + t[1..];
    }
  }

  lemma {:induction false} InsertMembers<T>(e: Keyed<T>, s: seq<Keyed<T>>)
    ensures forall i :: 0 <= i < |Insert(e, s)| ==> Insert(e, s)[i] == e || Insert(e, s)[i] in s
  {
    if s != [] && Less(s[0].key, e.key) {
      InsertMembers(e, s[1..]);
      var tail := Insert(e, s[1..]);
      forall i | 0 <= i < |tail| ensures tail[i] == e || tail[i] in s {
        if tail[i] != e {
          var j :| 0 <= j < |s[1..]| && s[1..][j] == tail[i];
          assert s[j + 1] == tail[i];
        }
      }
    }
  }

  /** Sorting neither invents nor loses entries. */
  lemma {:induction false} SortMembers<T>(s: seq<Keyed<T>>)
    ensures forall i :: 0 <= i < |Sort(s)| ==> Sort(s)[i] in s
  {
    if s != [] {
      SortMembers(s[1..]);
      InsertMembers(s[0], Sort(s[1..]));
      forall i | 0 <= i < |Sort(s)| ensures Sort(s)[i] in s {
        if Sort(s)[i] != s[0] {
          var j :| 0 <= j < |Sort(s[1..])| && Sort(s[1..])[j] == Sort(s)[i];
          var l :| 0 <= l < |s[1..]| && s[1..][l] == Sort(s)[i];
          assert s[l + 1] == Sort(s)[i];
        }
      }
    }
  }
}
