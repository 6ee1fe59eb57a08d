/** Python's stable sort, as insertion from the right. */
module Sorting {

  predicate SortedBy<T(!new)>(s: seq<T>, le: (T, T) -> bool) {
    forall i, j | 0 <= i < j < |s| :: le(s[i], s[j])
  }

  /** le ranks any two elements, consistently. */
  ghost predicate TotalPreorder<T(!new)>(le: (T, T) -> bool) {
    (forall x, y :: le(x, y) || le(y, x)) && (forall x, y, z :: le(x, y) && le(y, z) ==> le(x, z))
  }

  /** Puts x after every element that does not exceed it. */
  function Insert<T>(s: seq<T>, x: T, le: (T, T) -> bool): (r: seq<T>)
    ensures |r| == |s| + 1
    ensures multiset(r) == multiset(s) + multiset{x}
  {
    if |s| == 0 then [x]
    else
      var n := |s| - 1;
      assert s == s[..n] + [s[n]];
      if le(s[n], x) then s + [x]
      else
        assert multiset(Insert(s[..n], x, le) + [s[n]]) == multiset(s[..n]) + multiset{x} + multiset{s[n]};
        Insert(s[..n], x, le) + [s[n]]
  }

  function Sort<T>(s: seq<T>, le: (T, T) -> bool): (r: seq<T>)
    ensures |r| == |s| && multiset(r) == multiset(s)
  {
    if |s| == 0 then []
    else
      assert s == s[..|s| - 1] + [s[|s| - 1]];
      Insert(Sort(s[..|s| - 1], le), s[|s| - 1], le)
  }

  lemma InsertMembers<T>(s: seq<T>, x: T, le: (T, T) -> bool, y: T)
    requires y in Insert(s, x, le)
    ensures y == x || y in s
  {
    assert y in multiset(Insert(s, x, le));
    assert y == x || y in multiset(s);
  }

  lemma AppendKeepsSorted<T(!new)>(s: seq<T>, x: T, le: (T, T) -> bool)
    requires SortedBy(s, le) && forall y | y in s :: le(y, x)
    ensures SortedBy(s + [x], le)
  {
  }

  lemma LastIsLargest<T(!new)>(s: seq<T>, x: T, le: (T, T) -> bool)
    requires TotalPreorder(le) && SortedBy(s, le) && |s| > 0 && le(s[|s| - 1], x)
    ensures forall y | y in s :: le(y, x)
  {
    forall i | 0 <= i < |s| ensures le(s[i], x) {
      assert i < |s| - 1 ==> le(s[i], s[|s| - 1]);
    }
  }

  lemma {:induction false} InsertKeepsSorted<T(!new)>(s: seq<T>, x: T, le: (T, T) -> bool)
    requires TotalPreorder(le) && SortedBy(s, le)
    ensures SortedBy(Insert(s, x, le), le)
  {
    if |s| > 0 {
      var n := |s| - 1;
      if le(s[n], x) {
        LastIsLargest(s, x, le);
        AppendKeepsSorted(s, x, le);
      } else {
        InsertKeepsSorted(s[..n], x, le);
        var r := Insert(s[..n], x, le);
        forall y | y in r ensures le(y, s[n]) {
          InsertMembers(s[..n], x, le, y);
          if y != x { var i :| 0 <= i < n && s[i] == y; }
        }
        AppendKeepsSorted(r, s[n], le);
      }
    }
  }

  lemma {:induction false} SortSorts<T(!new)>(s: seq<T>, le: (T, T) -> bool)
    requires TotalPreorder(le)
    ensures SortedBy(Sort(s, le), le)
  {
    if |s| > 0 {
      SortSorts(s[..|s| - 1], le);
      InsertKeepsSorted(Sort(s[..|s| - 1], le), s[|s| - 1], le);
    }
  }

  lemma InsertAtEnd<T>(s: seq<T>, x: T, le: (T, T) -> bool)
    requires |s| > 0 ==> le(s[|s| - 1], x)
    ensures Insert(s, x, le) == s + [x]
  {
  }

  lemma SortOneMore<T>(s: seq<T>, le: (T, T) -> bool)
    ensures |s| == 0 ==> Sort(s, le) == s
    ensures |s| > 0 ==> Sort(s, le) == Insert(Sort(s[..|s| - 1], le), s[|s| - 1], le)
  {
  }

  lemma SortedInit<T(!new)>(s: seq<T>, le: (T, T) -> bool)
    requires SortedBy(s, le) && |s| > 0
    ensures SortedBy(s[..|s| - 1], le)
    ensures |s| > 1 ==> le(s[|s| - 2], s[|s| - 1])
  {
  }

  /** A list that is in order already stays as it is. */
  lemma {:induction false} SortFixesSorted<T(!new)>(s: seq<T>, le: (T, T) -> bool)
    requires SortedBy(s, le)
    ensures Sort(s, le) == s
  {
    hide *;
    SortOneMore(s, le);
    if |s| > 0 {
      var init, last := s[..|s| - 1], s[|s| - 1];
      SortedInit(s, le);
      SortFixesSorted(init, le);
      InsertAtEnd(init, last, le);
      assert init + [last] == s;
    }
  }
}
