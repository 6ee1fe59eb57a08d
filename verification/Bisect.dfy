/** Python's bisect over a strictly sorted list of timestamps, and the ascending order of a set. */
module Bisect {

  predicate StrictlySorted(a: seq<int>) {
    forall i, j | 0 <= i < j < |a| :: a[i] < a[j]
  }

  /** The leftmost place in a[lo..hi] at which x keeps the list sorted. */
  function LeftIn(a: seq<int>, x: int, lo: nat, hi: nat): (r: nat)
    requires lo <= hi <= |a| && StrictlySorted(a)
    ensures lo <= r <= hi
    ensures forall i | lo <= i < r :: a[i] < x
    ensures forall i | r <= i < hi :: x <= a[i]
    decreases hi - lo
  {
    if lo == hi then lo
    else
      var mid := (lo + hi) / 2;
      if a[mid] < x then LeftIn(a, x, mid + 1, hi) else LeftIn(a, x, lo, mid)
  }

  /** The rightmost such place. */
  function RightIn(a: seq<int>, x: int, lo: nat, hi: nat): (r: nat)
    requires lo <= hi <= |a| && StrictlySorted(a)
    ensures lo <= r <= hi
    ensures forall i | lo <= i < r :: a[i] <= x
    ensures forall i | r <= i < hi :: x < a[i]
    decreases hi - lo
  {
    if lo == hi then lo
    else
      var mid := (lo + hi) / 2;
      if x < a[mid] then RightIn(a, x, lo, mid) else RightIn(a, x, mid + 1, hi)
  }

  function BisectLeft(a: seq<int>, x: int): (r: nat)
    requires StrictlySorted(a)
    ensures r <= |a| && (forall i | 0 <= i < r :: a[i] < x) && (forall i | r <= i < |a| :: x <= a[i])
  {
    LeftIn(a, x, 0, |a|)
  }

  function BisectRight(a: seq<int>, x: int): (r: nat)
    requires StrictlySorted(a)
    ensures r <= |a| && (forall i | 0 <= i < r :: a[i] <= x) && (forall i | r <= i < |a| :: x < a[i])
  {
    RightIn(a, x, 0, |a|)
  }

  // ---------- ORDER BY ascending ----------

  predicate IsLeast(x: int, s: set<int>) {
    x in s && forall y | y in s :: x <= y
  }

  lemma HasMember(s: set<int>)
    requires s != {}
    ensures exists x :: x in s
  {
    assert (forall x :: x !in s) ==> s == {};
  }

  lemma {:induction false} LeastExists(s: set<int>)
    requires s != {}
    ensures exists x :: IsLeast(x, s)
    decreases |s|
  {
    HasMember(s);
    var x :| x in s;
    var rest := s - {x};
    assert forall z :: z in s <==> z == x || z in rest;
    if rest == {} {
      assert IsLeast(x, s);
    } else {
      LeastExists(rest);
      var y :| IsLeast(y, rest);
      var z := if x < y then x else y;
      assert IsLeast(z, s);
    }
  }

  ghost function Least(s: set<int>): (x: int)
    requires s != {}
    ensures IsLeast(x, s)
  {
    LeastExists(s);
    var x :| IsLeast(x, s);
    x
  }

  /** The elements of s in ascending order. */
  ghost function Ascending(s: set<int>): (r: seq<int>)
    ensures StrictlySorted(r)
    ensures forall x :: x in r <==> x in s
    ensures forall i | 0 <= i < |r| :: r[i] in s
    decreases |s|
  {
    if s == {} then [] else
      var rest := Ascending(s - {Least(s)});
      [Least(s)] + rest
  }

  lemma AscendingStartsWithLeast(s: set<int>)
    ensures s == {} ==> Ascending(s) == []
    ensures s != {} ==> Ascending(s) == [Least(s)] + Ascending(s - {Least(s)})
  {
  }

  lemma FirstIsLeast(a: seq<int>, s: set<int>)
    requires StrictlySorted(a) && |a| > 0 && forall x :: x in a <==> x in s
    ensures s != {} && Least(s) == a[0]
  {
    assert a[0] in a && a[0] in s;
    assert Least(s) in a;
  }

  lemma RestHasTheOthers(a: seq<int>, s: set<int>)
    requires StrictlySorted(a) && |a| > 0 && forall x :: x in a <==> x in s
    ensures StrictlySorted(a[1..])
    ensures forall x :: x in a[1..] <==> x in s - {a[0]}
  {
    var rest := a[1..];
    assert a == [a[0]] + rest;
    forall i | 0 <= i < |rest| ensures rest[i] != a[0] {
      assert rest[i] == a[i + 1];
    }
  }

  /** A strictly sorted list is the ascending order of its elements. */
  lemma {:induction false} SortedIsAscending(a: seq<int>, s: set<int>)
    requires StrictlySorted(a) && forall x :: x in a <==> x in s
    ensures a == Ascending(s)
    decreases |a|
  {
    hide *;
    AscendingStartsWithLeast(s);
    if |a| == 0 {
      NoElements(s);
    } else {
      FirstIsLeast(a, s);
      RestHasTheOthers(a, s);
      SortedIsAscending(a[1..], s - {a[0]});
      assert a == [a[0]] + a[1..];
    }
  }

  lemma NoElements(s: set<int>)
    requires forall x :: x !in s
    ensures s == {}
  {
    if s != {} { HasMember(s); }
  }

  lemma LastIsGreatest(a: seq<int>)
    requires StrictlySorted(a) && |a| > 0
    ensures forall x | x in a :: x <= a[|a| - 1]
  {
  }

  /** The greatest element of a set comes last in its ascending order. */
  lemma GreatestIsLast(s: set<int>, x: int)
    requires x in s && forall y | y in s :: y <= x
    ensures Ascending(s) != [] && Ascending(s)[|Ascending(s)| - 1] == x
  {
    var all := Ascending(s);
    assert x in all;
    LastIsGreatest(all);
    assert all[|all| - 1] in all;
  }
}
