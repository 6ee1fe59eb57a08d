/** Sequences of one element, repeated. */
module Repeats {

  function Repeat<T>(x: T, n: nat): seq<T> {
    if n == 0 then [] else Repeat(x, n - 1) + [x]
  }

  lemma RepeatStep<T>(x: T, n: nat)
    ensures Repeat(x, 0) == [] && (n > 0 ==> Repeat(x, n) == Repeat(x, n - 1) + [x])
  {
  }

  lemma {:induction false} RepeatedElements<T>(x: T, n: nat)
    ensures |Repeat(x, n)| == n && forall i | 0 <= i < n :: Repeat(x, n)[i] == x
  {
    if n > 0 { RepeatedElements(x, n - 1); }
  }

  /** Appended to a sequence, one at a time. */
  lemma RepeatAfter<T>(s: seq<T>, x: T, n: nat)
    ensures n == 0 ==> s + Repeat(x, n) == s
    ensures n > 0 ==> s + Repeat(x, n) == (s + Repeat(x, n - 1)) + [x]
  {
  }
}
