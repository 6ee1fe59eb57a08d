/**
 Decimal rounding as the program uses it: `Decimal.quantize` and Python's `round`
 both round half to even at a fixed number of decimals.  A scale of 10^d stands for
 d decimals.
 */
module Rounding {

  type Scale = s: real | s > 0.0 witness 1.0

  /** The integer nearest to x; a tie goes to the even neighbour. */
  function HalfEven(x: real): (n: int)
    ensures -0.5 <= n as real - x <= 0.5
    ensures n as real - x == 0.5 || n as real - x == -0.5 ==> n % 2 == 0
  {
    var below := x.Floor;
    var rest := x - below as real;
    if rest < 0.5 then below
    else if rest > 0.5 then below + 1
    else if below % 2 == 0 then below
    else below + 1
  }

  /** The n-th multiple of the unit 1/s. */
  function Tick(n: int, s: Scale): real {
    n as real / s
  }

  function RoundAt(x: real, s: Scale): real {
    Tick(HalfEven(x * s), s)
  }

  /** x has no digits beyond the scale. */
  ghost predicate OnGrid(x: real, s: Scale) {
    exists n: int :: x == Tick(n, s)
  }

  // ---------- products ----------

  /** A product, named so that equal factors are recognised as giving equal products. */
  function Times(a: real, b: real): real {
    a * b
  }

  lemma TimesMonotone(a: real, x: real, y: real)
    requires a >= 0.0 && x <= y
    ensures Times(a, x) <= Times(a, y)
  {
  }

  lemma TimesDistributes(a: real, b: real, x: real)
    ensures Times(a + b, x) == Times(a, x) + Times(b, x)
  {
  }

  lemma TimesAssociate(a: real, b: real, x: real)
    ensures Times(Times(a, b), x) == Times(a, Times(b, x))
  {
  }

  lemma TimesNegated(a: real, b: real)
    ensures Times(a, -b) == -Times(a, b)
  {
  }

  lemma TimesNothing(x: real)
    ensures Times(0.0, x) == 0.0 && Times(x, 0.0) == 0.0
  {
  }

  lemma TimesOne(x: real)
    ensures Times(1.0, x) == x && Times(x, 1.0) == x
  {
  }

  lemma OneMoreTime(n: nat, x: real)
    requires n > 0
    ensures Times(n as real, x) == Times((n - 1) as real, x) + x
  {
  }

  lemma TimesNonNegative(a: real, b: real)
    requires a >= 0.0 && b >= 0.0
    ensures Times(a, b) >= 0.0
  {
  }

  lemma TimesShrinks(a: real, scale: real)
    requires a >= 0.0 && scale <= 1.0
    ensures Times(a, scale) <= a
    ensures scale >= 0.0 ==> Times(a, scale) >= 0.0
    ensures a > 0.0 && scale < 1.0 ==> Times(a, scale) < a
  {
  }

  lemma QuotientIs(q: real, n: real, t: real)
    requires n > 0.0 && Times(n, q) == t
    ensures t / n == q
  {
  }

  // ---------- laws of rounding, at every scale ----------

  lemma HalfEvenMonotone(x: real, y: real)
    requires x <= y
    ensures HalfEven(x) <= HalfEven(y)
  {
  }

  lemma HalfEvenNearest(x: real, n: int)
    requires -0.5 < x - n as real < 0.5 || ((x - n as real == 0.5 || x - n as real == -0.5) && n % 2 == 0)
    ensures HalfEven(x) == n
  {
  }

  lemma HalfEvenOdd(x: real)
    ensures HalfEven(-x) == -HalfEven(x)
  {
  }

  lemma DivMonotone(a: real, b: real, s: Scale)
    requires a <= b
    ensures a / s <= b / s
  {
  }

  lemma TickTimesScale(n: int, s: Scale)
    ensures Tick(n, s) * s == n as real
  {
  }

  lemma RoundError(x: real, s: Scale)
    ensures -0.5 / s <= RoundAt(x, s) - x <= 0.5 / s
  {
    var n := HalfEven(x * s) as real;
    assert n / s - x == (n - x * s) / s;
    DivMonotone(-0.5, n - x * s, s);
    DivMonotone(n - x * s, 0.5, s);
  }

  lemma RoundMonotone(x: real, y: real, s: Scale)
    requires x <= y
    ensures RoundAt(x, s) <= RoundAt(y, s)
  {
    assert x * s <= y * s;
    HalfEvenMonotone(x * s, y * s);
    DivMonotone(HalfEven(x * s) as real, HalfEven(y * s) as real, s);
  }

  lemma RoundOdd(x: real, s: Scale)
    ensures RoundAt(-x, s) == -RoundAt(x, s)
  {
    assert (-x) * s == -(x * s);
    HalfEvenOdd(x * s);
    var n := HalfEven(x * s);
    assert Tick(-n, s) == -Tick(n, s);
  }

  lemma RoundedIsOnGrid(x: real, s: Scale)
    ensures OnGrid(RoundAt(x, s), s)
  {
  }

  /** Rounding leaves exactly the grid points alone; in particular it is idempotent. */
  lemma RoundFixesGrid(x: real, s: Scale)
    ensures OnGrid(x, s) <==> RoundAt(x, s) == x
  {
    if OnGrid(x, s) {
      var n :| x == Tick(n, s);
      TickTimesScale(n, s);
      assert HalfEven(x * s) == n;
    } else {
      assert RoundAt(x, s) == Tick(HalfEven(x * s), s);
    }
  }

  lemma GridSum(x: real, y: real, s: Scale)
    requires OnGrid(x, s) && OnGrid(y, s)
    ensures OnGrid(x + y, s) && OnGrid(x - y, s)
  {
    var n :| x == Tick(n, s);
    var m :| y == Tick(m, s);
    assert x + y == Tick(n + m, s);
    assert x - y == Tick(n - m, s);
  }

  // ---------- money: eight decimals ----------

  const MONEY_SCALE: Scale := 100000000.0

  /** One unit in the eighth decimal. */
  const UNIT := 0.00000001

  function Money(x: real): real {
    RoundAt(x, MONEY_SCALE)
  }

  ghost predicate IsMoney(x: real) {
    OnGrid(x, MONEY_SCALE)
  }

  lemma MoneyError(x: real)
    ensures -0.5 * UNIT <= Money(x) - x <= 0.5 * UNIT
    ensures IsMoney(Money(x))
  {
    RoundError(x, MONEY_SCALE);
    RoundedIsOnGrid(x, MONEY_SCALE);
  }

  lemma MoneyMonotone(x: real, y: real)
    requires x <= y
    ensures Money(x) <= Money(y)
  {
    RoundMonotone(x, y, MONEY_SCALE);
  }

  lemma MoneyFixed(x: real)
    requires IsMoney(x)
    ensures Money(x) == x
  {
    RoundFixesGrid(x, MONEY_SCALE);
  }

  lemma MoneySum(x: real, y: real)
    requires IsMoney(x) && IsMoney(y)
    ensures IsMoney(x + y) && IsMoney(x - y)
  {
    GridSum(x, y, MONEY_SCALE);
  }

  lemma ZeroIsMoney()
    ensures IsMoney(0.0) && Money(0.0) == 0.0
  {
    assert 0.0 == Tick(0, MONEY_SCALE);
    MoneyFixed(0.0);
  }

  /** Rounding keeps the sign, and half a unit below zero still rounds to zero. */
  lemma MoneySign(x: real)
    ensures x >= 0.0 ==> Money(x) >= 0.0
    ensures x <= 0.0 ==> Money(x) <= 0.0
    ensures Money(x) >= 0.0 <==> x >= -0.5 * UNIT
    ensures Money(x) > 0.0 <==> x > 0.5 * UNIT
  {
    ZeroIsMoney();
    if x >= 0.0 { MoneyMonotone(0.0, x); }
    if x <= 0.0 { MoneyMonotone(x, 0.0); }
    var n := HalfEven(x * MONEY_SCALE);
    assert Money(x) == n as real / 100000000.0;
  }
}
