/** Rounding to the nearest integer with ties going to the even neighbour, as
    the source's `round` does. */
module Rounding {

  /** The two clauses determine the result: see `HalfEvenUnique`. */
  function HalfEven(x: real): (r: int)
    ensures r as real - 0.5 <= x <= r as real + 0.5
    ensures x == r as real - 0.5 || x == r as real + 0.5 ==> r % 2 == 0
  {
    var low := x.Floor;
    var rest := x - low as real;
    if rest < 0.5 then low
    else if rest > 0.5 then low + 1
    else if low % 2 == 0 then low
    else low + 1
  }

  /** Nearest, ties to even, has one solution. */
  lemma HalfEvenUnique(x: real, r: int)
    requires r as real - 0.5 <= x <= r as real + 0.5
    requires x == r as real - 0.5 || x == r as real + 0.5 ==> r % 2 == 0
    ensures r == HalfEven(x)
  {
    OneApart(r, HalfEven(x), x);
  }

  /** Two integers within half a unit of `x` differ by one at most, and then
      `x` is the midpoint. */
  lemma OneApart(r: int, s: int, x: real)
    requires r as real - 0.5 <= x <= r as real + 0.5
    requires s as real - 0.5 <= x <= s as real + 0.5
    ensures r == s || (r == s + 1 && x == s as real + 0.5) || (s == r + 1 && x == r as real + 0.5)
  {
    var gap := r - s;
    assert gap as real == r as real - s as real;
  }

  lemma HalfEvenMonotone(x: real, y: real)
    requires x <= y
    ensures HalfEven(x) <= HalfEven(y)
  {
    var gap := HalfEven(x) - HalfEven(y);
    assert gap as real == HalfEven(x) as real - HalfEven(y) as real;
  }

  lemma HalfEvenOfInt(n: int)
    ensures HalfEven(n as real) == n
  {
    HalfEvenUnique(n as real, n);
  }

  /** Where the cut lies, exactly: an even target absorbs the tie below it. */
  lemma HalfEvenReaches(x: real, target: int)
    requires target % 2 == 0
    ensures HalfEven(x) >= target <==> x >= target as real - 0.5
  {
    var gap := target - HalfEven(x);
    assert gap as real == target as real - HalfEven(x) as real;
    if gap == 1 {
      assert x <= target as real - 0.5;
    }
  }
}
