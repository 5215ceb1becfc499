/**
 * Python and NumPy arithmetic the modelled code relies on, written out over
 * Dafny's unbounded `int` and exact `real`: sums, floor division, `int()` of a
 * float, the float `%` operator and basic slicing.
 */
module Numeric {

  /** `np.sum` / `sum` of a sequence of numbers (0 for the empty sequence). */
  function Sum(s: seq<real>): real
  {
    if s == [] then 0.0 else s[0] + Sum(s[1..])
  }

  lemma {:induction false} SumAppend(a: seq<real>, b: seq<real>)
    ensures Sum(a + b) == Sum(a) + Sum(b)
  {
    if a == [] {
      assert a + b == b;
    } else {
      assert (a + b)[1..] == a[1..] + b;
      SumAppend(a[1..], b);
    }
  }

  /** Every element of `s` divided by `d` (NumPy's `array / scalar`). */
  function DivideAll(s: seq<real>, d: real): (r: seq<real>)
    requires d != 0.0
    ensures |r| == |s|
    ensures forall i :: 0 <= i < |s| ==> r[i] == s[i] / d
  {
    seq(|s|, i requires 0 <= i < |s| => s[i] / d)
  }

  lemma {:induction false} SumDivideAll(s: seq<real>, d: real)
    requires d != 0.0
    ensures Sum(DivideAll(s, d)) == Sum(s) / d
  {
    if s != [] {
      assert DivideAll(s, d)[1..] == DivideAll(s[1..], d);
      SumDivideAll(s[1..], d);
      DivideSum(s[0], Sum(s[1..]), d);
    }
  }

  lemma DivideSum(a: real, b: real, d: real)
    requires d != 0.0
    ensures (a + b) / d == a / d + b / d
  {
  }

  /** A sum of non-negative terms is non-negative; it is positive when one term is. */
  lemma {:induction false} SumPositive(s: seq<real>)
    requires forall i :: 0 <= i < |s| ==> s[i] > 0.0
    ensures s != [] ==> Sum(s) > 0.0
    ensures Sum(s) >= 0.0
  {
    if s != [] {
      SumPositive(s[1..]);
    }
  }

  /** Python's `a // b` on ints: rounds toward negative infinity. */
  function FloorDiv(a: int, b: int): (q: int)
    requires b != 0
    ensures b > 0 ==> q * b <= a < q * b + b
    ensures b < 0 ==> q * b >= a > q * b + b
  {
    if b > 0 then a / b else (-a) / (-b)
  }

  /** `np.ceil(x)` / `math.ceil(x)`: the least whole number not below `x`. */
  function Ceil(x: real): (n: int)
    ensures n as real - 1.0 < x <= n as real
  {
    -((-x).Floor)
  }

  /** Python's `round(x)` on a float: the nearest int, a tie going to the even neighbour. */
  function Round(x: real): (n: int)
    ensures x - 0.5 <= n as real <= x + 0.5
    ensures x.Floor <= n
    ensures x - x.Floor as real == 0.5 ==> n % 2 == 0
  {
    var f := x.Floor;
    var frac := x - f as real;
    if frac < 0.5 then f else if frac > 0.5 then f + 1 else if f % 2 == 0 then f else f + 1
  }

  /** Python's `int(x)` on a float: truncates toward zero. */
  function Trunc(x: real): (n: int)
    ensures x >= 0.0 ==> n as real <= x < n as real + 1.0
    ensures x < 0.0 ==> n as real - 1.0 < x <= n as real
  {
    if x >= 0.0 then x.Floor else -((-x).Floor)
  }

  /**
   * Python's `x % m` on floats, `x - m * floor(x / m)`, written as `m` times
   * the fractional part of `x / m`.
   */
  function PyMod(x: real, m: real): (r: real)
    requires m != 0.0
    ensures x == m * (x / m).Floor as real + r
    ensures m > 0.0 ==> 0.0 <= r < m
    ensures m < 0.0 ==> m < r <= 0.0
  {
    var t := Fraction(x / m);
    ScaleUnit(m, t);
    m * t
  }

  /** `m * t` for `t` in `[0, 1)` lies between 0 and `m`. */
  lemma ScaleUnit(m: real, t: real)
    requires 0.0 <= t < 1.0
    ensures m > 0.0 ==> 0.0 <= m * t < m
    ensures m < 0.0 ==> m < m * t <= 0.0
  {
    assert m - m * t == m * (1.0 - t);
    if m > 0.0 {
      assert m * (1.0 - t) > 0.0;
    } else if m < 0.0 {
      assert (-m) * (1.0 - t) > 0.0;
      assert (-m) * t >= 0.0;
    }
  }

  /** The fractional part `y - floor(y)`. */
  function Fraction(y: real): (t: real)
    ensures 0.0 <= t < 1.0
  {
    y - y.Floor as real
  }

  /** No element occurs twice. */
  ghost predicate Distinct<T>(s: seq<T>)
  {
    forall i, j :: 0 <= i < j < |s| ==> s[i] != s[j]
  }

  /** Where a Python slice bound `a` of a sequence of length `n` lands. */
  function SliceIndex(a: int, n: nat): (k: nat)
    ensures k <= n
  {
    if a < 0 then (if a + n < 0 then 0 else a + n) else (if a > n then n else a)
  }

  /** Python / NumPy basic slicing `s[a:b]` (negative bounds count from the end, out-of-range bounds clamp). */
  function PySlice<T>(s: seq<T>, a: int, b: int): (r: seq<T>)
    ensures 0 <= a <= b <= |s| ==> r == s[a..b]
  {
    var lo, hi := SliceIndex(a, |s|), SliceIndex(b, |s|);
    if lo >= hi then [] else s[lo..hi]
  }
}
