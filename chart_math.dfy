/** Integer and comparison helpers of the bundled chart library (chart.js):
    trial-division factorisation, the two clamps, and the point-in-area test. */
module ChartMath {

  // ---------------------------------------------------------------------------
  // Factorisation (_factorize)
  // ---------------------------------------------------------------------------

  /** `d` divides `n` with no remainder. */
  predicate Divides(d: int, n: int)
    requires d > 0
  {
    n % d == 0
  }

  predicate IsPrime(p: int) {
    p >= 2 && forall d :: 2 <= d < p ==> !Divides(d, p)
  }

  /** The product of a list; 1 for the empty list. */
  function Product(s: seq<int>): int
    decreases |s|
  {
    if s == [] then 1 else Product(s[..|s| - 1]) * s[|s| - 1]
  }

  predicate NonDecreasing(s: seq<int>) {
    forall j, k :: 0 <= j < k < |s| ==> s[j] <= s[k]
  }

  predicate AllPrime(s: seq<int>) {
    forall k :: 0 <= k < |s| ==> IsPrime(s[k])
  }

  /** A multiple of `d` leaves no remainder. */
  lemma MultipleHasNoRemainder(d: int, k: int)
    requires d > 0
    ensures (d * k) % d == 0
  {
    var q, r := (d * k) / d, (d * k) % d;
    assert d * k == d * q + r;
    assert r == d * (k - q);
    MultipleBounds(d, k - q);
  }

  /** A non-zero multiple of a positive `d` is at least `d` away from 0. */
  lemma MultipleBounds(d: int, x: int)
    requires d > 0
    ensures x >= 1 ==> d * x >= d
    ensures x <= -1 ==> d * x <= -d
  {
  }

  /** Divisibility passes to multiples. */
  lemma DividesMultiple(d: int, a: int, b: int)
    requires d > 0 && a % d == 0
    ensures (a * b) % d == 0
  {
    var q := a / d;
    assert a == d * q;
    assert a * b == d * (q * b);
    MultipleHasNoRemainder(d, q * b);
  }

  lemma ProductAtLeast(a: int, b: int, c: int)
    requires 0 <= c <= a && c <= b
    ensures a * b >= c * c
  {
    assert a * b >= c * b;
  }

  /** A divisor of `n` that is at least `i`, where `i * i` exceeds `n`, has a cofactor in `[2, i)`. */
  lemma SmallCofactor(n: int, d: int, i: int)
    requires n > 1 && i >= 2 && i * i > n && i <= d < n && n % d == 0
    ensures 2 <= n / d < i && Divides(n / d, n)
  {
    var e := n / d;
    assert n == d * e;
    if e >= i {
      ProductAtLeast(d, e, i);
    }
    MultipleHasNoRemainder(e, d);
    assert n == e * d;
  }

  /** A number above 1 with no divisor below `i`, where `i * i` exceeds it, is prime. */
  lemma NoSmallDivisorIsPrime(n: int, i: int)
    requires n > 1 && i >= 2 && i * i > n
    requires forall d :: 2 <= d < i ==> !Divides(d, n)
    ensures IsPrime(n)
  {
    forall d | 2 <= d < n
      ensures !Divides(d, n)
    {
      if Divides(d, n) && d >= i {
        SmallCofactor(n, d, i);
      }
    }
  }

  /** The smallest divisor above 1 of a number is prime. */
  lemma SmallestDivisorIsPrime(n: int, i: int)
    requires i >= 2 && n % i == 0
    requires forall d :: 2 <= d < i ==> !Divides(d, n)
    ensures IsPrime(i)
  {
    var m := n / i;
    assert n == i * m;
    forall d | 2 <= d < i
      ensures !Divides(d, i)
    {
      if Divides(d, i) {
        DividesMultiple(d, i, m);
        assert Divides(d, n);
      }
    }
  }

  /** Dividing out `i` keeps every smaller number a non-divisor, and the quotient stays at least `i`. */
  lemma QuotientStep(n: int, i: int, m: int)
    requires i >= 2 && i * i <= n && n == i * m
    requires forall d :: 2 <= d < i ==> !Divides(d, n)
    ensures i <= m < n
    ensures forall d :: 2 <= d < i ==> !Divides(d, m)
  {
    MultipleBounds(i, m - i + 1);
    MultipleBounds(m, i - 1);
    forall d | 2 <= d < i
      ensures !Divides(d, m)
    {
      if Divides(d, m) {
        DividesMultiple(d, m, i);
        assert m * i == n;
        assert Divides(d, n);
      }
    }
  }

  lemma ProductStep(s: seq<int>, i: int, m: int, n: int)
    requires n == i * m
    ensures Product(s + [i]) * m == Product(s) * n
  {
    assert (s + [i])[..|s|] == s;
    assert Product(s + [i]) == Product(s) * i;
  }

  /** What holds at the head of the trial-division loop of `_factorize`: `result`
      times the unfactored rest `n` is the input, `result` is a non-decreasing list
      of primes none above the divisor `i`, and `n` has no divisor in `[2, i)`. */
  predicate FactorizeInvariant(n0: int, result: seq<int>, n: int, i: int) {
    && i >= 2
    && (n0 < 2 ==> n == n0 && result == [])
    && (n0 >= 2 ==> n >= 1 && Product(result) * n == n0)
    && (forall d :: 2 <= d < i ==> !Divides(d, n))
    && AllPrime(result) && NonDecreasing(result)
    && (forall k :: 0 <= k < |result| ==> result[k] <= i)
  }

  /** Dividing out a divisor `i` found by the loop keeps the invariant and shrinks `n`. */
  lemma DivideOut(n0: int, result: seq<int>, n: int, i: int)
    requires FactorizeInvariant(n0, result, n, i) && i * i <= n && n % i == 0
    ensures FactorizeInvariant(n0, result + [i], n / i, i)
    ensures n / i - i < n - i
  {
    var m := n / i;
    assert n == i * m;
    SmallestDivisorIsPrime(n, i);
    QuotientStep(n, i, m);
    ProductStep(result, i, m, n);
  }

  /** The leftover factor after the loop is prime and completes the product. */
  lemma LastFactor(n0: int, result: seq<int>, n: int, i: int)
    requires FactorizeInvariant(n0, result, n, i) && i * i > n && n > 1
    ensures n0 >= 2
    ensures var r := result + [n]; NonDecreasing(r) && AllPrime(r) && Product(r) == n0
  {
    NoSmallDivisorIsPrime(n, i);
    if n < i {
      MultipleHasNoRemainder(n, 1);
      assert Divides(n, n);
    }
    ProductStep(result, n, 1, n);
  }

  /** `_factorize(n)`: trial division from 2 while `i * i <= n`, then the leftover
      factor if it exceeds 1. For `n >= 2` the result is the non-decreasing list of
      prime factors of `n`; for `n < 2` it is empty. */
  method Factorize(n0: int) returns (result: seq<int>)
    ensures n0 < 2 ==> result == []
    ensures n0 >= 2 ==> NonDecreasing(result) && AllPrime(result) && Product(result) == n0
  {
    result := [];
    var n := n0;
    var i := 2;
    while i * i <= n
      invariant FactorizeInvariant(n0, result, n, i)
      decreases n - i
    {
      MultipleBounds(i, i);
      if n % i != 0 {
        i := i + 1;
      } else {
        DivideOut(n0, result, n, i);
        result := result + [i];
        n := n / i;
      }
    }
    if n > 1 {
      LastFactor(n0, result, n, i);
      result := result + [n];
    }
  }

  // ---------------------------------------------------------------------------
  // Clamps (_limitValue, _int16Range)
  // ---------------------------------------------------------------------------

  /** `_limitValue(value, min, max)`: `Math.max(min, Math.min(max, value))`. */
  function LimitValue(value: real, min: real, max: real): (r: real)
    ensures min <= max ==> min <= r <= max
    ensures min <= value <= max ==> r == value
    ensures min <= max && value < min ==> r == min
    ensures min <= max && value > max ==> r == max
    ensures min > max ==> r == min
  {
    var upper := if max < value then max else value;
    if min > upper then min else upper
  }

  const Int16Min: real := -32768.0
  const Int16Max: real := 32767.0

  /** `_int16Range(n)`: saturates to the 16-bit signed range. */
  function Int16Range(n: real): (r: real)
    ensures Int16Min <= r <= Int16Max
    ensures Int16Min <= n <= Int16Max ==> r == n
    ensures n > Int16Max ==> r == Int16Max
    ensures n < Int16Min ==> r == Int16Min
  {
    if n > Int16Max then Int16Max else if n < Int16Min then Int16Min else n
  }

  /** The 16-bit saturation is the general clamp with the 16-bit bounds. */
  lemma Int16RangeIsLimitValue(n: real)
    ensures Int16Range(n) == LimitValue(n, Int16Min, Int16Max)
  {
  }

  /** Clamping is idempotent. */
  lemma LimitValueIdempotent(value: real, min: real, max: real)
    ensures LimitValue(LimitValue(value, min, max), min, max) == LimitValue(value, min, max)
  {
  }

  // ---------------------------------------------------------------------------
  // Point in area (_isPointInArea)
  // ---------------------------------------------------------------------------

  datatype Point = Point(x: real, y: real)
  datatype Area = Area(left: real, top: real, right: real, bottom: real)

  /** The area grown by `margin` on every side. */
  function Expand(area: Area, margin: real): (grown: Area)
    ensures grown.right - grown.left == area.right - area.left + 2.0 * margin
    ensures grown.bottom - grown.top == area.bottom - area.top + 2.0 * margin
  {
    Area(area.left - margin, area.top - margin, area.right + margin, area.bottom + margin)
  }

  /** The point lies in the closed rectangle. */
  predicate InRectangle(point: Point, area: Area) {
    area.left <= point.x <= area.right && area.top <= point.y <= area.bottom
  }

  /** `_isPointInArea(point, area, margin)`: boundaries count as inside. */
  function IsPointInArea(point: Point, area: Area, margin: real): (inside: bool)
    ensures inside <==> InRectangle(point, Expand(area, margin))
  {
    point.x >= area.left - margin && point.x <= area.right + margin
      && point.y >= area.top - margin && point.y <= area.bottom + margin
  }

  /** A wider margin accepts every point a narrower one does. */
  lemma AreaMonotoneInMargin(point: Point, area: Area, m1: real, m2: real)
    requires m1 <= m2
    ensures IsPointInArea(point, area, m1) ==> IsPointInArea(point, area, m2)
  {
  }

  /** With the default margin 0 the corners are inside, and a point just beyond an edge is not. */
  lemma AreaBoundariesInclusive(area: Area, eps: real)
    requires area.left <= area.right && area.top <= area.bottom && eps > 0.0
    ensures IsPointInArea(Point(area.left, area.top), area, 0.0)
    ensures IsPointInArea(Point(area.right, area.bottom), area, 0.0)
    ensures !IsPointInArea(Point(area.right + eps, area.top), area, 0.0)
    ensures !IsPointInArea(Point(area.left, area.top - eps), area, 0.0)
  {
  }
}
