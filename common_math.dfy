/** common/math.go, together with the integer arithmetic of Go that the rest of
    the model needs: division and remainder truncate toward zero, and powers. */
module GoMath {

  function Abs(n: int): nat { if n < 0 then -n else n }

  /** Go's n / d: the quotient truncated toward zero. */
  function TDiv(n: int, d: int): (q: int)
    requires d != 0
    ensures Abs(q) == Abs(n) / Abs(d)
    ensures q != 0 ==> ((q > 0) <==> ((n > 0) == (d > 0)))
  {
    var m: int := Quot(Abs(n), Abs(d));
    if (n < 0) == (d < 0) then m else -m
  }

  /** Quotient of natural numbers, kept behind a call so that the solver
      treats it as one term. */
  function Quot(a: nat, b: nat): nat
    requires b > 0
  {
    a / b
  }

  /** Dividing a natural number by a positive one never makes it larger. */
  lemma DivNoLarger(n: nat, d: int)
    requires d >= 1
    ensures 0 <= n / d <= n
  {
    var q := n / d;
    assert n == d * q + n % d && 0 <= n % d;
    assert q >= 0;
    MulNoSmaller(d, q);
  }

  lemma MulNoSmaller(d: int, q: nat)
    requires d >= 1
    ensures d * q >= q
  {
    assert d * q == q + (d - 1) * q;
  }

  /** Go's n % d: the remainder of TDiv, which takes the sign of n. */
  function TMod(n: int, d: int): (r: int)
    requires d != 0
    ensures n == d * TDiv(n, d) + r
    ensures Abs(r) < Abs(d)
    ensures r != 0 ==> ((r > 0) <==> (n > 0))
  {
    var rr: int := Abs(n) % Abs(d);
    TruncatedDivision(n, d);
    if n < 0 then -rr else rr
  }

  lemma TruncatedDivision(n: int, d: int)
    requires d != 0
    ensures n == d * TDiv(n, d) + (if n < 0 then -(Abs(n) % Abs(d)) else Abs(n) % Abs(d))
  {
    var a: int, b: int := Abs(n), Abs(d);
    var m: int, rr: int := a / b, a % b;
    assert a == b * m + rr;
    if n >= 0 && d > 0 {
    } else if n >= 0 {
      assert d * TDiv(n, d) == (-b) * (-m) == b * m;
    } else if d > 0 {
      assert d * TDiv(n, d) == b * (-m) == -(b * m);
    } else {
      assert d * TDiv(n, d) == (-b) * m == -(b * m);
    }
  }

  lemma TDivMatchesEuclid(n: int, d: int)
    requires n >= 0 && d > 0
    ensures TDiv(n, d) == n / d && TMod(n, d) == n % d
  {
  }

  lemma {:induction false} MulPos(d: int, k: int)
    requires d > 0 && k > 0
    ensures d * k >= d
    decreases k
  {
    if k > 1 {
      MulPos(d, k - 1);
      assert d * k == d * (k - 1) + d;
    }
  }

  /** Quotient and remainder of a positive divisor are unique. */
  lemma ModUnique(n: int, d: int, q: int, r: int)
    requires d > 0 && 0 <= r < d && n == d * q + r
    ensures n % d == r && n / d == q
  {
    var q', r' := n / d, n % d;
    assert n == d * q' + r' && 0 <= r' < d;
    assert d * (q' - q) == r - r';
    if q' > q { MulPos(d, q' - q); }
    else if q' < q { MulPos(d, q - q'); }
  }

  /** Adding the divisor back to a negative Go remainder gives the Euclidean
      remainder, the usual idiom for a wrap-around index. */
  lemma NormalisedMod(n: int, d: int)
    requires d > 0
    ensures (if TMod(n, d) < 0 then TMod(n, d) + d else TMod(n, d)) == n % d
  {
    var q, r := TDiv(n, d), TMod(n, d);
    if r < 0 {
      assert n == d * (q - 1) + (r + d);
      ModUnique(n, d, q - 1, r + d);
    } else {
      ModUnique(n, d, q, r);
    }
  }

  /** Reducing one summand first does not change a remainder. */
  lemma ModAdd(a: int, b: int, d: int)
    requires d > 0
    ensures (a % d + b) % d == (a + b) % d
  {
    var q1, r1 := a / d, a % d;
    var q2, r2 := (r1 + b) / d, (r1 + b) % d;
    assert a + b == d * (q1 + q2) + r2;
    ModUnique(a + b, d, q1 + q2, r2);
  }

  lemma AbsMul(k: int, d: int)
    ensures Abs(k * d) == Abs(k) * Abs(d)
  {
    if k < 0 && d < 0 { assert k * d == (-k) * (-d); }
    else if k < 0 { assert k * d == -((-k) * d); }
    else if d < 0 { assert k * d == -(k * (-d)); }
  }

  /** Truncating division undoes a multiplication. */
  lemma TDivExact(k: int, d: int)
    requires d != 0
    ensures TDiv(k * d, d) == k
  {
    var ak, ad := Abs(k), Abs(d);
    AbsMul(k, d);
    ModUnique(ak * ad, ad, ak, 0);
    if k > 0 {
      assert (k * d > 0) == (d > 0) by { if d > 0 { MulPos(d, k); } else { MulPos(-d, k); } }
    } else if k < 0 {
      assert (k * d > 0) == (d < 0) by { if d > 0 { MulPos(d, -k); } else { MulPos(-d, -k); } }
    }
  }

  /** common.AbsInt */
  function AbsInt(n: int): (r: int)
    ensures r >= 0
    ensures r == n || r == -n
  {
    if n < 0 then -n else n
  }

  function Pow(b: int, e: nat): int {
    if e == 0 then 1 else b * Pow(b, e - 1)
  }

  lemma {:induction false} PowAdd(b: int, e1: nat, e2: nat)
    ensures Pow(b, e1 + e2) == Pow(b, e1) * Pow(b, e2)
    decreases e1
  {
    if e1 > 0 {
      PowAdd(b, e1 - 1, e2);
      assert Pow(b, e1 + e2) == b * Pow(b, e1 - 1 + e2);
    }
  }

  lemma {:induction false} PowSquare(b: int, e: nat)
    ensures Pow(b * b, e) == Pow(b, 2 * e)
  {
    if e > 0 {
      PowSquare(b, e - 1);
      PowAdd(b, 2, 2 * (e - 1));
    }
  }

  lemma {:induction false} PowPositive(b: int, e: nat)
    requires b > 0
    ensures Pow(b, e) > 0
  {
    if e > 0 { PowPositive(b, e - 1); }
  }

  /** Number of decimal digits of a natural number; 0 has none. */
  function DigitCount(n: nat): nat {
    if n == 0 then 0 else 1 + DigitCount(n / 10)
  }

  /** DigitCount(n) is the k with 10^(k-1) <= n < 10^k. */
  lemma {:induction false} DigitCountBounds(n: nat)
    ensures n < Pow(10, DigitCount(n))
    ensures n > 0 ==> Pow(10, DigitCount(n) - 1) <= n
  {
    if n > 0 {
      DigitCountBounds(n / 10);
      var k := DigitCount(n / 10);
      if n / 10 > 0 {
        assert Pow(10, k - 1) <= n / 10;
        assert Pow(10, k) == 10 * Pow(10, k - 1);
      }
    }
  }

  /** common.NumDigits: how many times n can be divided by ten before it
      reaches zero. */
  method NumDigits(n: int) returns (count: int)
    ensures count == DigitCount(Abs(n))
  {
    count := 0;
    var m := n;
    while m != 0
      invariant count + DigitCount(Abs(m)) == DigitCount(Abs(n))
      decreases Abs(m)
    {
      m := TDiv(m, 10);
      count := count + 1;
    }
  }

  lemma MulNonNegative(x: int, y: int)
    requires x >= 0 && y >= 0
    ensures x * y >= 0
  {
  }

  /** p > q >= 0 and r > t >= 0 give p * r > q * t. */
  lemma ProductGap(p: int, q: int, r: int, t: int)
    requires q >= 0 && p >= q + 1 && t >= 0 && r >= t + 1
    ensures p * r >= q * t + 1
  {
    MulNonNegative(p - q - 1, r);
    MulNonNegative(q, r - t);
    assert p * r == (p - q - 1) * r + q * (r - t) + q * t + r;
  }

  /** A non-negative factor whose product with d is positive leaves d
      positive. */
  lemma PositiveFactor(k: int, d: int)
    requires k >= 0 && k * d >= 1
    ensures d >= 1
  {
    if d < 1 {
      MulNonNegative(k, -d);
    }
  }

  /** A subset has no more members than the set holding it. */
  lemma {:induction false} SubsetSize<T>(a: set<T>, b: set<T>)
    requires a <= b
    ensures |a| <= |b|
    decreases |b|
  {
    if a != {} {
      var x :| x in a;
      SubsetSize(a - {x}, b - {x});
    }
  }
}
