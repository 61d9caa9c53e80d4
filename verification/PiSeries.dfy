/** The series loop of go/pi.go over exact reals: what it sums, and how far it still is from any later sum. */
module PiSeries {
  function Power(x: real, n: nat): real {
    if n == 0 then 1.0 else x * Power(x, n - 1)
  }

  lemma Regroup(a: real, b: real, c: real)
    ensures a * b * c == a * (b * c)
    ensures a * b == b * a
  {
  }

  lemma {:induction false} PowerSquare(x: real, n: nat)
    ensures Power(x * x, n) == Power(x, 2 * n)
  {
    if n > 0 {
      PowerSquare(x, n - 1);
      Regroup(x, x, Power(x, 2 * n - 2));
      assert Power(x, 2 * n) == x * Power(x, 2 * n - 1);
      assert Power(x, 2 * n - 1) == x * Power(x, 2 * n - 2);
    }
  }

  /** One round of square and multiply keeps the product. */
  lemma PowRound(x: real, y: real, n: nat)
    requires n > 0
    ensures y * Power(x, n) == (if n % 2 == 1 then y * x else y) * Power(x * x, n / 2)
  {
    PowerSquare(x, n / 2);
    if n % 2 == 1 {
      assert n == 2 * (n / 2) + 1;
      assert Power(x, n) == x * Power(x, n - 1);
      Regroup(y, x, Power(x, n - 1));
    } else {
      assert n == 2 * (n / 2);
    }
  }

  method Pow(b: real, e: nat) returns (y: real)
    ensures y == Power(b, e)
  {
    if e == 0 {
      return 1.0;
    }
    var x, n := b, e;
    y := 1.0;
    while n > 0
      invariant y * Power(x, n) == Power(b, e)
    {
      PowRound(x, y, n);
      if n % 2 == 1 {
        y := y * x;
      }
      x := x * x;
      n := n / 2;
    }
  }

  // ---------- the series ----------

  /** The size of term `n`: x^(2n+1) / (2n+1). */
  function Size(x: real, n: nat): real {
    Power(x, 2 * n + 1) / (2 * n + 1) as real
  }

  /** x - x^3/3 + x^5/5 - ..., `m` terms. */
  function Series(x: real, m: nat): real {
    if m == 0 then 0.0
    else if m % 2 == 1 then Series(x, m - 1) + Size(x, m - 1)
    else Series(x, m - 1) - Size(x, m - 1)
  }

  lemma {:induction false} PowerOfMinusOne(n: nat)
    ensures Power(-1.0, n) == if n % 2 == 0 then 1.0 else -1.0
  {
    if n > 0 {
      PowerOfMinusOne(n - 1);
    }
  }

  /** The loop of `oneThread`. */
  method OneThread(x: real, numIters: nat) returns (a: real)
    ensures a == Series(x, numIters)
  {
    a := 0.0;
    for n := 0 to numIters
      invariant a == Series(x, n)
    {
      var k := 2 * n + 1;
      var sign := Pow(-1.0, n);
      var p := Pow(x, k);
      PowerOfMinusOne(n);
      a := a + sign * p / k as real;
    }
  }

  /** The first sums. */
  lemma FirstSums(x: real)
    ensures Series(x, 0) == 0.0 && Series(x, 1) == x
    ensures Series(x, 2) == x - x * x * x / 3.0
    ensures Series(x, 3) == x - x * x * x / 3.0 + x * x * x * x * x / 5.0
  {
    assert Power(x, 1) == x * Power(x, 0) == x;
    assert Power(x, 2) == x * x;
    Regroup(x, x, x);
    assert Power(x, 3) == x * Power(x, 2) == x * x * x;
    Regroup(x * x, x, x);
    Regroup(x, x, Power(x, 3));
    assert Power(x, 4) == x * Power(x, 3);
    assert Power(x, 5) == x * Power(x, 4) == x * x * Power(x, 3);
    Regroup(x * x, x * x, x);
    Regroup(x * x, x, x);
    assert x * x * Power(x, 3) == x * x * x * x * x;
  }

  /** What the loop adds for `m`, times 2m + 1. */
  function Numerator(x: real, m: nat): real {
    (Series(x, m + 1) - Series(x, m)) * (2 * m + 1) as real
  }

  /** What turns each summand into the next one. */
  lemma NextSum(x: real, m: nat)
    ensures Numerator(x, m + 1) == -Numerator(x, m) * (x * x)
  {
    var k := 2 * m + 1;
    NumeratorIs(x, m, k);
    NumeratorIs(x, m + 1, k + 2);
    NextPower(x, k);
    Signed(m % 2 == 0, Numerator(x, m), Numerator(x, m + 1), Power(x, k), x * x, Power(x, k + 2));
  }

  lemma Signed(plus: bool, a: real, b: real, power: real, square: real, next: real)
    requires a == (if plus then power else -power) && b == (if plus then -next else next) && power * square == next
    ensures b == -a * square
  {
    Negated(power, square);
    assert -(-power) == power;
  }

  /** Two factors more. */
  lemma NextPower(x: real, k: nat)
    ensures Power(x, k) * (x * x) == Power(x, k + 2)
  {
    var power := Power(x, k);
    assert Power(x, k + 2) == x * Power(x, k + 1) == x * (x * power);
    Regroup(x, x, power);
    Regroup(x * x, power, 1.0);
  }

  lemma Negated(a: real, b: real)
    ensures -a * b == -(a * b)
  {
  }

  lemma NumeratorIs(x: real, m: nat, k: nat)
    requires k == 2 * m + 1
    ensures Numerator(x, m) == if m % 2 == 0 then Power(x, k) else -Power(x, k)
  {
    assert Series(x, m + 1) - Series(x, m) == if m % 2 == 0 then Size(x, m) else -Size(x, m);
    QuotientTimes(Power(x, k), k as real);
  }

  lemma QuotientTimes(a: real, p: real)
    requires p > 0.0
    ensures (a / p) * p == a && -(a / p) * p == -a
  {
    Negated(a / p, p);
  }

  // ---------- the alternating series ----------

  lemma ScaleBy(x: real, p: real)
    requires 0.0 <= x <= 1.0 && 0.0 <= p
    ensures 0.0 <= x * p <= p
  {
  }

  lemma {:induction false} PowerIn01(x: real, n: nat)
    requires 0.0 <= x <= 1.0
    ensures 0.0 <= Power(x, n) <= 1.0
  {
    if n > 0 {
      PowerIn01(x, n - 1);
      ScaleBy(x, Power(x, n - 1));
    }
  }

  lemma QuotientAntitone(p: real, q: real, a: real, b: real)
    requires 0.0 <= q <= p && 0.0 < a <= b
    ensures 0.0 <= q / b <= p / a
  {
  }

  /** The terms shrink. */
  lemma SizeShrinks(x: real, n: nat)
    requires 0.0 <= x <= 1.0
    ensures 0.0 <= Size(x, n + 1) <= Size(x, n) <= 1.0 / (2 * n + 1) as real
  {
    PowerIn01(x, 2 * n + 1);
    OneMore(x, 2 * n + 1);
    OneMore(x, 2 * n + 2);
    QuotientAntitone(Power(x, 2 * n + 1), Power(x, 2 * n + 3), (2 * n + 1) as real, (2 * n + 3) as real);
    QuotientAntitone(1.0, Power(x, 2 * n + 1), (2 * n + 1) as real, (2 * n + 1) as real);
  }

  lemma OneMore(x: real, n: nat)
    requires 0.0 <= x <= 1.0
    ensures 0.0 <= Power(x, n + 1) <= Power(x, n)
  {
    PowerIn01(x, n);
    ScaleBy(x, Power(x, n));
  }

  /** Terms `m` to `m + k`, the first one taken positively. */
  function Tail(x: real, m: nat, k: nat): real
    decreases k
  {
    if k == 0 then 0.0 else Size(x, m) - Tail(x, m + 1, k - 1)
  }

  lemma {:induction false} TailBound(x: real, m: nat, k: nat)
    requires 0.0 <= x <= 1.0
    ensures 0.0 <= Tail(x, m, k) <= Size(x, m)
    decreases k
  {
    SizeShrinks(x, m);
    if k > 0 {
      TailBound(x, m + 1, k - 1);
    }
  }

  lemma {:induction false} SeriesSplits(x: real, m: nat, k: nat)
    ensures Series(x, m + k) == Series(x, m) + if m % 2 == 0 then Tail(x, m, k) else -Tail(x, m, k)
    decreases k
  {
    if k > 0 {
      SeriesSplits(x, m + 1, k - 1);
    }
  }

  /** Every later sum is on the side of the next term and no further than that term. */
  lemma LaterSumsAreNear(x: real, m: nat, k: nat)
    requires 0.0 <= x <= 1.0
    ensures m % 2 == 0 ==> 0.0 <= Series(x, m + k) - Series(x, m) <= Size(x, m)
    ensures m % 2 == 1 ==> 0.0 <= Series(x, m) - Series(x, m + k) <= Size(x, m)
    ensures -(1.0 / (2 * m + 1) as real) <= Series(x, m + k) - Series(x, m) <= 1.0 / (2 * m + 1) as real
  {
    SeriesSplits(x, m, k);
    TailBound(x, m, k);
    SizeShrinks(x, m);
  }

  lemma SumsStayInRange(x: real, m: nat)
    requires 0.0 <= x <= 1.0
    ensures 0.0 <= Series(x, m) <= x
  {
    SeriesSplits(x, 0, m);
    TailBound(x, 0, m);
    assert Power(x, 1) == x * Power(x, 0);
  }

  lemma SmallTerm(eps: real, m: nat)
    requires eps > 0.0 && m as real > 1.0 / eps
    ensures 2.0 * (1.0 / (2 * m + 1) as real) <= eps
  {
    var c := (2 * m + 1) as real;
    assert c > 2.0 / eps by { Doubled(eps); }
    QuotientAntitone(1.0, 1.0, 2.0 / eps, c);
    Doubled(eps);
  }

  lemma Doubled(eps: real)
    requires eps > 0.0
    ensures 2.0 / eps == 2.0 * (1.0 / eps) > 0.0 && 2.0 * (1.0 / (2.0 / eps)) == eps
  {
    var q, h := 1.0 / eps, 2.0 / eps;
    assert q * eps == 1.0 && h * eps == 2.0;
    Cancel(h, 2.0 * q, eps);
    Cancel(2.0 * (1.0 / h), eps, h);
  }

  lemma Cancel(a: real, b: real, c: real)
    requires a * c == b * c && c != 0.0
    ensures a == b
  {
    assert (a - b) * c == 0.0;
  }

  /** The sums converge for every x the loop draws. */
  lemma SeriesIsCauchy(x: real, eps: real) returns (m: nat)
    requires 0.0 <= x <= 1.0 && eps > 0.0
    ensures forall i: nat, j: nat :: m <= i && m <= j ==> -eps <= Series(x, i) - Series(x, j) <= eps
  {
    m := (1.0 / eps).Floor + 1;
    SmallTerm(eps, m);
    forall i: nat, j: nat | m <= i && m <= j ensures -eps <= Series(x, i) - Series(x, j) <= eps {
      LaterSumsAreNear(x, m, i - m);
      LaterSumsAreNear(x, m, j - m);
    }
  }
}
