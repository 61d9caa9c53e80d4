/**
  The client's message generator, x -> 37x + 1 modulo 2^64. The source remarks that it has no fixed
  points. Far more is true, for every power of two: its orbit is one single cycle through all states.
*/
module Generator {
  import opened Powers
  import opened Counting

  function Next(n: nat, x: nat): (y: nat)
    ensures y < Pow2(n)
  {
    (x * 37 + 1) % Pow2(n)
  }

  function Iter(n: nat, x: nat, k: nat): (y: nat)
    requires x < Pow2(n)
    ensures y < Pow2(n)
  {
    if k == 0 then x else Next(n, Iter(n, x, k - 1))
  }

  // ---------- without the modulus ----------

  /** The number reached from 0 in `k` steps: 1 + 37 + ... + 37^(k-1). */
  function Sum(k: nat): nat {
    if k == 0 then 0 else 37 * Sum(k - 1) + 1
  }

  function Unbounded(x: nat, k: nat): nat {
    if k == 0 then x else 37 * Unbounded(x, k - 1) + 1
  }

  lemma {:induction false} IterIsUnbounded(n: nat, x: nat, k: nat)
    requires x < Pow2(n)
    ensures Iter(n, x, k) == Unbounded(x, k) % Pow2(n)
    decreases k
  {
    if k == 0 {
      SmallMod(x, Pow2(n));
    } else {
      IterIsUnbounded(n, x, k - 1);
      NextOfMod(n, Unbounded(x, k - 1));
    }
  }

  lemma NextOfMod(n: nat, u: nat)
    ensures Next(n, u % Pow2(n)) == (37 * u + 1) % Pow2(n)
  {
    ModStep(u, Pow2(n));
  }

  lemma SmallMod(x: nat, m: nat)
    requires x < m
    ensures x % m == x
  {
  }

  lemma ModStep(u: nat, m: nat)
    requires m > 0
    ensures ((u % m) * 37 + 1) % m == (37 * u + 1) % m
  {
    var q := u / m;
    assert 37 * u + 1 == ((u % m) * 37 + 1) + (37 * q) * m by {
      assert u == q * m + u % m;
      assert 37 * (q * m) == (37 * q) * m;
    }
    AddMultiple((u % m) * 37 + 1, 37 * q, m);
  }

  lemma {:induction false} AddMultiple(a: int, q: nat, m: nat)
    requires m > 0
    ensures (a + q * m) % m == a % m
    decreases q
  {
    if q > 0 {
      AddMultiple(a, q - 1, m);
      assert a + q * m == (a + (q - 1) * m) + m;
      AddOnce(a + (q - 1) * m, m);
    }
  }

  lemma AddOnce(a: int, m: nat)
    requires m > 0
    ensures (a + m) % m == a % m
  {
    var d := (a + m) / m - a / m - 1;
    var r, r' := a % m, (a + m) % m;
    assert a == a / m * m + r && a + m == (a + m) / m * m + r';
    assert (a + m) / m * m == (a / m + 1 + d) * m == a / m * m + m + d * m;
    assert d * m == r - r';
    assert d >= 1 ==> d * m >= m;
    assert d <= -1 ==> d * m <= -1 * m;
  }

  /** After k steps the distance from the start is the geometric sum times an odd number. */
  lemma {:induction false} Distance(x: nat, k: nat)
    ensures Unbounded(x, k) == x + Sum(k) * (36 * x + 1)
    decreases k
  {
    if k > 0 {
      Distance(x, k - 1);
      var s := Sum(k - 1);
      assert 37 * (x + s * (36 * x + 1)) + 1 == x + (37 * s + 1) * (36 * x + 1);
    }
  }

  lemma {:induction false} SumAdds(a: nat, b: nat)
    ensures Sum(a + b) == Sum(a) * (36 * Sum(b) + 1) + Sum(b)
    decreases a
  {
    if a > 0 {
      SumAdds(a - 1, b);
      assert Sum(a + b) == 37 * Sum(a - 1 + b) + 1;
      SumAlgebra(Sum(a - 1), Sum(b));
    }
  }

  lemma SumAlgebra(s: nat, t: nat)
    ensures 37 * (s * (36 * t + 1) + t) + 1 == (37 * s + 1) * (36 * t + 1) + t
  {
  }

  // ---------- divisibility by powers of two ----------

  predicate Divides(n: nat, a: nat) {
    n == 0 || (a % 2 == 0 && Divides(n - 1, a / 2))
  }

  lemma {:induction false} DividesIsMod(n: nat, a: nat)
    ensures Divides(n, a) <==> a % Pow2(n) == 0
    decreases n
  {
    if n > 0 {
      DividesIsMod(n - 1, a / 2);
      HalfMod(a, Pow2(n - 1));
    }
  }

  lemma HalfMod(a: nat, m: nat)
    requires m > 0
    ensures a % (2 * m) == 0 <==> a % 2 == 0 && (a / 2) % m == 0
  {
    if a % (2 * m) == 0 {
      var q := Factor(a, 2 * m);
      Regroup(q, m);
      AddMultiple(0, q, m);
      HalfOf(a, q * m);
    }
    if a % 2 == 0 && (a / 2) % m == 0 {
      var q := Factor(a / 2, m);
      Regroup(q, m);
      AddMultiple(0, q, 2 * m);
    }
  }

  lemma Factor(a: nat, m: nat) returns (q: nat)
    requires m > 0 && a % m == 0
    ensures a == q * m
  {
    q := a / m;
  }

  lemma Regroup(q: nat, m: nat)
    ensures q * (2 * m) == 2 * (q * m)
  {
  }

  lemma HalfOf(a: nat, h: nat)
    requires a == 2 * h
    ensures a % 2 == 0 && a / 2 == h
  {
  }

  lemma {:induction false} OddFactor(n: nat, a: nat, b: nat)
    requires b % 2 == 1
    ensures Divides(n, a * b) <==> Divides(n, a)
    decreases n
  {
    if n > 0 {
      Parity(a, b);
      if a % 2 == 0 {
        OddFactor(n - 1, a / 2, b);
      }
    }
  }

  lemma Parity(a: nat, b: nat)
    requires b % 2 == 1
    ensures (a * b) % 2 == a % 2
    ensures a % 2 == 0 ==> (a * b) / 2 == a / 2 * b
  {
    var c := b / 2;
    TimesOdd(a, c);
    SameParity(a * b, a * c, a);
    if a % 2 == 0 {
      Regroup(b, a / 2);
      HalfOf(a * b, b * (a / 2));
    }
  }

  lemma TimesOdd(a: nat, c: nat)
    ensures a * (2 * c + 1) == 2 * (a * c) + a
  {
  }

  lemma SameParity(p: nat, h: nat, a: nat)
    requires p == 2 * h + a
    ensures p % 2 == a % 2
  {
  }

  lemma {:induction false} SumParity(k: nat)
    ensures Sum(k) % 2 == k % 2
    decreases k
  {
    if k > 0 {
      SumParity(k - 1);
      StepParity(Sum(k - 1), k - 1);
    }
  }

  lemma StepParity(s: nat, k: nat)
    requires s % 2 == k % 2
    ensures (37 * s + 1) % 2 == (k + 1) % 2
  {
    if s % 2 == 0 {
      var h := s / 2;
      assert 37 * s + 1 == 2 * (37 * h) + 1;
    } else {
      var h := s / 2;
      assert 37 * s + 1 == 2 * (37 * h + 19);
    }
  }

  lemma SumOfDouble(m: nat)
    ensures Sum(2 * m) == 2 * (Sum(m) * (18 * Sum(m) + 1))
  {
    SumAdds(m, m);
    DoubleAlgebra(Sum(m));
  }

  lemma DoubleAlgebra(s: nat)
    ensures s * (36 * s + 1) + s == 2 * (s * (18 * s + 1))
  {
  }

  lemma SumHalves(n: nat, m: nat)
    requires n > 0
    ensures Divides(n, Sum(2 * m)) <==> Divides(n - 1, Sum(m))
  {
    SumOfDouble(m);
    Halved(n, Sum(2 * m), Sum(m) * (18 * Sum(m) + 1));
    OddTimes(n - 1, Sum(m));
  }

  lemma OddTimes(n: nat, s: nat)
    ensures Divides(n, s * (18 * s + 1)) <==> Divides(n, s)
  {
    var t := 18 * s + 1;
    SameParity(t, 9 * s, 1);
    OddFactor(n, s, t);
  }

  lemma Halved(n: nat, a: nat, h: nat)
    requires n > 0 && a == 2 * h
    ensures Divides(n, a) <==> Divides(n - 1, h)
  {
  }

  /** The geometric sum and its length are divisible by the same powers of two. */
  lemma {:induction false} SumValuation(n: nat, k: nat)
    ensures Divides(n, Sum(k)) <==> Divides(n, k)
    decreases n
  {
    if n > 0 {
      SumParity(k);
      if k % 2 == 0 {
        var m := k / 2;
        assert k == 2 * m;
        SumHalves(n, m);
        Halved(n, k, m);
        SumValuation(n - 1, m);
      }
    }
  }

  // ---------- full period ----------

  /** From any state, the generator is back after `k` steps exactly when 2^n divides `k`. */
  lemma FullPeriod(n: nat, x: nat, k: nat)
    requires x < Pow2(n)
    ensures Iter(n, x, k) == x <==> k % Pow2(n) == 0
  {
    var d := Sum(k) * (36 * x + 1);
    IterIsUnbounded(n, x, k);
    Distance(x, k);
    BackIffMultiple(x, d, Pow2(n));
    DistanceDivides(n, x, k);
  }

  lemma DistanceDivides(n: nat, x: nat, k: nat)
    ensures (Sum(k) * (36 * x + 1)) % Pow2(n) == 0 <==> k % Pow2(n) == 0
  {
    DividesIsMod(n, Sum(k) * (36 * x + 1));
    assert 36 * x + 1 == 1 + 2 * (18 * x);
    OddFactor(n, Sum(k), 36 * x + 1);
    SumValuation(n, k);
    DividesIsMod(n, k);
  }

  lemma BackIffMultiple(x: nat, d: nat, m: nat)
    requires x < m
    ensures (x + d) % m == x <==> d % m == 0
  {
    var q := d / m;
    assert x + d == (x + d % m) + q * m;
    AddMultiple(x + d % m, q, m);
    if x + d % m < m {
      SmallMod(x + d % m, m);
    } else {
      AddOnce(x + d % m - m, m);
      SmallMod(x + d % m - m, m);
    }
  }

  /** The remark in the source, as the simplest case. */
  lemma NoFixpoints(n: nat, x: nat)
    requires n > 0 && x < Pow2(n)
    ensures Next(n, x) != x
  {
    FullPeriod(n, x, 1);
    assert Iter(n, x, 1) == Next(n, Iter(n, x, 0));
    SmallMod(1, Pow2(n));
  }

  lemma {:induction false} IterAdds(n: nat, x: nat, a: nat, b: nat)
    requires x < Pow2(n)
    ensures Iter(n, x, a + b) == Iter(n, Iter(n, x, a), b)
    decreases b
  {
    if b > 0 { IterAdds(n, x, a, b - 1); }
  }

  /** Two moments of a run show the same state exactly when they are a multiple of 2^n apart. */
  lemma SameStateIff(n: nat, x: nat, i: nat, j: nat)
    requires x < Pow2(n) && i <= j
    ensures Iter(n, x, i) == Iter(n, x, j) <==> (j - i) % Pow2(n) == 0
  {
    IterAdds(n, x, i, j - i);
    FullPeriod(n, Iter(n, x, i), j - i);
  }

  ghost function Visited(n: nat, x: nat, k: nat): set<nat>
    requires x < Pow2(n)
  {
    set i | 0 <= i < k :: Iter(n, x, i)
  }

  ghost function Below(m: nat): (s: set<nat>)
    ensures |s| == m && forall y: nat :: y in s <==> y < m
  {
    if m == 0 then {} else Below(m - 1) + {m - 1}
  }

  lemma {:induction false} VisitedCard(n: nat, x: nat, k: nat)
    requires x < Pow2(n) && k <= Pow2(n)
    ensures |Visited(n, x, k)| == k
    decreases k
  {
    if k > 0 {
      VisitedCard(n, x, k - 1);
      var y := Iter(n, x, k - 1);
      forall i | 0 <= i < k - 1 ensures Iter(n, x, i) != y {
        SameStateIff(n, x, i, k - 1);
        SmallMod(k - 1 - i, Pow2(n));
      }
      assert Visited(n, x, k) == Visited(n, x, k - 1) + {y};
    }
  }

  /** Every state is reached from every state, within one period. */
  lemma ReachesEverything(n: nat, x: nat, y: nat)
    requires x < Pow2(n) && y < Pow2(n)
    ensures exists k :: 0 <= k < Pow2(n) && Iter(n, x, k) == y
  {
    VisitedCard(n, x, Pow2(n));
    FullSubset(Visited(n, x, Pow2(n)), Below(Pow2(n)));
    assert y in Below(Pow2(n));
  }

  // ---------- the messages ----------

  /** `rng_state` is a `uint64_t`. */
  const WORD: nat := 64

  /** How often the loop of `one_operation` runs: once for every 8 bytes begun. */
  function Words(msgSize: nat): nat {
    (msgSize + 7) / 8
  }

  /** The loop writes elements 0, 8, 16, ... of a buffer of 128 elements. */
  lemma WritesInBoundsIff(msgSize: nat)
    ensures (forall j: nat :: 8 * j < msgSize ==> 8 * j < 128) <==> msgSize <= 128
  {
    if msgSize > 128 { assert 8 * 16 < msgSize; }
  }

  /** What the loop at the top of `one_operation` leaves in element `i` of the buffer. */
  ghost function Filled(x: nat, msgSize: nat, i: nat, before: nat): nat
    requires x < Pow2(WORD)
  {
    if i % 8 == 0 && i < msgSize then Iter(WORD, x, i / 8 + 1) else before
  }

  method FillMessage(buf: array<nat>, rngState: nat, msgSize: nat) returns (rngState': nat)
    requires buf.Length == 128 && msgSize <= 128 && rngState < Pow2(WORD)
    modifies buf
    ensures rngState' < Pow2(WORD) && rngState' == Iter(WORD, rngState, Words(msgSize))
    ensures FilledTo(rngState, msgSize, old(buf[..]), buf[..])
  {
    rngState' := rngState;
    var i := 0;
    ghost var before := buf[..];
    while i < msgSize
      invariant Filling(rngState, msgSize, i, rngState', before, buf[..])
    {
      FillingNext(rngState, msgSize, i, rngState', before, buf[..]);
      rngState' := Next(WORD, rngState');
      buf[i] := rngState';
      i := i + 8;
    }
    FillingDone(rngState, msgSize, i, rngState', before, buf[..]);
  }

  /** The loop stands at element `i`, with `rng` in `rng_state` and `now` in the buffer. */
  ghost predicate Filling(x: nat, msgSize: nat, i: nat, rng: nat, before: seq<nat>, now: seq<nat>)
    requires x < Pow2(WORD)
  {
    i % 8 == 0 && i < msgSize + 8 && rng == Iter(WORD, x, i / 8) && FilledTo(x, i, before, now)
  }

  lemma FillingNext(x: nat, msgSize: nat, i: nat, rng: nat, before: seq<nat>, now: seq<nat>)
    requires x < Pow2(WORD) && Filling(x, msgSize, i, rng, before, now) && i < msgSize <= 128
    ensures Filling(x, msgSize, i + 8, Next(WORD, rng), before, now[i := Next(WORD, rng)])
  {
    var j := i / 8;
    assert i == 8 * j && (i + 8) / 8 == j + 1;
    FilledNext(x, j, before, now, now[8 * j := Iter(WORD, x, j + 1)]);
  }

  lemma FillingDone(x: nat, msgSize: nat, i: nat, rng: nat, before: seq<nat>, now: seq<nat>)
    requires x < Pow2(WORD) && Filling(x, msgSize, i, rng, before, now) && i >= msgSize
    ensures rng == Iter(WORD, x, Words(msgSize)) && FilledTo(x, msgSize, before, now)
  {
    FilledWhole(x, msgSize, i, before, now);
  }

  ghost predicate FilledTo(x: nat, m: nat, before: seq<nat>, now: seq<nat>)
    requires x < Pow2(WORD)
  {
    |before| == |now| == 128 && forall k :: 0 <= k < 128 ==> now[k] == Filled(x, m, k, before[k])
  }

  lemma FilledNext(x: nat, j: nat, before: seq<nat>, now: seq<nat>, after: seq<nat>)
    requires x < Pow2(WORD) && 8 * j < 128 && FilledTo(x, 8 * j, before, now)
    requires after == now[8 * j := Iter(WORD, x, j + 1)]
    ensures FilledTo(x, 8 * j + 8, before, after)
  {
    forall k | 0 <= k < 128 ensures after[k] == Filled(x, 8 * j + 8, k, before[k]) {
      FilledMore(x, j, k, before[k]);
    }
  }

  lemma FilledMore(x: nat, j: nat, k: nat, before: nat)
    requires x < Pow2(WORD)
    ensures Filled(x, 8 * j + 8, k, before) == if k == 8 * j then Iter(WORD, x, j + 1) else Filled(x, 8 * j, k, before)
  {
    NextMultiple(k, j);
  }

  lemma NextMultiple(k: nat, j: nat)
    ensures k == 8 * j ==> k % 8 == 0 && k / 8 == j
    ensures k % 8 == 0 && k != 8 * j ==> (k < 8 * j + 8 <==> k < 8 * j)
  {
  }

  lemma FilledWhole(x: nat, msgSize: nat, i: nat, before: seq<nat>, after: seq<nat>)
    requires x < Pow2(WORD) && i % 8 == 0 && msgSize <= i < msgSize + 8 && FilledTo(x, i, before, after)
    ensures FilledTo(x, msgSize, before, after) && i / 8 == Words(msgSize)
  {
    forall k | 0 <= k < 128 ensures after[k] == Filled(x, msgSize, k, before[k]) {
      MultipleBelow(k, i, msgSize);
    }
  }

  lemma MultipleBelow(k: nat, i: nat, m: nat)
    requires i % 8 == 0 && m <= i < m + 8
    ensures k % 8 == 0 ==> (k < i <==> k < m)
  {
  }

  /** The first word of message `j` of a client whose messages have `msgSize` bytes: the state moves on
      once for every 8 bytes of each message before it, and once more. */
  function FirstWord(x: nat, msgSize: nat, j: nat): nat
    requires x < Pow2(WORD)
  {
    Iter(WORD, x, Words(msgSize) * j + 1)
  }

  lemma SameAfterEights(n: nat, x: nat, i: nat, j: nat)
    requires x < Pow2(n + 3) && i <= j
    ensures Iter(n + 3, x, 8 * i + 1) == Iter(n + 3, x, 8 * j + 1) <==> (j - i) % Pow2(n) == 0
  {
    SameStateIff(n + 3, x, 8 * i + 1, 8 * j + 1);
    DividesIsMod(n + 3, 8 * (j - i));
    DividesIsMod(n, j - i);
    Eighth(n, j - i);
  }

  lemma Eighth(n: nat, d: nat)
    ensures Divides(n + 3, 8 * d) <==> Divides(n, d)
  {
    Halved(n + 3, 8 * d, 4 * d);
    Halved(n + 2, 4 * d, 2 * d);
    Halved(n + 1, 2 * d, d);
  }

  /** With 64-byte messages, two messages begin with the same word only 2^61 messages apart. */
  lemma MessagesDiffer(x: nat, i: nat, j: nat)
    requires x < Pow2(WORD) && i <= j
    ensures FirstWord(x, 64, i) == FirstWord(x, 64, j) <==> (j - i) % Pow2(WORD - 3) == 0
  {
    SameAfterEights(WORD - 3, x, i, j);
  }
}
