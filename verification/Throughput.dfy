/** Adding up the per-thread measurements at the end of `bench`, in 64-bit unsigned arithmetic. */
module Throughput {
  import opened Wrappers
  import opened Powers
  import opened ClientProcess

  const NANOS: nat := 1000000000

  /** One thread's rounded operations per second; None is the division by a zero runtime. */
  function Rate(ops: nat, runtime: nat): Option<nat> {
    if runtime == 0 then None else Some((ops * NANOS % U64 + runtime / 2) % U64 / runtime)
  }

  function TotalOps(ts: seq<Thread>): (total: nat)
    ensures total < U64
  {
    if ts == [] then 0 else (TotalOps(ts[..|ts| - 1]) + ts[|ts| - 1].numOps) % U64
  }

  function TotalRate(ts: seq<Thread>): (total: Option<nat>)
    ensures total.Some? ==> total.value < U64
  {
    if ts == [] then Some(0)
    else
      var front, r := TotalRate(ts[..|ts| - 1]), Rate(ts[|ts| - 1].numOps, ts[|ts| - 1].runtime);
      if front.None? || r.None? then None else Some((front.value + r.value) % U64)
  }

  /** The loop that adds up the slots; `ok` is false when a division by zero ends the process. */
  method Aggregate(ts: seq<Thread>) returns (ok: bool, numOps: nat, throughput: nat)
    ensures ok <==> forall i :: 0 <= i < |ts| ==> ts[i].runtime > 0
    ensures ok ==> numOps == TotalOps(ts) && Some(throughput) == TotalRate(ts)
  {
    RateDefined(ts);
    numOps, throughput := 0, 0;
    for i := 0 to |ts|
      invariant numOps == TotalOps(ts[..i]) && TotalRate(ts[..i]) == Some(throughput)
    {
      OneMoreSlot(ts, i);
      numOps := (numOps + ts[i].numOps) % U64;
      if ts[i].runtime == 0 {
        RateFails(ts, i + 1);
        return false, 0, 0;
      }
      throughput := (throughput + (ts[i].numOps * NANOS % U64 + ts[i].runtime / 2) % U64 / ts[i].runtime) % U64;
    }
    assert ts[..|ts|] == ts;
    ok := true;
  }

  lemma OneMoreSlot(ts: seq<Thread>, i: nat)
    requires i < |ts|
    ensures TotalOps(ts[..i + 1]) == (TotalOps(ts[..i]) + ts[i].numOps) % U64
    ensures TotalRate(ts[..i + 1]) ==
            var front, r := TotalRate(ts[..i]), Rate(ts[i].numOps, ts[i].runtime);
            if front.None? || r.None? then None else Some((front.value + r.value) % U64)
  {
    assert ts[..i + 1][..i] == ts[..i];
  }

  /** The division by zero happens exactly when some runtime is zero. */
  lemma {:induction false} RateDefined(ts: seq<Thread>)
    ensures TotalRate(ts).Some? <==> forall i :: 0 <= i < |ts| ==> ts[i].runtime > 0
    decreases ts
  {
    if ts != [] {
      var front, t := ts[..|ts| - 1], ts[|ts| - 1];
      RateDefined(front);
      assert forall i :: 0 <= i < |front| ==> ts[i] == front[i];
    }
  }

  lemma {:induction false} RateFails(ts: seq<Thread>, i: nat)
    requires i <= |ts| && TotalRate(ts[..i]).None?
    ensures TotalRate(ts).None?
    decreases |ts| - i
  {
    if i < |ts| {
      assert ts[..i + 1][..i] == ts[..i];
      RateFails(ts, i + 1);
    } else {
      assert ts[..i] == ts;
    }
  }

  // ---------- the operation count ----------

  function Counted(ts: seq<Thread>): nat {
    if ts == [] then 0 else Counted(ts[..|ts| - 1]) + ts[|ts| - 1].counted
  }

  /** The printed total is the number of operations counted in the measuring phase, modulo 2^64. */
  lemma {:induction false} TotalOpsIsCounted(ts: seq<Thread>)
    requires forall i :: 0 <= i < |ts| ==> ts[i].numOps == ts[i].counted % U64
    ensures TotalOps(ts) == Counted(ts) % U64
    decreases ts
  {
    if ts != [] {
      TotalOpsIsCounted(ts[..|ts| - 1]);
      ModAdd(Counted(ts[..|ts| - 1]), ts[|ts| - 1].counted);
    }
  }

  /** The slots of any process that keeps the invariant add up to what its threads counted. */
  lemma SlotsAreCounted(p: Proc)
    requires PInv(p)
    ensures TotalOps(p.threads) == Counted(p.threads) % U64
  {
    forall k | 0 <= k < |p.threads| ensures p.threads[k].numOps == p.threads[k].counted % U64 {
      assert ThreadOk(p.threads[k]);
    }
    TotalOpsIsCounted(p.threads);
  }

  lemma ModAdd(a: nat, b: nat)
    ensures (a % U64 + b % U64) % U64 == (a + b) % U64
  {
  }

  // ---------- rounding ----------

  /** `k` operations in one second are `k` operations per second. */
  lemma OneSecond(k: nat)
    requires k < 18446744073
    ensures Rate(k, 1_000_000_000) == Some(k)
  {
    DivBounds(k * NANOS + 500_000_000, NANOS);
  }

  /** One thread's operations per second, before and after rounding to nearest. */
  ghost function ExactRate(t: Thread): real
    requires t.runtime > 0
  {
    (t.numOps * NANOS) as real / t.runtime as real
  }

  function Rounded(t: Thread): nat
    requires t.runtime > 0
  {
    (t.numOps * NANOS + t.runtime / 2) / t.runtime
  }

  /** No 64-bit operation of the aggregation overflows, and no runtime is zero. */
  ghost predicate Fits(ts: seq<Thread>) {
    ts == [] || (
      var t := ts[|ts| - 1];
      && Fits(ts[..|ts| - 1]) && t.runtime > 0 && t.numOps * NANOS + t.runtime / 2 < U64
      && TotalRate(ts[..|ts| - 1]).Some? && TotalRate(ts[..|ts| - 1]).value + Rounded(t) < U64)
  }

  ghost function Exact(ts: seq<Thread>): real
    requires Fits(ts)
  {
    if ts == [] then 0.0 else Exact(ts[..|ts| - 1]) + ExactRate(ts[|ts| - 1])
  }

  /** Adding half the divisor first rounds to nearest. */
  lemma RoundsToNearest(a: nat, r: nat)
    requires r > 0
    ensures -0.5 <= ((a + r / 2) / r) as real - a as real / r as real <= 0.5
  {
    var q := (a + r / 2) / r;
    var e: int := q * r - a;
    DivBounds(a + r / 2, r);
    assert 2 * e <= r && -2 * e <= r;
    var x := a as real / r as real;
    assert x * r as real == a as real;
    assert (q as real - x) * r as real == (q * r) as real - a as real == e as real;
    ScaleDown(q as real - x, r as real, e as real);
  }

  lemma DivBounds(b: nat, r: nat)
    requires r > 0
    ensures b / r * r <= b < b / r * r + r
  {
  }

  lemma ScaleDown(y: real, r: real, z: real)
    requires r > 0.0 && y * r == z && -r <= 2.0 * z <= r
    ensures -0.5 <= y <= 0.5
  {
    assert y > 0.5 ==> y * r > 0.5 * r;
    assert y < -0.5 ==> y * r < -0.5 * r;
  }

  /** The summed integer throughput is off by at most half an operation per second per thread. */
  lemma {:induction false} ThroughputError(ts: seq<Thread>)
    requires Fits(ts)
    ensures TotalRate(ts).Some?
    ensures -(|ts| as real) / 2.0 <= TotalRate(ts).value as real - Exact(ts) <= |ts| as real / 2.0
    decreases ts
  {
    if ts != [] {
      var front, t := ts[..|ts| - 1], ts[|ts| - 1];
      ThroughputError(front);
      RoundsToNearest(t.numOps * NANOS, t.runtime);
      TotalRateLast(ts);
      AddErrors(|front|, TotalRate(front).value, Exact(front), Rounded(t), ExactRate(t));
    }
  }

  lemma TotalRateLast(ts: seq<Thread>)
    requires ts != [] && Fits(ts)
    ensures TotalRate(ts) == Some(TotalRate(ts[..|ts| - 1]).value + Rounded(ts[|ts| - 1]))
  {
    var r := Rate(ts[|ts| - 1].numOps, ts[|ts| - 1].runtime);
    RateExact(ts[|ts| - 1]);
    NoWrap(TotalRate(ts[..|ts| - 1]).value + r.value);
  }

  lemma NoWrap(x: nat)
    requires x < U64
    ensures x % U64 == x
  {
  }

  lemma AddErrors(k: nat, total: nat, exact: real, q: nat, x: real)
    requires -(k as real) / 2.0 <= total as real - exact <= k as real / 2.0
    requires -0.5 <= q as real - x <= 0.5
    ensures -((k + 1) as real) / 2.0 <= (total + q) as real - (exact + x) <= (k + 1) as real / 2.0
  {
  }

  lemma RateExact(t: Thread)
    requires t.runtime > 0 && t.numOps * NANOS + t.runtime / 2 < U64
    ensures Rate(t.numOps, t.runtime) == Some(Rounded(t))
  {
    NoWrap(t.numOps * NANOS);
    NoWrap(t.numOps * NANOS + t.runtime / 2);
  }
}
