/** From the slots of all threads to what the driver prints: how exact the overall throughput is. */
module Accuracy {
  import opened Wrappers
  import opened Powers
  import opened Counting
  import opened ClientProcess
  import opened Throughput
  import opened Reports
  import opened Benchmark

  /** The processes that got a spot. */
  ghost function Holders(s: System): (h: set<nat>)
    ensures forall p: nat :: p in h <==> p < |s.procs| && Holds(s, p)
  {
    set p: nat | p < |s.procs| && Holds(s, p)
  }

  /** The exact operations per second of process `p`. */
  ghost function ExactOf(s: System, p: nat): real {
    if p < |s.procs| && Fits(s.procs[p].proc.threads) then Exact(s.procs[p].proc.threads) else 0.0
  }

  /** The exact operations per second of those processes below `k` that are in `who`. */
  ghost function ExactSum(s: System, who: set<nat>, k: nat): real {
    if k == 0 then 0.0 else ExactSum(s, who, k - 1) + if k - 1 in who then ExactOf(s, k - 1) else 0.0
  }

  lemma {:induction false} OneMoreIn(s: System, who: set<nat>, p: nat, k: nat)
    requires p !in who
    ensures ExactSum(s, who + {p}, k) == ExactSum(s, who, k) + if p < k then ExactOf(s, p) else 0.0
    decreases k
  {
    if k > 0 { OneMoreIn(s, who, p, k - 1); }
  }

  lemma {:induction false} NobodyIn(s: System, k: nat)
    ensures ExactSum(s, {}, k) == 0.0
    decreases k
  {
    if k > 0 { NobodyIn(s, k - 1); }
  }

  // ---------- the log and the processes with spots ----------

  ghost function Ids(log: seq<(nat, nat)>): set<nat> {
    set i | 0 <= i < |log| :: log[i].0
  }

  ghost predicate DistinctIds(log: seq<(nat, nat)>) {
    forall i, j :: 0 <= i < j < |log| ==> log[i].0 != log[j].0
  }

  lemma IdsLast(log: seq<(nat, nat)>)
    requires log != [] && DistinctIds(log)
    ensures var front := log[..|log| - 1];
            && DistinctIds(front) && log[|log| - 1].0 !in Ids(front)
            && Ids(log) == Ids(front) + {log[|log| - 1].0}
  {
    var m := |log| - 1;
    forall x | x in Ids(log) ensures x in Ids(log[..m]) + {log[m].0} {
      var i :| 0 <= i < |log| && log[i].0 == x;
      if i < m { assert log[..m][i].0 == x; }
    }
    forall x | x in Ids(log[..m]) ensures x in Ids(log) {
      var i :| 0 <= i < m && log[..m][i].0 == x;
      assert log[i].0 == x;
    }
  }

  lemma {:induction false} IdsCard(log: seq<(nat, nat)>)
    requires DistinctIds(log)
    ensures |Ids(log)| == |log|
    decreases log
  {
    if log != [] {
      IdsLast(log);
      IdsCard(log[..|log| - 1]);
    }
  }

  /** When all have reported, the log is about exactly the processes with spots. */
  lemma LogIsHolders(s: System)
    requires DistinctIds(s.log) && |s.log| == At(s, 2)
    requires forall i :: 0 <= i < |s.log| ==> s.log[i].0 in Holders(s)
    ensures Ids(s.log) == Holders(s)
  {
    var r := Ranked(s.procs);
    IdsCard(s.log);
    CountIsCard(r, 2, |r|);
    assert r[..|r|] == r;
    assert Holders(s) == AtLeast(r, 2, |r|);
    FullSubset(Ids(s.log), Holders(s));
  }

  // ---------- the error ----------

  /** Entry `e` of the log: the rounded throughput of a process with `threads` threads, without overflow. */
  ghost predicate Accurate(s: System, e: (nat, nat), threads: nat) {
    && e.0 < |s.procs| && |s.procs[e.0].proc.threads| == threads
    && Fits(s.procs[e.0].proc.threads) && TotalRate(s.procs[e.0].proc.threads) == Some(e.1)
  }

  lemma {:induction false} LogError(s: System, log: seq<(nat, nat)>, threads: nat)
    requires DistinctIds(log) && forall i :: 0 <= i < |log| ==> Accurate(s, log[i], threads)
    ensures var d := Sum(Values(log)) as real - ExactSum(s, Ids(log), |s.procs|);
            -Half(|log|, threads) <= d <= Half(|log|, threads)
    decreases log
  {
    if log == [] {
      assert Ids(log) == {};
      NobodyIn(s, |s.procs|);
    } else {
      var front, e := log[..|log| - 1], log[|log| - 1];
      IdsLast(log);
      LogError(s, front, threads);
      OneMoreIn(s, Ids(front), e.0, |s.procs|);
      ThroughputError(s.procs[e.0].proc.threads);
      assert Values(log)[..|log| - 1] == Values(front);
      HalfMore(|front|, threads);
    }
  }

  /** k * threads / 2 */
  function Half(k: nat, threads: nat): real {
    (k * threads) as real / 2.0
  }

  lemma HalfMore(k: nat, threads: nat)
    ensures Half(k + 1, threads) == Half(k, threads) + threads as real / 2.0
  {
    assert (k + 1) * threads == k * threads + threads;
  }

  /** End to end: when no sum overflows, what the driver prints is within clients * threads / 2 of the exact
      sum of num_ops * 10^9 / runtime over all threads of all processes with spots. */
  lemma DriverIsAccurate(su: Setup, m: nat, acts: seq<Action>)
    requires Run(su, m, acts).Some? && acts != [] && acts[|acts| - 1] == Read && su.clients > 0
    requires var s := Run(su, m, acts).value;
             forall p :: p in Holders(s) ==>
               Fits(s.procs[p].proc.threads) && TotalRate(s.procs[p].proc.threads).value < I63
    ensures var s := Run(su, m, acts).value;
            && s.driver.Finished? && s.driver.total.Some?
            && -Half(su.clients, su.threads) <= s.driver.total.value as real - ExactSum(s, Holders(s), |s.procs|)
                 <= Half(su.clients, su.threads)
  {
    var s := Run(su, m, acts).value;
    DriverTotal(su, m, acts);
    ResultsComplete(su, m, acts);
    MeasureIsSafe(su, m, acts);
    forall i | 0 <= i < |s.log| ensures Accurate(s, s.log[i], su.threads) && s.log[i].1 < I63 {
      assert s.log[i].0 in Holders(s);
      assert WarmedUp(su, s, s.log[i].0);
    }
    LogIsHolders(s);
    LogError(s, s.log, su.threads);
  }
}
