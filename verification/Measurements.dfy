/** What the slots of a process hold, read off the list of everything that its threads have done. */
module Measurements {
  import opened Wrappers
  import opened Powers
  import opened ClientProcess
  import opened Throughput

  /** How often `a` occurs in a list of actions. */
  function Occurs(acts: seq<PAct>, a: PAct): nat {
    if acts == [] then 0 else Occurs(acts[..|acts| - 1], a) + if acts[|acts| - 1] == a then 1 else 0
  }

  /** How often any thread did an operation between its two phases. */
  function MeasuredOps(acts: seq<PAct>): nat {
    if acts == [] then 0 else MeasuredOps(acts[..|acts| - 1]) + if acts[|acts| - 1].MeasuredOp? then 1 else 0
  }

  /** How often thread `k` called `one_operation`. */
  function Operations(acts: seq<PAct>, k: nat): nat {
    Occurs(acts, FirstOp(k)) + Occurs(acts, WarmOp(k)) + Occurs(acts, MeasuredOp(k)) + Occurs(acts, IdleOp(k))
  }

  /** What thread `k` holds after `acts`. */
  ghost predicate Recorded(t: Thread, acts: seq<PAct>, k: nat) {
    && t.counted == Occurs(acts, MeasuredOp(k)) && t.ops == Operations(acts, k)
    && (Rank(t.pc) < 4 ==> t.counted == 0)
    && (Rank(t.pc) >= 6 ==> exists i :: 0 <= i < |acts| && acts[i] == WriteRuntime(k, t.runtime))
  }

  lemma OneMoreAct(acts: seq<PAct>, a: PAct, k: nat)
    ensures Occurs(acts + [a], MeasuredOp(k)) == Occurs(acts, MeasuredOp(k)) + if a == MeasuredOp(k) then 1 else 0
    ensures Operations(acts + [a], k) ==
            Operations(acts, k)
            + if a == FirstOp(k) || a == WarmOp(k) || a == MeasuredOp(k) || a == IdleOp(k) then 1 else 0
    ensures MeasuredOps(acts + [a]) == MeasuredOps(acts) + if a.MeasuredOp? then 1 else 0
  {
    assert (acts + [a])[..|acts|] == acts;
  }

  lemma RecordedAfter(p: Proc, a: PAct, acts: seq<PAct>, k: nat)
    requires CanAct(p, a) && k < |p.threads| && Recorded(p.threads[k], acts, k)
    ensures k < |Act(p, a).threads| && Recorded(Act(p, a).threads[k], acts + [a], k)
  {
    var t, t', acts' := p.threads[k], Act(p, a).threads[k], acts + [a];
    OneMoreAct(acts, a, k);
    if Rank(t'.pc) >= 6 {
      if a.WriteRuntime? && Who(a) == k {
        assert acts'[|acts|] == WriteRuntime(k, t'.runtime);
      } else {
        var i :| 0 <= i < |acts| && acts[i] == WriteRuntime(k, t.runtime);
        assert acts'[i] == WriteRuntime(k, t'.runtime);
      }
    }
  }

  // ---------- client.c ----------

  /** In every run, each slot is the record of what its thread did. */
  lemma {:induction false} SlotsRecord(n: nat, acts: seq<PAct>, k: nat)
    requires RunProc(n, acts).Some? && k < n
    ensures k < |RunProc(n, acts).value.threads| && Recorded(RunProc(n, acts).value.threads[k], acts, k)
    decreases acts
  {
    RunProcInv(n, acts);
    if acts != [] {
      var front, a := acts[..|acts| - 1], acts[|acts| - 1];
      SlotsRecord(n, front, k);
      RecordedAfter(RunProc(n, front).value, a, front, k);
      assert acts == front + [a];
    }
  }

  lemma {:induction false} CountedUpdate(ts: seq<Thread>, k: nat, t: Thread)
    requires k < |ts|
    ensures Counted(ts[k := t]) == Counted(ts) - ts[k].counted + t.counted
    decreases ts
  {
    var m := |ts| - 1;
    if k < m {
      CountedUpdate(ts[..m], k, t);
      assert ts[k := t][..m] == ts[..m][k := t];
    } else {
      assert ts[k := t][..m] == ts[..m];
    }
  }

  lemma CountedAfter(p: Proc, a: PAct)
    requires CanAct(p, a) && (a.TakeMeasure? ==> p.threads[Who(a)].counted == 0)
    ensures Counted(Act(p, a).threads) == Counted(p.threads) + if a.MeasuredOp? then 1 else 0
  {
    if 0 <= Who(a) {
      CountedUpdate(p.threads, Who(a), ThreadAfter(p.threads[Who(a)], a));
    } else if a == Create && p.threads[p.main.i].pc == Unborn {
      CountedUpdate(p.threads, p.main.i, p.threads[p.main.i].(pc := Starting));
    }
  }

  lemma {:induction false} NoneCounted(n: nat)
    ensures Counted(NewProc(Creating(0), n).threads) == 0
    decreases n
  {
    if n > 0 {
      NoneCounted(n - 1);
      assert NewProc(Creating(0), n).threads[..n - 1] == NewProc(Creating(0), n - 1).threads;
    }
  }

  lemma {:induction false} CountedIsMeasured(n: nat, acts: seq<PAct>)
    requires RunProc(n, acts).Some?
    ensures Counted(RunProc(n, acts).value.threads) == MeasuredOps(acts)
    decreases acts
  {
    if acts == [] {
      NoneCounted(n);
    } else {
      var front, a := acts[..|acts| - 1], acts[|acts| - 1];
      CountedIsMeasured(n, front);
      RunProcInv(n, front);
      MeasuredStep(n, front, RunProc(n, front).value, a);
    }
  }

  lemma MeasuredStep(n: nat, front: seq<PAct>, p: Proc, a: PAct)
    requires RunProc(n, front) == Some(p) && |p.threads| == n && CanAct(p, a)
    ensures Counted(Alone(Act(p, a)).threads) == Counted(p.threads) + if a.MeasuredOp? then 1 else 0
  {
    if a.TakeMeasure? { SlotsRecord(n, front, Who(a)); }
    CountedAfter(p, a);
  }

  /** In every run of client.c, once `bench` gets to its totals all threads are done, every slot holds how
      often its thread did a measured operation and the runtime it wrote, and the total printed is how often
      any thread did one. */
  lemma BenchCountsOperations(n: nat, acts: seq<PAct>)
    requires RunProc(n, acts).Some? && MainRank(RunProc(n, acts).value.main) >= 11
    ensures var ts := RunProc(n, acts).value.threads;
            && |ts| == n
            && (forall k :: 0 <= k < n ==>
                  && ts[k].pc == Reported && Recorded(ts[k], acts, k)
                  && ts[k].numOps == Occurs(acts, MeasuredOp(k)) % U64)
            && TotalOps(ts) == MeasuredOps(acts) % U64
  {
    var p := RunProc(n, acts).value;
    RunProcInv(n, acts);
    AllReported(p);
    forall k | 0 <= k < n ensures Recorded(p.threads[k], acts, k) && p.threads[k].numOps == p.threads[k].counted % U64 {
      SlotsRecord(n, acts, k);
      assert ThreadOk(p.threads[k]);
    }
    SlotsAreCounted(p);
    CountedIsMeasured(n, acts);
  }
}
