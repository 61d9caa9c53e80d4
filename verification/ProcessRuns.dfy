/**
  What a benchmark process can do: whatever operations and runtimes are wanted, there are schedules in which
  the process gets through all its phases and each thread ends with exactly those in its slot.
*/
module ProcessRuns {
  import opened Wrappers
  import opened Powers
  import opened ClientProcess

  /** Actions of one process, one after the other. */
  function Exec(p: Proc, acts: seq<PAct>): Option<Proc>
    decreases acts
  {
    if acts == [] then Some(p)
    else
      var q := Exec(p, acts[..|acts| - 1]);
      if q.Some? && CanAct(q.value, acts[|acts| - 1]) then Some(Act(q.value, acts[|acts| - 1])) else None
  }

  lemma Extend(p: Proc, acts: seq<PAct>, q: Proc, a: PAct) returns (acts': seq<PAct>, q': Proc)
    requires Exec(p, acts) == Some(q) && CanAct(q, a)
    ensures acts' == acts + [a] && q' == Act(q, a) && Exec(p, acts') == Some(q')
  {
    acts', q' := acts + [a], Act(q, a);
    assert acts'[..|acts|] == acts;
  }

  // ---------- the states in between ----------

  /** What each thread is to do in the measuring phase: how many operations, and how long they take. */
  datatype Work = Work(ops: nat, ns: nat)

  ghost predicate Doable(work: seq<Work>) {
    forall k :: 0 <= k < |work| ==> work[k].ns < U64
  }

  datatype Stage = New | Begun | Warm | Timed | Worked | Finished

  function ThreadAt(stage: Stage, w: Work): Thread {
    match stage
    case New => Thread(Unborn, 0, 0, 0, 0)
    case Begun => Thread(Starting, 0, 0, 0, 0)
    case Warm => Thread(Warming, 1, 0, 0, 0)
    case Timed => Thread(Measuring, 1, 0, 0, 0)
    case Worked => Thread(Measuring, 1 + w.ops, w.ops, w.ops % U64, 0)
    case Finished => Thread(Reported, 1 + w.ops, w.ops, w.ops % U64, w.ns)
  }

  /** The first `j` threads are at `after`, the others at `before`. */
  function Threads(before: Stage, after: Stage, j: nat, work: seq<Work>): (ts: seq<Thread>)
    ensures |ts| == |work|
  {
    seq(|work|, k requires 0 <= k < |work| => ThreadAt(if k < j then after else before, work[k]))
  }

  lemma NextThread(before: Stage, after: Stage, j: nat, work: seq<Work>)
    requires j < |work|
    ensures Threads(before, after, j, work)[j := ThreadAt(after, work[j])] == Threads(before, after, j + 1, work)
    ensures Threads(before, after, j, work)[j] == ThreadAt(before, work[j])
  {
  }

  lemma AllThreads(before: Stage, after: Stage, next: Stage, work: seq<Work>)
    ensures Threads(before, after, |work|, work) == Threads(after, next, 0, work)
  {
  }

  // ---------- from the creation of the threads to the announcement ----------

  lemma {:induction false} CreateAll(p: Proc, acts: seq<PAct>, q: Proc, i: nat, work: seq<Work>)
    returns (acts': seq<PAct>, q': Proc)
    requires i <= |work| && Exec(p, acts) == Some(q)
    requires q == Proc(Creating(i), Threads(New, Begun, i, work), 0, 0, 0, 0)
    ensures Exec(p, acts') == Some(q') && acts <= acts'
    ensures q' == Proc(WaitStarted(0), Threads(Begun, Warm, 0, work), 0, 0, 0, 0)
    ensures NoGates(acts) ==> NoGates(acts')
    decreases |work| - i
  {
    if i < |work| {
      NextThread(New, Begun, i, work);
      acts', q' := Extend(p, acts, q, Create);
      acts', q' := CreateAll(p, acts', q', i + 1, work);
    } else {
      acts', q' := Extend(p, acts, q, Advance);
      AllThreads(New, Begun, Warm, work);
    }
  }

  /** The main thread does not pass a gate. */
  ghost predicate NoGates(acts: seq<PAct>) {
    OpenMeasure !in acts && OpenReport !in acts
  }

  lemma {:induction false} WarmAll(p: Proc, acts: seq<PAct>, q: Proc, j: nat, work: seq<Work>)
    returns (acts': seq<PAct>, q': Proc)
    requires j <= |work| && Exec(p, acts) == Some(q)
    requires q == Proc(WaitStarted(0), Threads(Begun, Warm, j, work), j, 0, 0, 0)
    ensures Exec(p, acts') == Some(q') && acts <= acts'
    ensures q' == Proc(WaitStarted(0), Threads(Warm, Timed, 0, work), |work|, 0, 0, 0)
    ensures NoGates(acts) ==> NoGates(acts')
    decreases |work| - j
  {
    if j < |work| {
      NextThread(Begun, Warm, j, work);
      acts', q' := WarmOne(p, acts, q, j, work);
      acts', q' := WarmAll(p, acts', q', j + 1, work);
    } else {
      acts', q' := acts, q;
      AllThreads(Begun, Warm, Timed, work);
    }
  }

  lemma WarmOne(p: Proc, acts: seq<PAct>, q: Proc, j: nat, work: seq<Work>) returns (acts': seq<PAct>, q': Proc)
    requires j < |work| == |q.threads| && Exec(p, acts) == Some(q) && q.threads[j] == ThreadAt(Begun, work[j])
    ensures Exec(p, acts') == Some(q') && acts <= acts'
    ensures q' == q.(threads := q.threads[j := ThreadAt(Warm, work[j])], started := q.started + 1)
    ensures NoGates(acts) ==> NoGates(acts')
  {
    StartOne(q, j, work[j]);
    acts', q' := Extend(p, acts, q, FirstOp(j));
    ghost var q1 := q';
    acts', q' := Extend(p, acts', q1, PostStarted(j));
  }

  lemma StartOne(q: Proc, j: nat, w: Work)
    requires j < |q.threads| && q.threads[j] == ThreadAt(Begun, w)
    ensures CanAct(q, FirstOp(j)) && CanAct(Act(q, FirstOp(j)), PostStarted(j))
    ensures Act(Act(q, FirstOp(j)), PostStarted(j)) ==
            q.(threads := q.threads[j := ThreadAt(Warm, w)], started := q.started + 1)
  {
    assert Act(q, FirstOp(j)) == q.(threads := q.threads[j := Thread(Posting, 1, 0, 0, 0)]);
  }

  lemma {:induction false} WaitForStarted(p: Proc, acts: seq<PAct>, q: Proc, i: nat, work: seq<Work>)
    returns (acts': seq<PAct>, q': Proc)
    requires i <= |work| && Exec(p, acts) == Some(q)
    requires q == Proc(WaitStarted(i), Threads(Warm, Timed, 0, work), |work| - i, 0, 0, 0)
    ensures Exec(p, acts') == Some(q') && acts <= acts' && q' == AtWarm(WaitStarted(|work|), work)
    ensures NoGates(acts) ==> NoGates(acts')
    decreases |work| - i
  {
    if i < |work| {
      acts', q' := Extend(p, acts, q, WaitStartedOnce);
      acts', q' := WaitForStarted(p, acts', q', i + 1, work);
    } else {
      acts', q' := acts, q;
    }
  }

  /** A process whose threads are all warming up, at some point of its main thread. */
  function AtWarm(main: MainPc, work: seq<Work>): Proc {
    Proc(main, Threads(Warm, Timed, 0, work), 0, 0, 0, 0)
  }

  function AtWorked(main: MainPc, work: seq<Work>): Proc {
    Proc(main, Threads(Worked, Finished, 0, work), 0, 0, 0, 0)
  }

  function AtFinished(main: MainPc, work: seq<Work>): Proc {
    Proc(main, Threads(Worked, Finished, |work|, work), 0, 0, 0, 0)
  }

  lemma ToAnnouncing(work: seq<Work>) returns (acts: seq<PAct>)
    ensures Exec(NewProc(Creating(0), |work|), acts) == Some(AtWarm(Announcing, work)) && NoGates(acts)
  {
    var q;
    acts := ToLastWait(work);
    acts, q := Extend(NewProc(Creating(0), |work|), acts, AtWarm(WaitStarted(|work|), work), Advance);
  }

  lemma ToLastWait(work: seq<Work>) returns (acts: seq<PAct>)
    ensures Exec(NewProc(Creating(0), |work|), acts) == Some(AtWarm(WaitStarted(|work|), work)) && NoGates(acts)
  {
    var p := NewProc(Creating(0), |work|);
    var q;
    assert p.threads == Threads(New, Begun, 0, work);
    acts, q := CreateAll(p, [], p, 0, work);
    acts, q := WarmAll(p, acts, q, 0, work);
    acts, q := WaitForStarted(p, acts, q, 0, work);
  }

  // ---------- from the first gate to the second ----------

  lemma {:induction false} PostMeasures(p: Proc, acts: seq<PAct>, q: Proc, i: nat, work: seq<Work>)
    returns (acts': seq<PAct>, q': Proc)
    requires i <= |work| && Exec(p, acts) == Some(q)
    requires q == Proc(PostMeasure(i), Threads(Warm, Timed, 0, work), 0, i, 0, 0)
    ensures Exec(p, acts') == Some(q')
    ensures q' == Proc(ReportGate, Threads(Warm, Timed, 0, work), 0, |work|, 0, 0)
    ensures OpenReport !in acts ==> OpenReport !in acts'
    decreases |work| - i
  {
    if i < |work| {
      acts', q' := Extend(p, acts, q, PostMeasureOnce);
      acts', q' := PostMeasures(p, acts', q', i + 1, work);
    } else {
      acts', q' := Extend(p, acts, q, Advance);
    }
  }

  lemma {:induction false} TakeMeasures(p: Proc, acts: seq<PAct>, q: Proc, j: nat, work: seq<Work>)
    returns (acts': seq<PAct>, q': Proc)
    requires j <= |work| && Exec(p, acts) == Some(q)
    requires q == Proc(ReportGate, Threads(Warm, Timed, j, work), 0, |work| - j, 0, 0)
    ensures Exec(p, acts') == Some(q')
    ensures q' == Proc(ReportGate, Threads(Timed, Worked, 0, work), 0, 0, 0, 0)
    ensures OpenReport !in acts ==> OpenReport !in acts'
    decreases |work| - j
  {
    if j < |work| {
      NextThread(Warm, Timed, j, work);
      acts', q' := Extend(p, acts, q, TakeMeasure(j));
      acts', q' := TakeMeasures(p, acts', q', j + 1, work);
    } else {
      acts', q' := acts, q;
      AllThreads(Warm, Timed, Worked, work);
    }
  }

  /** Thread `j` does its measured operations. */
  lemma {:induction false} DoWork(p: Proc, acts: seq<PAct>, q: Proc, j: nat, done: nat, ops: nat)
    returns (acts': seq<PAct>, q': Proc)
    requires Exec(p, acts) == Some(q) && j < |q.threads| && done <= ops
    requires q.threads[j] == Thread(Measuring, 1 + done, done, done % U64, 0)
    ensures Exec(p, acts') == Some(q')
    ensures q' == q.(threads := q.threads[j := Thread(Measuring, 1 + ops, ops, ops % U64, 0)])
    ensures OpenReport !in acts ==> OpenReport !in acts'
    decreases ops - done
  {
    if done < ops {
      acts', q' := Extend(p, acts, q, MeasuredOp(j));
      NextMod(done);
      acts', q' := DoWork(p, acts', q', j, done + 1, ops);
    } else {
      acts', q' := acts, q;
    }
  }

  lemma NextMod(a: nat)
    ensures (a % U64 + 1) % U64 == (a + 1) % U64
  {
  }

  lemma {:induction false} WorkAll(p: Proc, acts: seq<PAct>, q: Proc, j: nat, work: seq<Work>)
    returns (acts': seq<PAct>, q': Proc)
    requires j <= |work| && Exec(p, acts) == Some(q)
    requires q == Proc(ReportGate, Threads(Timed, Worked, j, work), 0, 0, 0, 0)
    ensures Exec(p, acts') == Some(q') && q' == AtWorked(ReportGate, work)
    ensures OpenReport !in acts ==> OpenReport !in acts'
    decreases |work| - j
  {
    if j < |work| {
      NextThread(Timed, Worked, j, work);
      acts', q' := DoWork(p, acts, q, j, 0, work[j].ops);
      acts', q' := WorkAll(p, acts', q', j + 1, work);
    } else {
      acts', q' := acts, q;
      AllThreads(Timed, Worked, Finished, work);
    }
  }

  lemma ToReportGate(work: seq<Work>) returns (acts: seq<PAct>)
    ensures Exec(AtWarm(MeasureGate, work), acts) == Some(AtWorked(ReportGate, work)) && OpenReport !in acts
  {
    var p := AtWarm(MeasureGate, work);
    var q;
    acts, q := Extend(p, [], p, OpenMeasure);
    acts, q := PostMeasures(p, acts, q, 0, work);
    acts, q := TakeMeasures(p, acts, q, 0, work);
    acts, q := WorkAll(p, acts, q, 0, work);
  }

  // ---------- from the second gate to the totals ----------

  lemma {:induction false} PostReports(p: Proc, acts: seq<PAct>, q: Proc, i: nat, work: seq<Work>)
    returns (acts': seq<PAct>, q': Proc)
    requires i <= |work| && Exec(p, acts) == Some(q)
    requires q == Proc(PostReport(i), Threads(Worked, Finished, 0, work), 0, 0, i, 0)
    ensures Exec(p, acts') == Some(q')
    ensures q' == Proc(WaitReported(0), Threads(Worked, Finished, 0, work), 0, 0, |work|, 0)
    ensures OpenMeasure !in acts ==> OpenMeasure !in acts'
    decreases |work| - i
  {
    if i < |work| {
      acts', q' := Extend(p, acts, q, PostReportOnce);
      acts', q' := PostReports(p, acts', q', i + 1, work);
    } else {
      acts', q' := Extend(p, acts, q, Advance);
    }
  }

  lemma {:induction false} ReportAll(p: Proc, acts: seq<PAct>, q: Proc, j: nat, work: seq<Work>)
    returns (acts': seq<PAct>, q': Proc)
    requires j <= |work| && Exec(p, acts) == Some(q) && Doable(work)
    requires q == Proc(WaitReported(0), Threads(Worked, Finished, j, work), 0, 0, |work| - j, j)
    ensures Exec(p, acts') == Some(q')
    ensures q' == Proc(WaitReported(0), Threads(Worked, Finished, |work|, work), 0, 0, 0, |work|)
    ensures OpenMeasure !in acts ==> OpenMeasure !in acts'
    decreases |work| - j
  {
    if j < |work| {
      NextThread(Worked, Finished, j, work);
      acts', q' := ReportOne(p, acts, q, j, work);
      acts', q' := ReportAll(p, acts', q', j + 1, work);
    } else {
      acts', q' := acts, q;
    }
  }

  lemma ReportOne(p: Proc, acts: seq<PAct>, q: Proc, j: nat, work: seq<Work>)
    returns (acts': seq<PAct>, q': Proc)
    requires j < |work| == |q.threads| && Exec(p, acts) == Some(q) && work[j].ns < U64 && q.report > 0
    requires q.threads[j] == ThreadAt(Worked, work[j])
    ensures Exec(p, acts') == Some(q')
    ensures q' == q.(threads := q.threads[j := ThreadAt(Finished, work[j])], report := q.report - 1,
                     reported := q.reported + 1)
    ensures OpenMeasure !in acts ==> OpenMeasure !in acts'
  {
    StopOne(q, j, work[j]);
    acts', q' := Extend(p, acts, q, TakeReport(j));
    ghost var q1 := q';
    acts', q' := Extend(p, acts', q1, WriteRuntime(j, work[j].ns));
    ghost var q2 := q';
    acts', q' := Extend(p, acts', q2, PostReported(j));
  }

  /** A thread that has worked takes its token, writes its runtime and reports. */
  lemma StopOne(q: Proc, j: nat, w: Work)
    requires j < |q.threads| && w.ns < U64 && q.report > 0 && q.threads[j] == ThreadAt(Worked, w)
    ensures CanAct(q, TakeReport(j)) && CanAct(Act(q, TakeReport(j)), WriteRuntime(j, w.ns))
    ensures var q2 := Act(Act(q, TakeReport(j)), WriteRuntime(j, w.ns));
            && CanAct(q2, PostReported(j))
            && Act(q2, PostReported(j)) ==
                 q.(threads := q.threads[j := ThreadAt(Finished, w)],
                    report := q.report - 1, reported := q.reported + 1)
  {
    var t := q.threads[j];
    assert Act(q, TakeReport(j)) == q.(threads := q.threads[j := t.(pc := Stopping)], report := q.report - 1);
  }

  lemma {:induction false} WaitForReported(p: Proc, acts: seq<PAct>, q: Proc, i: nat, work: seq<Work>)
    returns (acts': seq<PAct>, q': Proc)
    requires i <= |work| && Exec(p, acts) == Some(q)
    requires q == Proc(WaitReported(i), Threads(Worked, Finished, |work|, work), 0, 0, 0, |work| - i)
    ensures Exec(p, acts') == Some(q') && q' == AtFinished(Summing, work)
    ensures OpenMeasure !in acts ==> OpenMeasure !in acts'
    decreases |work| - i
  {
    if i < |work| {
      acts', q' := Extend(p, acts, q, WaitReportedOnce);
      acts', q' := WaitForReported(p, acts', q', i + 1, work);
    } else {
      acts', q' := Extend(p, acts, q, Advance);
    }
  }

  lemma ToSumming(work: seq<Work>) returns (acts: seq<PAct>)
    requires Doable(work)
    ensures Exec(AtWorked(ReportGate, work), acts) == Some(AtFinished(Summing, work)) && OpenMeasure !in acts
  {
    var p := AtWorked(ReportGate, work);
    var q;
    acts, q := Extend(p, [], p, OpenReport);
    acts, q := PostReports(p, acts, q, 0, work);
    acts, q := ReportAll(p, acts, q, 0, work);
    acts, q := WaitForReported(p, acts, q, 0, work);
  }

  // ---------- client.c ----------

  lemma {:induction false} ExecIsRun(n: nat, before: seq<PAct>, p: Proc, acts: seq<PAct>)
    requires RunProc(n, before) == Some(p) && Exec(p, acts).Some? && NoAnnouncing(p, acts)
    ensures RunProc(n, before + acts) == Exec(p, acts)
    decreases acts
  {
    if acts == [] {
      assert before + acts == before;
    } else {
      ExecIsRun(n, before, p, acts[..|acts| - 1]);
      assert (before + acts)[..|before + acts| - 1] == before + acts[..|acts| - 1];
    }
  }

  /** The main thread is not about to announce the process after any of these actions. */
  ghost predicate NoAnnouncing(p: Proc, acts: seq<PAct>)
    requires Exec(p, acts).Some?
    decreases acts
  {
    acts == [] || (Exec(p, acts).value.main != Announcing && NoAnnouncing(p, acts[..|acts| - 1]))
  }

  lemma {:induction false} PastAnnouncing(p: Proc, acts: seq<PAct>)
    requires Exec(p, acts).Some? && MainRank(p.main) > 5
    ensures NoAnnouncing(p, acts) && MainRank(Exec(p, acts).value.main) > 5
    decreases acts
  {
    if acts != [] {
      PastAnnouncing(p, acts[..|acts| - 1]);
      RankGrows(Exec(p, acts[..|acts| - 1]).value, acts[|acts| - 1]);
    }
  }

  lemma RankGrows(q: Proc, a: PAct)
    requires CanAct(q, a)
    ensures MainRank(Act(q, a).main) >= MainRank(q.main)
  {
  }

  /** Up to its last action, a run to the announcement has not got there. */
  lemma {:induction false} BeforeAnnouncing(p: Proc, acts: seq<PAct>)
    requires Exec(p, acts).Some? && MainRank(Exec(p, acts).value.main) < 5
    ensures NoAnnouncing(p, acts)
    decreases acts
  {
    if acts != [] {
      var q, a := Exec(p, acts[..|acts| - 1]).value, acts[|acts| - 1];
      RankGrows(q, a);
      BeforeAnnouncing(p, acts[..|acts| - 1]);
    }
  }

  lemma FinishedSlots(work: seq<Work>, k: nat)
    requires k < |work|
    ensures AtFinished(Summing, work).threads[k].numOps == work[k].ops % U64
    ensures AtFinished(Summing, work).threads[k].runtime == work[k].ns
  {
  }

  /** client.c passes where multiclient.c announces itself. */
  lemma AloneToGate(work: seq<Work>) returns (acts: seq<PAct>)
    ensures RunProc(|work|, acts) == Some(AtWarm(MeasureGate, work))
  {
    var p := NewProc(Creating(0), |work|);
    var first := ToLastWait(work);
    BeforeAnnouncing(p, first);
    assert RunProc(|work|, []) == Some(p);
    ExecIsRun(|work|, [], p, first);
    assert [] + first == first;
    acts := first + [Advance];
    assert acts[..|first|] == first;
  }

  /** Once past it, the two programs do the same. */
  lemma ThenRun(n: nat, before: seq<PAct>, p: Proc, acts: seq<PAct>, q: Proc)
    requires RunProc(n, before) == Some(p) && MainRank(p.main) > 5 && Exec(p, acts) == Some(q)
    ensures RunProc(n, before + acts) == Some(q)
  {
    PastAnnouncing(p, acts);
    ExecIsRun(n, before, p, acts);
  }

  /** Whatever work the threads are to do, some run of client.c gets to the totals with exactly that in the
      slots. */
  lemma BenchCanFinish(work: seq<Work>) returns (acts: seq<PAct>)
    requires Doable(work)
    ensures RunProc(|work|, acts).Some?
    ensures var p := RunProc(|work|, acts).value;
            && p.main == Summing && |p.threads| == |work|
            && forall k :: 0 <= k < |work| ==>
                 p.threads[k].numOps == work[k].ops % U64 && p.threads[k].runtime == work[k].ns
  {
    acts := AloneToGate(work);
    var second := ToReportGate(work);
    ThenRun(|work|, acts, AtWarm(MeasureGate, work), second, AtWorked(ReportGate, work));
    acts := acts + second;
    var third := ToSumming(work);
    ThenRun(|work|, acts, AtWorked(ReportGate, work), third, AtFinished(Summing, work));
    acts := acts + third;
    forall k | 0 <= k < |work|
      ensures AtFinished(Summing, work).threads[k].numOps == work[k].ops % U64
      ensures AtFinished(Summing, work).threads[k].runtime == work[k].ns
    {
      FinishedSlots(work, k);
    }
  }
}
