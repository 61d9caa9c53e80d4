/**
  One load-client process: the main thread of `bench` and N client threads that synchronise through
  four semaphores and one result slot each (multiclient.c; client.c is the same without Redis, with
  sleeps in the place of the two flags). Threads interleave arbitrarily.
*/
module ClientProcess {
  import opened Wrappers
  import opened Counting
  import opened Powers

  datatype ThreadPc =
    | Unborn
    | Starting      // connecting, first operation
    | Posting       // first operation done
    | Warming       // has posted `started`, polls `should_measure`
    | Measuring     // polls `should_report`
    | Stopping      // about to write its runtime
    | Written       // about to post `reported`
    | Reported      // runs on for the others

  function Rank(pc: ThreadPc): nat {
    match pc
    case Unborn => 0
    case Starting => 1
    case Posting => 2
    case Warming => 3
    case Measuring => 4
    case Stopping => 5
    case Written => 6
    case Reported => 7
  }

  /** `ops` counts every operation completed, `counted` those of the measuring phase; `numOps` and
      `runtime` are the thread's slot, two `uint64_t`. */
  datatype Thread = Thread(pc: ThreadPc, ops: nat, counted: nat, numOps: nat, runtime: nat)

  datatype MainPc =
    | NotLaunched
    | Claiming
    | Loading
    | Creating(i: nat)
    | WaitStarted(i: nat)
    | Announcing
    | MeasureGate
    | PostMeasure(i: nat)
    | ReportGate
    | PostReport(i: nat)
    | WaitReported(i: nat)
    | Summing
    | Appending(v: nat)
    | Counting
    | Done

  function MainRank(m: MainPc): nat {
    match m
    case NotLaunched => 0
    case Claiming => 1
    case Loading => 2
    case Creating(_) => 3
    case WaitStarted(_) => 4
    case Announcing => 5
    case MeasureGate => 6
    case PostMeasure(_) => 7
    case ReportGate => 8
    case PostReport(_) => 9
    case WaitReported(_) => 10
    case Summing => 11
    case Appending(_) => 12
    case Counting => 13
    case Done => 14
  }

  /** `started` ... `reported` are the semaphore values. */
  datatype Proc = Proc(main: MainPc, threads: seq<Thread>,
                       started: nat, measure: nat, report: nat, reported: nat)

  datatype PAct =
    | Create | WaitStartedOnce | PostMeasureOnce | PostReportOnce | WaitReportedOnce   // loop bodies of `bench`
    | Advance                                                                          // a loop of `bench` ends
    | OpenMeasure | OpenReport                                                         // past a flag, or a sleep
    | FirstOp(k: nat) | PostStarted(k: nat) | WarmOp(k: nat) | TakeMeasure(k: nat)
    | MeasuredOp(k: nat) | TakeReport(k: nat) | WriteRuntime(k: nat, ns: nat) | PostReported(k: nat) | IdleOp(k: nat)

  /** The thread a thread's action belongs to. */
  function Who(a: PAct): int {
    match a
    case FirstOp(k) => k
    case PostStarted(k) => k
    case WarmOp(k) => k
    case TakeMeasure(k) => k
    case MeasuredOp(k) => k
    case TakeReport(k) => k
    case WriteRuntime(k, _) => k
    case PostReported(k) => k
    case IdleOp(k) => k
    case _ => -1
  }

  predicate CanThread(p: Proc, a: PAct)
    requires 0 <= Who(a)
  {
    Who(a) < |p.threads| &&
    var pc := p.threads[Who(a)].pc;
    match a
    case FirstOp(_) => pc == Starting
    case PostStarted(_) => pc == Posting
    case WarmOp(_) => pc == Warming
    case TakeMeasure(_) => pc == Warming && p.measure > 0
    case MeasuredOp(_) => pc == Measuring
    case TakeReport(_) => pc == Measuring && p.report > 0
    case WriteRuntime(_, ns) => pc == Stopping && ns < U64
    case PostReported(_) => pc == Written
    case IdleOp(_) => pc == Reported
    case _ => false
  }

  predicate CanAct(p: Proc, a: PAct) {
    var n := |p.threads|;
    if 0 <= Who(a) then CanThread(p, a)
    else match a
      case Create => p.main.Creating? && p.main.i < n
      case WaitStartedOnce => p.main.WaitStarted? && p.main.i < n && p.started > 0
      case PostMeasureOnce => p.main.PostMeasure? && p.main.i < n
      case PostReportOnce => p.main.PostReport? && p.main.i < n
      case WaitReportedOnce => p.main.WaitReported? && p.main.i < n && p.reported > 0
      case OpenMeasure => p.main == MeasureGate
      case OpenReport => p.main == ReportGate
      case _ =>
        (p.main.Creating? || p.main.WaitStarted? || p.main.PostMeasure? || p.main.PostReport? || p.main.WaitReported?)
        && p.main.i >= n
  }

  function ThreadAfter(t: Thread, a: PAct): Thread {
    match a
    case FirstOp(_) => t.(pc := Posting, ops := t.ops + 1)
    case PostStarted(_) => t.(pc := Warming)
    case WarmOp(_) => t.(ops := t.ops + 1)
    case TakeMeasure(_) => t.(pc := Measuring, counted := 0, numOps := 0)
    case MeasuredOp(_) => t.(ops := t.ops + 1, counted := t.counted + 1, numOps := (t.numOps + 1) % U64)
    case TakeReport(_) => t.(pc := Stopping)
    case WriteRuntime(_, ns) => t.(pc := Written, runtime := ns)
    case PostReported(_) => t.(pc := Reported)
    case IdleOp(_) => t.(ops := t.ops + 1)
    case _ => t
  }

  function ThreadAct(p: Proc, a: PAct): Proc
    requires 0 <= Who(a) && CanThread(p, a)
  {
    p.(threads := p.threads[Who(a) := ThreadAfter(p.threads[Who(a)], a)],
       started := if a.PostStarted? then p.started + 1 else p.started,
       measure := if a.TakeMeasure? then p.measure - 1 else p.measure,
       report := if a.TakeReport? then p.report - 1 else p.report,
       reported := if a.PostReported? then p.reported + 1 else p.reported)
  }

  function Act(p: Proc, a: PAct): Proc
    requires CanAct(p, a)
  {
    if 0 <= Who(a) then ThreadAct(p, a)
    else match a
      case Create =>
        var i := p.main.i;
        p.(main := Creating(i + 1),
           threads := if p.threads[i].pc == Unborn then p.threads[i := p.threads[i].(pc := Starting)] else p.threads)
      case WaitStartedOnce => p.(main := WaitStarted(p.main.i + 1), started := p.started - 1)
      case PostMeasureOnce => p.(main := PostMeasure(p.main.i + 1), measure := p.measure + 1)
      case PostReportOnce => p.(main := PostReport(p.main.i + 1), report := p.report + 1)
      case WaitReportedOnce => p.(main := WaitReported(p.main.i + 1), reported := p.reported - 1)
      case OpenMeasure => p.(main := PostMeasure(0))
      case OpenReport => p.(main := PostReport(0))
      case _ =>
        p.(main := match p.main
                   case Creating(_) => WaitStarted(0)
                   case WaitStarted(_) => Announcing
                   case PostMeasure(_) => ReportGate
                   case PostReport(_) => WaitReported(0)
                   case _ => Summing)
  }

  /** A process before its threads are created. */
  function NewProc(main: MainPc, n: nat): Proc {
    Proc(main, seq(n, _ => Thread(Unborn, 0, 0, 0, 0)), 0, 0, 0, 0)
  }

  // ---------- the counting invariant ----------

  ghost function Ranks(ts: seq<Thread>): (s: seq<nat>)
    ensures |s| == |ts| && forall i :: 0 <= i < |ts| ==> s[i] == Rank(ts[i].pc)
  {
    seq(|ts|, i requires 0 <= i < |ts| => Rank(ts[i].pc))
  }

  ghost function Past(p: Proc, k: nat): nat {
    Count(Ranks(p.threads), k)
  }

  ghost predicate InLoop(m: MainPc) {
    m.Creating? || m.WaitStarted? || m.PostMeasure? || m.PostReport? || m.WaitReported?
  }

  /** How many iterations of the loop with rank `at` the main thread has done. */
  ghost function Iterations(p: Proc, at: nat): nat {
    if MainRank(p.main) < at then 0
    else if MainRank(p.main) == at && InLoop(p.main) then p.main.i
    else |p.threads|
  }

  ghost predicate ThreadOk(t: Thread) {
    (Rank(t.pc) >= 2 ==> t.ops >= 1) && t.numOps == t.counted % U64 && t.runtime < U64
  }

  /** Every semaphore holds what was posted and not yet taken. */
  ghost predicate Semaphores(p: Proc) {
    && (InLoop(p.main) ==> p.main.i <= |p.threads|)
    && p.started + Iterations(p, 4) == Past(p, 3)
    && p.measure + Past(p, 4) == Iterations(p, 7)
    && p.report + Past(p, 5) == Iterations(p, 9)
    && p.reported + Iterations(p, 10) == Past(p, 7)
  }

  ghost predicate ThreadsOk(p: Proc) {
    forall k :: 0 <= k < |p.threads| ==> ThreadOk(p.threads[k])
  }

  ghost predicate PInv(p: Proc) {
    Semaphores(p) && ThreadsOk(p)
  }

  lemma PastUpdate(p: Proc, k: nat, t: Thread, r: nat)
    requires k < |p.threads|
    ensures Past(p.(threads := p.threads[k := t]), r)
         == Past(p, r) - (if Rank(p.threads[k].pc) >= r then 1 else 0) + (if Rank(t.pc) >= r then 1 else 0)
  {
    CountUpdate(Ranks(p.threads), k, Rank(t.pc), r);
    assert Ranks(p.threads[k := t]) == Ranks(p.threads)[k := Rank(t.pc)];
  }

  lemma NewProcInv(main: MainPc, n: nat)
    requires MainRank(main) <= 2 || main == Creating(0)
    ensures PInv(NewProc(main, n))
  {
    var p := NewProc(main, n);
    forall k | k in {3, 4, 5, 7} ensures Past(p, k) == 0 {
      CountNone(Ranks(p.threads), k);
    }
  }

  lemma ThreadActSemaphores(p: Proc, a: PAct)
    requires Semaphores(p) && 0 <= Who(a) && CanThread(p, a)
    ensures Semaphores(ThreadAct(p, a))
  {
    var p', k := ThreadAct(p, a), Who(a);
    var t, t' := p.threads[k], ThreadAfter(p.threads[k], a);
    forall r: nat
      ensures Past(p', r) == Past(p, r) - (if Rank(t.pc) >= r then 1 else 0) + (if Rank(t'.pc) >= r then 1 else 0)
    {
      PastUpdate(p, k, t', r);
      assert p'.threads == p.threads[k := t'];
    }
  }

  lemma ThreadActInv(p: Proc, a: PAct)
    requires PInv(p) && 0 <= Who(a) && CanThread(p, a)
    ensures PInv(ThreadAct(p, a))
  {
    ThreadActSemaphores(p, a);
    var k := Who(a);
    assert ThreadOk(p.threads[k]);
    assert ThreadOk(ThreadAfter(p.threads[k], a));
  }

  lemma CreateSemaphores(p: Proc)
    requires Semaphores(p) && CanAct(p, Create)
    ensures Semaphores(Act(p, Create))
  {
    var p', i := Act(p, Create), p.main.i;
    var t := p.threads[i].(pc := Starting);
    if p.threads[i].pc == Unborn {
      forall r: nat | r >= 2 ensures Past(p', r) == Past(p, r) {
        PastUpdate(p, i, t, r);
        assert p'.threads == p.threads[i := t];
      }
    }
  }

  lemma MainSemaphores(p: Proc, a: PAct)
    requires Semaphores(p) && CanAct(p, a) && Who(a) < 0 && a != Create
    ensures Semaphores(Act(p, a)) && Act(p, a).threads == p.threads
  {
    assert Act(p, a).threads == p.threads;
  }

  lemma ActInv(p: Proc, a: PAct)
    requires PInv(p) && CanAct(p, a)
    ensures PInv(Act(p, a)) && |Act(p, a).threads| == |p.threads|
  {
    if 0 <= Who(a) {
      ThreadActInv(p, a);
    } else if a == Create {
      CreateSemaphores(p);
      assert ThreadOk(p.threads[p.main.i]);
    } else {
      MainSemaphores(p, a);
    }
  }

  // ---------- what the semaphores guarantee ----------

  /** After the waits on `started`, every thread has completed an operation. */
  lemma AllStarted(p: Proc, k: nat)
    requires PInv(p) && MainRank(p.main) >= 5 && k < |p.threads|
    ensures Rank(p.threads[k].pc) >= 3 && p.threads[k].ops >= 1
  {
    CountAll(Ranks(p.threads), 3, k);
  }

  /** No thread leaves warm-up before the main thread is past its first gate, nor stops measuring before
      it is past the second. */
  lemma GatesHold(p: Proc, k: nat)
    requires PInv(p) && k < |p.threads|
    ensures Rank(p.threads[k].pc) >= 4 ==> MainRank(p.main) >= 7
    ensures Rank(p.threads[k].pc) >= 5 ==> MainRank(p.main) >= 9
  {
    if Rank(p.threads[k].pc) >= 4 { CountSome(Ranks(p.threads), 4, k); }
    if Rank(p.threads[k].pc) >= 5 { CountSome(Ranks(p.threads), 5, k); }
  }

  /** After the waits on `reported`, every thread has written its slot and taken exactly one token of
      each kind. */
  lemma AllReported(p: Proc)
    requires PInv(p) && MainRank(p.main) >= 11
    ensures forall k :: 0 <= k < |p.threads| ==> p.threads[k].pc == Reported
    ensures p.started == p.measure == p.report == p.reported == 0
  {
    forall k | 0 <= k < |p.threads| ensures p.threads[k].pc == Reported {
      CountAll(Ranks(p.threads), 7, k);
    }
    CountMonotone(Ranks(p.threads), 5, 7);
    CountMonotone(Ranks(p.threads), 4, 7);
    CountMonotone(Ranks(p.threads), 3, 7);
  }

  /** From then on no slot changes any more, so none is read while it is being written. */
  lemma SlotsFrozen(p: Proc, a: PAct, k: nat)
    requires PInv(p) && MainRank(p.main) >= 11 && CanAct(p, a) && k < |p.threads|
    ensures Act(p, a).main == p.main && |Act(p, a).threads| == |p.threads|
    ensures Act(p, a).threads[k].numOps == p.threads[k].numOps
    ensures Act(p, a).threads[k].runtime == p.threads[k].runtime
    ensures Act(p, a).threads[k].counted == p.threads[k].counted
  {
    AllReported(p);
  }

  // ---------- client.c: whole runs of one process ----------

  /** client.c has nobody to announce itself to: after the waits on `started` it goes on to its first sleep. */
  function Alone(p: Proc): Proc {
    if p.main == Announcing then p.(main := MeasureGate) else p
  }

  function RunProc(n: nat, acts: seq<PAct>): Option<Proc>
    decreases acts
  {
    if acts == [] then Some(NewProc(Creating(0), n))
    else
      var p := RunProc(n, acts[..|acts| - 1]);
      if p.Some? && CanAct(p.value, acts[|acts| - 1]) then Some(Alone(Act(p.value, acts[|acts| - 1]))) else None
  }

  lemma {:induction false} RunProcInv(n: nat, acts: seq<PAct>)
    requires RunProc(n, acts).Some?
    ensures PInv(RunProc(n, acts).value) && |RunProc(n, acts).value.threads| == n
    decreases acts
  {
    if acts == [] {
      NewProcInv(Creating(0), n);
    } else {
      RunProcInv(n, acts[..|acts| - 1]);
      ActInv(RunProc(n, acts[..|acts| - 1]).value, acts[|acts| - 1]);
    }
  }

  /** In every run of client.c: when `bench` gets to its totals, all N threads are done writing. */
  lemma BenchReadsFinalSlots(n: nat, acts: seq<PAct>, k: nat)
    requires RunProc(n, acts).Some? && MainRank(RunProc(n, acts).value.main) >= 11 && k < n
    ensures var p := RunProc(n, acts).value;
            k < |p.threads| && p.threads[k].pc == Reported && p.threads[k].ops >= 1
            && p.threads[k].numOps == p.threads[k].counted % U64
  {
    RunProcInv(n, acts);
    AllReported(RunProc(n, acts).value);
    assert ThreadOk(RunProc(n, acts).value.threads[k]);
  }
}
