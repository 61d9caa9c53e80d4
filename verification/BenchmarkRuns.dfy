/**
  What the benchmark can do: for every number of clients and threads, and whatever work the threads are to do,
  there is a run in which every process gets through all its phases and the driver prints its total. And what
  the slots of any run record.
*/
module BenchmarkRuns {
  import opened Wrappers
  import opened Powers
  import C = Counting
  import P = ClientProcess
  import R = ProcessRuns
  import T = Throughput
  import M = Measurements
  import opened Reports
  import opened Benchmark

  lemma Extend(su: Setup, m: nat, acts: seq<Action>, s: System, a: Action) returns (acts': seq<Action>)
    requires Run(su, m, acts) == Some(s) && Can(su, s, a)
    ensures Run(su, m, acts') == Some(Apply(su, s, a))
  {
    acts' := acts + [a];
    assert acts'[..|acts|] == acts;
  }

  // ---------- one process moves ----------

  function Placed(s: System, p: nat, x: Process): System
    requires p < |s.procs|
  {
    s.(procs := s.procs[p := x])
  }

  lemma PlacedTwice(s: System, p: nat, x: Process, y: Process)
    requires p < |s.procs|
    ensures |Placed(s, p, x).procs| == |s.procs| && Placed(s, p, x).procs[p] == x
    ensures Placed(Placed(s, p, x), p, y) == Placed(s, p, y)
    ensures Placed(s, p, s.procs[p]) == s
  {
    assert s.procs[p := x][p := y] == s.procs[p := y];
    assert s.procs[p := s.procs[p]] == s.procs;
  }

  /** An action of process `p` that appends nothing. */
  lemma Step(su: Setup, m: nat, acts: seq<Action>, s: System, p: nat, x: Process, a: Action)
    returns (acts': seq<Action>)
    requires p < |s.procs| && Run(su, m, acts) == Some(Placed(s, p, x)) && ActorOf(a) == p && !a.Append?
    requires CanProcess(Placed(s, p, x), a)
    ensures var w := Placed(s, p, x);
            Run(su, m, acts') == Some(Placed(s.(redis := RedisAfter(w, a)), p, ProcessAfter(w, a)))
  {
    var w := Placed(s, p, x);
    PlacedTwice(s, p, x, ProcessAfter(w, a));
    acts' := Extend(su, m, acts, w, a);
  }

  /** The process does what a process on its own can do. */
  lemma {:induction false} Lift(su: Setup, m: nat, acts: seq<Action>, s: System, p: nat, q: P.Proc, pacts: seq<P.PAct>)
    returns (acts': seq<Action>)
    requires p < |s.procs| && Run(su, m, acts) == Some(Placed(s, p, Process(q, false)))
    requires P.MainRank(q.main) >= 3 && R.Exec(q, pacts).Some?
    requires (P.OpenMeasure in pacts ==> Flag(s.redis.shouldMeasure))
          && (P.OpenReport in pacts ==> Flag(s.redis.shouldReport))
    ensures P.MainRank(R.Exec(q, pacts).value.main) >= 3
    ensures Run(su, m, acts') == Some(Placed(s, p, Process(R.Exec(q, pacts).value, false)))
    decreases pacts
  {
    if pacts == [] {
      acts' := acts;
    } else {
      var front, a := pacts[..|pacts| - 1], pacts[|pacts| - 1];
      acts' := Lift(su, m, acts, s, p, q, front);
      var q' := R.Exec(q, front).value;
      R.RankGrows(q', a);
      InnerStep(s, p, q', a);
      acts' := Step(su, m, acts', s, p, Process(q', false), Inner(p, a));
    }
  }

  lemma InnerStep(s: System, p: nat, q: P.Proc, a: P.PAct)
    requires p < |s.procs| && P.MainRank(q.main) >= 3 && P.CanAct(q, a)
    requires (a == P.OpenMeasure ==> Flag(s.redis.shouldMeasure)) && (a == P.OpenReport ==> Flag(s.redis.shouldReport))
    ensures var w := Placed(s, p, Process(q, false));
            && CanProcess(w, Inner(p, a)) && RedisAfter(w, Inner(p, a)) == s.redis
            && ProcessAfter(w, Inner(p, a)) == Process(P.Act(q, a), false)
            && s.(redis := s.redis) == s
  {
  }

  // ---------- the states in between ----------

  datatype Phase = Off | Warm | Worked | Ended

  /** A process that has not created its threads. */
  function Early(main: P.MainPc): Process {
    Process(P.Proc(main, [], 0, 0, 0, 0), false)
  }

  function ProcAt(ph: Phase, work: seq<R.Work>): Process {
    match ph
    case Off => Early(P.NotLaunched)
    case Warm => Process(R.AtWarm(P.MeasureGate, work), false)
    case Worked => Process(R.AtWorked(P.ReportGate, work), false)
    case Ended => Process(R.AtFinished(P.Done, work), true)
  }

  /** The first `j` of `m` processes are at `after`, the others at `before`. */
  function Procs(before: Phase, after: Phase, j: nat, m: nat, work: seq<R.Work>): (ps: seq<Process>)
    ensures |ps| == m
  {
    seq(m, p requires 0 <= p < m => ProcAt(if p < j then after else before, work))
  }

  lemma NextProc(before: Phase, after: Phase, j: nat, m: nat, work: seq<R.Work>)
    requires j < m
    ensures Procs(before, after, j, m, work)[j := ProcAt(after, work)] == Procs(before, after, j + 1, m, work)
    ensures Procs(before, after, j, m, work)[j] == ProcAt(before, work)
  {
  }

  lemma AllProcs(before: Phase, after: Phase, next: Phase, m: nat, work: seq<R.Work>)
    ensures Procs(before, after, m, m, work) == Procs(after, next, 0, m, work)
  {
  }

  function Params(su: Setup, left: int, started: int, measure: int, report: int): Redis {
    Redis(left, Some(su.threads), true, true, Some(measure), Some(report), started, 0, None)
  }

  // ---------- the driver's parameters ----------

  lemma {:induction false} WriteAll(su: Setup, m: nat, acts: seq<Action>, s: System, k: nat)
    returns (acts': seq<Action>)
    requires Run(su, m, acts) == Some(s) && k <= 8 && s.procs == Start(m).procs && s.log == []
    requires s.driver == (if k < 8 then Writing(k) else WaitingStarted) && Prepared(su, s.redis, k)
    ensures Run(su, m, acts') == Some(System(WaitingStarted, Params(su, su.clients, 0, 0, 0), Start(m).procs, []))
    decreases 8 - k
  {
    if k < 8 {
      acts' := Extend(su, m, acts, s, Write);
      acts' := WriteAll(su, m, acts', Apply(su, s, Write), k + 1);
    } else {
      acts' := acts;
    }
  }

  /** After `k` of the driver's first eight commands. */
  ghost predicate Prepared(su: Setup, r: Redis, k: nat) {
    && r.numclients == (if k >= 1 then su.clients else 0)
    && r.numthreads == (if k >= 2 then Some(su.threads) else None)
    && r.address == (k >= 3) && r.port == (k >= 4)
    && r.shouldMeasure == (if k >= 5 then Some(0) else None)
    && r.shouldReport == (if k >= 6 then Some(0) else None)
    && r.reported == 0 && r.started == 0 && r.results == None
  }

  // ---------- every process warms up ----------

  /** Process `j` is launched, gets a spot, and announces itself. */
  lemma WarmUp(su: Setup, m: nat, acts: seq<Action>, s: System, j: nat, work: seq<R.Work>) returns (acts': seq<Action>)
    requires Run(su, m, acts) == Some(s) && j < |s.procs| && s.procs[j] == ProcAt(Off, work) && |work| == su.threads
    requires s.redis.numclients >= 1 && s.redis.numthreads == Some(su.threads) && s.redis.address && s.redis.port
    ensures Run(su, m, acts') == Some(Placed(s.(redis := OneMore(s.redis)), j, ProcAt(Warm, work)))
  {
    acts' := Readied(su, m, acts, s, j);
    var pacts := R.ToAnnouncing(work);
    acts' := Lift(su, m, acts', SpotTaken(s), j, P.NewProc(P.Creating(0), su.threads), pacts);
    acts' := Announced(su, m, acts', SpotTaken(s), j, work);
    SpotAndStart(s);
  }

  lemma Readied(su: Setup, m: nat, acts: seq<Action>, s: System, j: nat) returns (acts': seq<Action>)
    requires Run(su, m, acts) == Some(s) && j < |s.procs| && s.procs[j] == Early(P.NotLaunched)
    requires s.redis.numclients >= 1 && s.redis.numthreads == Some(su.threads) && s.redis.address && s.redis.port
    ensures Run(su, m, acts') == Some(Placed(SpotTaken(s), j, Process(P.NewProc(P.Creating(0), su.threads), false)))
  {
    acts' := Launched(su, m, acts, s, j);
    acts' := Claimed(su, m, acts', s, j);
    acts' := Loaded(su, m, acts', SpotTaken(s), j);
  }

  function SpotTaken(s: System): System {
    s.(redis := s.redis.(numclients := s.redis.numclients - 1))
  }

  function StartCounted(s: System): System {
    s.(redis := s.redis.(started := s.redis.started + 1))
  }

  /** One spot less, one client announced. */
  function OneMore(r: Redis): Redis {
    r.(numclients := r.numclients - 1, started := r.started + 1)
  }

  lemma SpotAndStart(s: System)
    ensures StartCounted(SpotTaken(s)) == s.(redis := OneMore(s.redis))
  {
  }

  lemma Launched(su: Setup, m: nat, acts: seq<Action>, s: System, j: nat) returns (acts': seq<Action>)
    requires Run(su, m, acts) == Some(s) && j < |s.procs| && s.procs[j] == Early(P.NotLaunched)
    ensures Run(su, m, acts') == Some(Placed(s, j, Early(P.Claiming)))
  {
    PlacedTwice(s, j, s.procs[j], s.procs[j]);
    acts' := Step(su, m, acts, s, j, s.procs[j], Launch(j));
  }

  lemma Claimed(su: Setup, m: nat, acts: seq<Action>, s: System, j: nat) returns (acts': seq<Action>)
    requires j < |s.procs| && s.redis.numclients >= 1
    requires Run(su, m, acts) == Some(Placed(s, j, Early(P.Claiming)))
    ensures Run(su, m, acts') == Some(Placed(SpotTaken(s), j, Early(P.Loading)))
  {
    ClaimStep(s, j);
    acts' := Step(su, m, acts, s, j, Early(P.Claiming), Claim(j));
  }

  lemma ClaimStep(s: System, j: nat)
    requires j < |s.procs| && s.redis.numclients >= 1
    ensures var w := Placed(s, j, Early(P.Claiming));
            && CanProcess(w, Claim(j)) && ProcessAfter(w, Claim(j)) == Early(P.Loading)
            && RedisAfter(w, Claim(j)) == SpotTaken(s).redis
  {
  }

  lemma Loaded(su: Setup, m: nat, acts: seq<Action>, s: System, j: nat) returns (acts': seq<Action>)
    requires j < |s.procs| && s.redis.numthreads == Some(su.threads) && s.redis.address && s.redis.port
    requires Run(su, m, acts) == Some(Placed(s, j, Early(P.Loading)))
    ensures Run(su, m, acts') == Some(Placed(s, j, Process(P.NewProc(P.Creating(0), su.threads), false)))
  {
    acts' := Step(su, m, acts, s, j, Early(P.Loading), Load(j));
  }

  lemma Announced(su: Setup, m: nat, acts: seq<Action>, s: System, j: nat, work: seq<R.Work>)
    returns (acts': seq<Action>)
    requires j < |s.procs| && Run(su, m, acts) == Some(Placed(s, j, Process(R.AtWarm(P.Announcing, work), false)))
    ensures Run(su, m, acts') == Some(Placed(StartCounted(s), j, ProcAt(Warm, work)))
  {
    AnnounceStep(s, j, work);
    acts' := Step(su, m, acts, s, j, Process(R.AtWarm(P.Announcing, work), false), Announce(j));
  }

  lemma AnnounceStep(s: System, j: nat, work: seq<R.Work>)
    requires j < |s.procs|
    ensures var w := Placed(s, j, Process(R.AtWarm(P.Announcing, work), false));
            && CanProcess(w, Announce(j)) && ProcessAfter(w, Announce(j)) == ProcAt(Warm, work)
            && RedisAfter(w, Announce(j)) == StartCounted(s).redis
  {
  }

  lemma {:induction false} WarmUpAll(su: Setup, acts: seq<Action>, s: System, j: nat, work: seq<R.Work>)
    returns (acts': seq<Action>)
    requires j <= su.clients && Run(su, su.clients, acts) == Some(s) && |work| == su.threads
    requires s == System(WaitingStarted, Params(su, su.clients - j, j, 0, 0), Procs(Off, Warm, j, su.clients, work), [])
    ensures Run(su, su.clients, acts') ==
            Some(System(WaitingStarted, Params(su, 0, su.clients, 0, 0), Procs(Warm, Worked, 0, su.clients, work), []))
    decreases su.clients - j
  {
    if j < su.clients {
      NextProc(Off, Warm, j, su.clients, work);
      acts' := WarmUp(su, su.clients, acts, s, j, work);
      assert OneMore(s.redis) == Params(su, su.clients - (j + 1), j + 1, 0, 0);
      var s' := System(WaitingStarted, Params(su, su.clients - (j + 1), j + 1, 0, 0),
                       Procs(Off, Warm, j + 1, su.clients, work), []);
      acts' := WarmUpAll(su, acts', s', j + 1, work);
    } else {
      acts' := acts;
      AllProcs(Off, Warm, Worked, su.clients, work);
    }
  }

  // ---------- every process measures ----------

  lemma {:induction false} MeasureAll(su: Setup, acts: seq<Action>, s: System, j: nat, work: seq<R.Work>)
    returns (acts': seq<Action>)
    requires j <= su.clients && Run(su, su.clients, acts) == Some(s)
    requires s == System(SettingReport, Params(su, 0, su.clients, 1, 0), Procs(Warm, Worked, j, su.clients, work), [])
    ensures Run(su, su.clients, acts') ==
            Some(System(SettingReport, Params(su, 0, su.clients, 1, 0), Procs(Worked, Ended, 0, su.clients, work), []))
    decreases su.clients - j
  {
    if j < su.clients {
      NextProc(Warm, Worked, j, su.clients, work);
      var pacts := R.ToReportGate(work);
      PlacedTwice(s, j, s.procs[j], s.procs[j]);
      acts' := Lift(su, su.clients, acts, s, j, R.AtWarm(P.MeasureGate, work), pacts);
      acts' := MeasureAll(su, acts', s.(procs := Procs(Warm, Worked, j + 1, su.clients, work)), j + 1, work);
    } else {
      acts' := acts;
      AllProcs(Warm, Worked, Ended, su.clients, work);
    }
  }

  // ---------- every process reports ----------

  /** The throughput of a process that has done this work. */
  function RateOf(work: seq<R.Work>): Option<nat> {
    T.TotalRate(R.AtFinished(P.Done, work).threads)
  }

  /** `k` reports of `v`, the one of process `p` at place `p`. */
  function Log(k: nat, v: nat): (log: seq<(nat, nat)>)
    ensures |log| == k
  {
    seq(k, p requires 0 <= p < k => (p, v))
  }

  function Results(k: nat, v: nat): Option<string>
    requires v < U64
  {
    if k == 0 then None else Some(Joined(seq(k, _ => v)))
  }

  lemma JoinedOneMore(k: nat, v: nat)
    requires v < U64
    ensures Results(k + 1, v) == Some((if k == 0 then "" else Results(k, v).value) + Report(v))
  {
    var vs := seq(k + 1, _ => v);
    assert vs[..k] == seq(k, _ => v);
    assert Joined(vs) == Joined(vs[..k]) + Report(vs[k]);
    if k == 0 { assert vs[..k] == []; }
  }

  function Reporting(su: Setup, j: nat, v: nat, work: seq<R.Work>): System
    requires v < U64
  {
    System(WaitingReported,
           Redis(0, Some(su.threads), true, true, Some(1), Some(1), su.clients, j, Results(j, v)),
           Procs(Worked, Ended, j, su.clients, work), Log(j, v))
  }

  /** Process `j` adds up its slots, appends its report and counts itself. */
  lemma ReportOne(su: Setup, acts: seq<Action>, j: nat, v: nat, work: seq<R.Work>) returns (acts': seq<Action>)
    requires j < su.clients && v < U64 && RateOf(work) == Some(v) && R.Doable(work)
    requires Run(su, su.clients, acts) == Some(Reporting(su, j, v, work))
    ensures Run(su, su.clients, acts') == Some(Reporting(su, j + 1, v, work))
  {
    var s := Reporting(su, j, v, work);
    NextProc(Worked, Ended, j, su.clients, work);
    acts' := AddsUp(su, acts, s, j, work);
    acts' := Appends(su, acts', s, j, v, work);
    ReportedOne(su, j, v, work);
  }

  lemma AddsUp(su: Setup, acts: seq<Action>, s: System, j: nat, work: seq<R.Work>) returns (acts': seq<Action>)
    requires j < |s.procs| && s.procs[j] == ProcAt(Worked, work) && R.Doable(work)
    requires Run(su, su.clients, acts) == Some(s) && Flag(s.redis.shouldReport)
    ensures Run(su, su.clients, acts') == Some(Placed(s, j, Process(R.AtFinished(P.Summing, work), false)))
  {
    PlacedTwice(s, j, s.procs[j], s.procs[j]);
    var pacts := R.ToSumming(work);
    acts' := Lift(su, su.clients, acts, s, j, R.AtWorked(P.ReportGate, work), pacts);
  }

  lemma Appends(su: Setup, acts: seq<Action>, s: System, j: nat, v: nat, work: seq<R.Work>)
    returns (acts': seq<Action>)
    requires j < |s.procs| && v < U64 && RateOf(work) == Some(v)
    requires Run(su, su.clients, acts) == Some(Placed(s, j, Process(R.AtFinished(P.Summing, work), false)))
    ensures Run(su, su.clients, acts') == Some(Placed(ReportCounted(Logged(s, j, v)), j, ProcAt(Ended, work)))
  {
    acts' := Summed(su, acts, s, j, v, work);
    acts' := Appended(su, acts', s, j, v, work);
    acts' := Bumped(su, acts', Logged(s, j, v), j, work);
  }

  function ReportCounted(s: System): System {
    s.(redis := s.redis.(reported := s.redis.reported + 1))
  }

  lemma Bumped(su: Setup, acts: seq<Action>, s: System, j: nat, work: seq<R.Work>) returns (acts': seq<Action>)
    requires j < |s.procs|
    requires Run(su, su.clients, acts) == Some(Placed(s, j, Process(R.AtFinished(P.Counting, work), false)))
    ensures Run(su, su.clients, acts') == Some(Placed(ReportCounted(s), j, ProcAt(Ended, work)))
  {
    BumpStep(s, j, work);
    acts' := Step(su, su.clients, acts, s, j, Process(R.AtFinished(P.Counting, work), false), Bump(j));
  }

  lemma BumpStep(s: System, j: nat, work: seq<R.Work>)
    requires j < |s.procs|
    ensures var w := Placed(s, j, Process(R.AtFinished(P.Counting, work), false));
            && CanProcess(w, Bump(j)) && ProcessAfter(w, Bump(j)) == ProcAt(Ended, work)
            && RedisAfter(w, Bump(j)) == ReportCounted(s).redis
  {
  }

  lemma Summed(su: Setup, acts: seq<Action>, s: System, j: nat, v: nat, work: seq<R.Work>) returns (acts': seq<Action>)
    requires j < |s.procs| && RateOf(work) == Some(v)
    requires Run(su, su.clients, acts) == Some(Placed(s, j, Process(R.AtFinished(P.Summing, work), false)))
    ensures Run(su, su.clients, acts') == Some(Placed(s, j, Process(R.AtFinished(P.Appending(v), work), false)))
  {
    acts' := Step(su, su.clients, acts, s, j, Process(R.AtFinished(P.Summing, work), false), SumUp(j));
  }

  /** The results and the log with one more report. */
  function Logged(s: System, j: nat, v: nat): System
    requires v < U64
  {
    s.(redis := s.redis.(results := Some((if s.redis.results.Some? then s.redis.results.value else "") + Report(v))),
       log := s.log + [(j, v)])
  }

  lemma Appended(su: Setup, acts: seq<Action>, s: System, j: nat, v: nat, work: seq<R.Work>)
    returns (acts': seq<Action>)
    requires j < |s.procs| && v < U64
    requires Run(su, su.clients, acts) == Some(Placed(s, j, Process(R.AtFinished(P.Appending(v), work), false)))
    ensures Run(su, su.clients, acts') ==
            Some(Placed(Logged(s, j, v), j, Process(R.AtFinished(P.Counting, work), false)))
  {
    var x, y := Process(R.AtFinished(P.Appending(v), work), false), Process(R.AtFinished(P.Counting, work), false);
    PlacedTwice(s, j, x, y);
    acts' := Extend(su, su.clients, acts, Placed(s, j, x), Append(j));
  }

  lemma ReportedOne(su: Setup, j: nat, v: nat, work: seq<R.Work>)
    requires j < su.clients && v < U64
    ensures Placed(ReportCounted(Logged(Reporting(su, j, v, work), j, v)), j, ProcAt(Ended, work))
            == Reporting(su, j + 1, v, work)
  {
    NextProc(Worked, Ended, j, su.clients, work);
    JoinedOneMore(j, v);
    assert Log(j, v) + [(j, v)] == Log(j + 1, v);
  }

  lemma {:induction false} ReportAll(su: Setup, acts: seq<Action>, j: nat, v: nat, work: seq<R.Work>)
    returns (acts': seq<Action>)
    requires j <= su.clients && v < U64 && RateOf(work) == Some(v) && R.Doable(work)
    requires Run(su, su.clients, acts) == Some(Reporting(su, j, v, work))
    ensures Run(su, su.clients, acts') == Some(Reporting(su, su.clients, v, work))
    decreases su.clients - j
  {
    if j < su.clients {
      acts' := ReportOne(su, acts, j, v, work);
      acts' := ReportAll(su, acts', j + 1, v, work);
    } else {
      acts' := acts;
    }
  }

  // ---------- the whole benchmark ----------

  ghost predicate Timed(work: seq<R.Work>) {
    forall k :: 0 <= k < |work| ==> 0 < work[k].ns < U64
  }

  lemma Rated(work: seq<R.Work>)
    requires Timed(work)
    ensures RateOf(work).Some? && RateOf(work).value < U64
  {
    var ts := R.AtFinished(P.Done, work).threads;
    forall k | 0 <= k < |ts| ensures ts[k].runtime > 0 {
      assert ts[k] == R.ThreadAt(R.Finished, work[k]);
    }
    T.RateDefined(ts);
  }

  lemma StartIsOff(m: nat, work: seq<R.Work>)
    ensures Start(m).procs == Procs(Off, Warm, 0, m, work)
  {
    assert P.NewProc(P.NotLaunched, 0).threads == [];
    var ps, qs := Start(m).procs, Procs(Off, Warm, 0, m, work);
    assert |ps| == |qs|;
    forall p | 0 <= p < m ensures ps[p] == qs[p] {
      assert ps[p] == Process(P.NewProc(P.NotLaunched, 0), false);
      assert qs[p] == ProcAt(Off, work);
    }
  }

  lemma ToReporting(su: Setup, v: nat, work: seq<R.Work>) returns (acts: seq<Action>)
    requires |work| == su.threads && v < U64
    ensures Run(su, su.clients, acts) == Some(Reporting(su, 0, v, work))
  {
    var m := su.clients;
    acts := WriteAll(su, m, [], Start(m), 0);
    var s := System(WaitingStarted, Params(su, m, 0, 0, 0), Procs(Off, Warm, 0, m, work), []);
    StartIsOff(m, work);
    acts := WarmUpAll(su, acts, s, 0, work);
    s := System(WaitingStarted, Params(su, 0, m, 0, 0), Procs(Warm, Worked, 0, m, work), []);
    acts := Extend(su, m, acts, s, SeeStarted);
    s := s.(driver := SettingMeasure);
    acts := Extend(su, m, acts, s, SetMeasure);
    s := System(SettingReport, Params(su, 0, m, 1, 0), Procs(Warm, Worked, 0, m, work), []);
    acts := MeasureAll(su, acts, s, 0, work);
    s := s.(procs := Procs(Worked, Ended, 0, m, work));
    acts := Extend(su, m, acts, s, SetReport);
  }

  /** For every number of clients and threads, and any work with positive runtimes, some run ends with every
      process done, its threads having done exactly that work, one report of each in the results, and a total
      printed by the driver (none if there are no clients). */
  lemma BenchmarkCanFinish(su: Setup, work: seq<R.Work>) returns (acts: seq<Action>)
    requires |work| == su.threads && Timed(work)
    ensures Run(su, su.clients, acts).Some?
    ensures var s := Run(su, su.clients, acts).value;
            && s.driver.Finished? && (s.driver.total.Some? <==> su.clients > 0)
            && |s.log| == su.clients == |s.procs|
            && (forall p :: 0 <= p < su.clients ==> s.procs[p] == ProcAt(Ended, work))
            && (forall p :: 0 <= p < su.clients ==> RateOf(work) == Some(s.log[p].1))
  {
    Rated(work);
    var v := RateOf(work).value;
    acts := ToReporting(su, v, work);
    acts := ReportAll(su, acts, 0, v, work);
    var s := Reporting(su, su.clients, v, work);
    acts := Extend(su, su.clients, acts, s, SeeReported);
    s := s.(driver := Reading);
    acts := Extend(su, su.clients, acts, s, Read);
    if su.clients > 0 {
      DriverReadsAll(seq(su.clients, _ => v));
    }
  }

  // ---------- what a process has loaded ----------

  ghost predicate HasLoaded(su: Setup, s: System) {
    forall p :: 0 <= p < |s.procs| && P.MainRank(s.procs[p].proc.main) >= 3 ==> Published(su, s.redis)
  }

  ghost predicate Published(su: Setup, r: Redis) {
    r.numthreads == Some(su.threads) && r.address && r.port
  }

  lemma StillPublished(su: Setup, s: System, a: Action)
    requires Can(su, s, a) && Published(su, s.redis)
    ensures Published(su, Apply(su, s, a).redis)
  {
  }

  /** Only a process that found the parameters gets as far as its threads. */
  lemma OnlyLoad(su: Setup, s: System, a: Action)
    requires Can(su, s, a) && 0 <= ActorOf(a) && P.MainRank(s.procs[ActorOf(a)].proc.main) < 3
    requires P.MainRank(ProcessAfter(s, a).proc.main) >= 3
    ensures s.redis.numthreads.Some? && s.redis.address && s.redis.port
  {
  }

  lemma LoadedNext(su: Setup, s: System, a: Action)
    requires Can(su, s, a) && HasLoaded(su, s) && (s.redis.numthreads.Some? ==> s.redis.numthreads.value == su.threads)
    ensures HasLoaded(su, Apply(su, s, a))
  {
    var s' := Apply(su, s, a);
    forall p | 0 <= p < |s'.procs| && P.MainRank(s'.procs[p].proc.main) >= 3 ensures Published(su, s'.redis) {
      if P.MainRank(s.procs[p].proc.main) < 3 { OnlyLoad(su, s, a); }
      StillPublished(su, s, a);
    }
  }

  lemma {:induction false} RunLoaded(su: Setup, m: nat, acts: seq<Action>)
    requires Run(su, m, acts).Some?
    ensures HasLoaded(su, Run(su, m, acts).value)
    decreases acts
  {
    if acts != [] {
      var front := acts[..|acts| - 1];
      RunLoaded(su, m, front);
      RunInv(su, m, front);
      LoadedNext(su, Run(su, m, front).value, acts[|acts| - 1]);
    }
  }

  /** A process starts threads, and as many as the driver asked for, only after the number of threads and the
      server's address and port were published. */
  lemma ParamsAreThere(su: Setup, m: nat, acts: seq<Action>, p: nat)
    requires Run(su, m, acts).Some? && p < |Run(su, m, acts).value.procs|
    requires P.MainRank(Run(su, m, acts).value.procs[p].proc.main) >= 3
    ensures var s := Run(su, m, acts).value;
            && s.redis.numthreads == Some(su.threads) && s.redis.address && s.redis.port
            && |s.procs[p].proc.threads| == su.threads
  {
    RunLoaded(su, m, acts);
    RunInv(su, m, acts);
    assert ProcessOk(su, Run(su, m, acts).value, p);
  }

  // ---------- what the slots of any run record ----------

  /** How often thread `k` of process `p` did a measured operation. */
  function MeasuredBy(acts: seq<Action>, p: nat, k: nat): nat {
    if acts == [] then 0
    else MeasuredBy(acts[..|acts| - 1], p, k) + if acts[|acts| - 1] == Inner(p, P.MeasuredOp(k)) then 1 else 0
  }

  ghost predicate Recorded(pr: P.Proc, acts: seq<Action>, p: nat, k: nat) {
    && (P.MainRank(pr.main) < 3 ==> pr.threads == [])
    && (k >= |pr.threads| ==> MeasuredBy(acts, p, k) == 0)
    && (k < |pr.threads| ==>
          && pr.threads[k].counted == MeasuredBy(acts, p, k)
          && (P.Rank(pr.threads[k].pc) < 4 ==> pr.threads[k].counted == 0))
  }

  lemma RecordedAfter(su: Setup, s: System, a: Action, acts: seq<Action>, p: nat, k: nat)
    requires Can(su, s, a) && p < |s.procs| && Recorded(s.procs[p].proc, acts, p, k)
    ensures Recorded(Apply(su, s, a).procs[p].proc, acts + [a], p, k)
  {
    assert (acts + [a])[..|acts|] == acts;
    if ActorOf(a) == p && a.Inner? {
      InnerRecorded(s.procs[p].proc, a.a, k);
    }
  }

  lemma InnerRecorded(pr: P.Proc, x: P.PAct, k: nat)
    requires P.CanAct(pr, x) && P.MainRank(pr.main) >= 3
    requires k < |pr.threads| ==> (P.Rank(pr.threads[k].pc) < 4 ==> pr.threads[k].counted == 0)
    ensures |P.Act(pr, x).threads| == |pr.threads| && P.MainRank(P.Act(pr, x).main) >= 3
    ensures x == P.MeasuredOp(k) ==> k < |pr.threads|
    ensures k < |pr.threads| ==>
              var t, t' := pr.threads[k], P.Act(pr, x).threads[k];
              && t'.counted == t.counted + (if x == P.MeasuredOp(k) then 1 else 0)
              && (P.Rank(t'.pc) < 4 ==> t'.counted == 0)
  {
    R.RankGrows(pr, x);
  }

  lemma {:induction false} RunRecorded(su: Setup, m: nat, acts: seq<Action>, p: nat, k: nat)
    requires Run(su, m, acts).Some? && p < m
    ensures p < |Run(su, m, acts).value.procs| && Recorded(Run(su, m, acts).value.procs[p].proc, acts, p, k)
    decreases acts
  {
    if acts != [] {
      var front, a := acts[..|acts| - 1], acts[|acts| - 1];
      RunRecorded(su, m, front, p, k);
      RecordedAfter(su, Run(su, m, front).value, a, front, p, k);
      assert acts == front + [a];
    }
  }

  /** In every run, every slot of every process holds how often its thread did a measured operation. */
  lemma SlotsRecord(su: Setup, m: nat, acts: seq<Action>, p: nat, k: nat)
    requires Run(su, m, acts).Some? && p < |Run(su, m, acts).value.procs|
    requires k < |Run(su, m, acts).value.procs[p].proc.threads|
    ensures Run(su, m, acts).value.procs[p].proc.threads[k].numOps == MeasuredBy(acts, p, k) % U64
  {
    RunInv(su, m, acts);
    ProcsStay(su, m, acts);
    RunRecorded(su, m, acts, p, k);
    var s := Run(su, m, acts).value;
    assert ProcessOk(su, s, p);
    assert P.ThreadOk(s.procs[p].proc.threads[k]);
  }

  lemma {:induction false} ProcsStay(su: Setup, m: nat, acts: seq<Action>)
    requires Run(su, m, acts).Some?
    ensures |Run(su, m, acts).value.procs| == m
    decreases acts
  {
    if acts != [] { ProcsStay(su, m, acts[..|acts| - 1]); }
  }
}
