/**
  The distributed benchmark: driver.py, any number of client processes (multiclient.c), and the Redis
  counters and flags between them (dsync.c). Every Redis command is one atomic step; processes may be
  launched at any time, also beside the ones the driver starts, and may die at any time.
*/
module Benchmark {
  import opened Wrappers
  import opened Powers
  import C = Counting
  import opened ClientProcess
  import opened Throughput
  import opened Reports

  /** `clients` is len(client_addresses), `threads` the num_threads argument. */
  datatype Setup = Setup(clients: nat, threads: nat)

  /** None stands for a key that does not exist; counters of missing keys count from 0. */
  datatype Redis = Redis(
    numclients: int, numthreads: Option<nat>, address: bool, port: bool,
    shouldMeasure: Option<int>, shouldReport: Option<int>, started: int, reported: int, results: Option<string>)

  const FRESH_REDIS := Redis(0, None, false, false, None, None, 0, 0, None)

  datatype Driver =
    | Writing(k: nat)               // write_benchmark_params_to_redis, before its k-th command
    | WaitingStarted
    | SettingMeasure
    | SettingReport
    | WaitingReported
    | Reading
    | Finished(total: Option<int>)  // None when get_throughput raised

  function DriverRank(d: Driver): nat {
    match d
    case Writing(k) => if k == 0 then 0 else 1
    case WaitingStarted => 2
    case SettingMeasure => 3
    case SettingReport => 4
    case WaitingReported => 5
    case Reading => 6
    case Finished(_) => 7
  }

  datatype Process = Process(proc: Proc, dead: bool)

  /** `log` remembers who appended what to the results, in order. */
  datatype System = System(driver: Driver, redis: Redis, procs: seq<Process>, log: seq<(nat, nat)>)

  datatype Action =
    | Write | SeeStarted | SetMeasure | SetReport | SeeReported | Read                 // the driver
    | Launch(p: nat) | Claim(p: nat) | Load(p: nat) | Announce(p: nat)                 // process p
    | Inner(p: nat, a: PAct) | SumUp(p: nat) | Append(p: nat) | Bump(p: nat) | Die(p: nat)

  function Start(m: nat): System {
    System(Writing(0), FRESH_REDIS, seq(m, _ => Process(NewProc(NotLaunched, 0), false)), [])
  }

  function Written(su: Setup, r: Redis, k: nat): Redis {
    if k == 0 then r.(numclients := su.clients)
    else if k == 1 then r.(numthreads := Some(su.threads))
    else if k == 2 then r.(address := true)
    else if k == 3 then r.(port := true)
    else if k == 4 then r.(shouldMeasure := Some(0))
    else if k == 5 then r.(shouldReport := Some(0))
    else if k == 6 then r.(reported := 0)
    else r.(started := 0)
  }

  predicate Flag(f: Option<int>) {
    f.Some? && f.value > 0
  }

  function ActorOf(a: Action): int {
    match a
    case Launch(p) => p
    case Claim(p) => p
    case Load(p) => p
    case Announce(p) => p
    case Inner(p, _) => p
    case SumUp(p) => p
    case Append(p) => p
    case Bump(p) => p
    case Die(p) => p
    case _ => -1
  }

  predicate CanProcess(s: System, a: Action)
    requires 0 <= ActorOf(a) < |s.procs|
  {
    var pr := s.procs[ActorOf(a)].proc;
    !s.procs[ActorOf(a)].dead &&
    match a
    case Launch(_) => pr.main == NotLaunched
    case Claim(_) => pr.main == Claiming
    case Load(_) => pr.main == Loading
    case Announce(_) => pr.main == Announcing
    case Inner(_, x) =>
      && MainRank(pr.main) >= 3 && CanAct(pr, x)
      && (x == OpenMeasure ==> Flag(s.redis.shouldMeasure)) && (x == OpenReport ==> Flag(s.redis.shouldReport))
    case SumUp(_) => pr.main == Summing
    case Append(_) => pr.main.Appending? && pr.main.v < U64
    case Bump(_) => pr.main.Counting?
    case _ => true
  }

  predicate Can(su: Setup, s: System, a: Action) {
    if 0 <= ActorOf(a) then ActorOf(a) < |s.procs| && CanProcess(s, a)
    else match a
      case Write => s.driver.Writing? && s.driver.k < 8
      case SeeStarted => s.driver == WaitingStarted && s.redis.started >= su.clients
      case SetMeasure => s.driver == SettingMeasure
      case SetReport => s.driver == SettingReport
      case SeeReported => s.driver == WaitingReported && s.redis.reported >= su.clients
      case _ => s.driver == Reading
  }

  function DriverAct(su: Setup, s: System, a: Action): System
    requires ActorOf(a) < 0 && Can(su, s, a)
  {
    match a
    case Write =>
      var k := s.driver.k;
      s.(redis := Written(su, s.redis, k), driver := if k + 1 < 8 then Writing(k + 1) else WaitingStarted)
    case SeeStarted => s.(driver := SettingMeasure)
    case SetMeasure => s.(driver := SettingReport, redis := s.redis.(shouldMeasure := Some(1)))
    case SetReport => s.(driver := WaitingReported, redis := s.redis.(shouldReport := Some(1)))
    case SeeReported => s.(driver := Reading)
    case _ => s.(driver := Finished(GetThroughput(s.redis.results)))
  }

  /** What an action leaves of the acting process. */
  function ProcessAfter(s: System, a: Action): Process
    requires 0 <= ActorOf(a) < |s.procs| && CanProcess(s, a)
  {
    var pr := s.procs[ActorOf(a)].proc;
    match a
    case Launch(_) => Process(pr.(main := Claiming), false)
    case Claim(_) =>
      if s.redis.numclients - 1 < 0 then Process(pr, true) else Process(pr.(main := Loading), false)
    case Load(_) =>
      if s.redis.numthreads.None? || !s.redis.address || !s.redis.port then Process(pr, true)
      else Process(NewProc(Creating(0), s.redis.numthreads.value), false)
    case Announce(_) => Process(pr.(main := MeasureGate), false)
    case Inner(_, x) => Process(Act(pr, x), false)
    case SumUp(_) =>
      var v := TotalRate(pr.threads);
      if v.None? then Process(pr, true) else Process(pr.(main := Appending(v.value)), false)
    case Append(_) => Process(pr.(main := ClientProcess.Counting), false)
    case Bump(_) => Process(pr.(main := Done), true)
    case _ => Process(pr, true)
  }

  function RedisAfter(s: System, a: Action): Redis
    requires 0 <= ActorOf(a) < |s.procs| && CanProcess(s, a)
  {
    var r := s.redis;
    match a
    case Claim(_) => r.(numclients := r.numclients - 1)
    case Announce(_) => r.(started := r.started + 1)
    case Append(p) =>
      r.(results := Some((if r.results.Some? then r.results.value else "") + Report(s.procs[p].proc.main.v)))
    case Bump(_) => r.(reported := r.reported + 1)
    case _ => r
  }

  function Apply(su: Setup, s: System, a: Action): System
    requires Can(su, s, a)
  {
    if ActorOf(a) < 0 then DriverAct(su, s, a)
    else
      s.(procs := s.procs[ActorOf(a) := ProcessAfter(s, a)], redis := RedisAfter(s, a),
         log := if a.Append? then s.log + [(a.p, s.procs[a.p].proc.main.v)] else s.log)
  }

  /** The state after a list of actions of a system with `m` processes, if each of them was possible. */
  function Run(su: Setup, m: nat, acts: seq<Action>): Option<System>
    decreases acts
  {
    if acts == [] then Some(Start(m))
    else
      var s := Run(su, m, acts[..|acts| - 1]);
      if s.Some? && Can(su, s.value, acts[|acts| - 1]) then Some(Apply(su, s.value, acts[|acts| - 1])) else None
  }

  // ---------- the invariant ----------

  ghost function Ranked(ps: seq<Process>): (r: seq<nat>)
    ensures |r| == |ps| && forall i :: 0 <= i < |ps| ==> r[i] == MainRank(ps[i].proc.main)
  {
    seq(|ps|, i requires 0 <= i < |ps| => MainRank(ps[i].proc.main))
  }

  /** How many processes have got at least to rank `k`. */
  ghost function At(s: System, k: nat): nat {
    C.Count(Ranked(s.procs), k)
  }

  ghost function Max0(x: int): nat {
    if x < 0 then 0 else x
  }

  /** Spots and counters. */
  ghost predicate Counters(su: Setup, s: System) {
    && (s.driver == Writing(0) ==> s.redis.numclients <= 0 && At(s, 2) == 0)
    && (s.driver != Writing(0) ==> At(s, 2) + Max0(s.redis.numclients) == su.clients)
    && (DriverRank(s.driver) == 0 ==> s.driver == Writing(0))
    && s.redis.started <= At(s, 6)
    && s.redis.reported <= At(s, 14)
    && (DriverRank(s.driver) >= 3 ==> At(s, 6) >= su.clients)
    && (DriverRank(s.driver) >= 6 ==> At(s, 14) >= su.clients)
    && (s.redis.numthreads.Some? ==> s.redis.numthreads.value == su.threads)
    && (Flag(s.redis.shouldMeasure) <==> DriverRank(s.driver) >= 4)
    && (Flag(s.redis.shouldReport) <==> DriverRank(s.driver) >= 5)
  }

  ghost predicate ProcessOk(su: Setup, s: System, p: nat)
    requires p < |s.procs|
  {
    var pr := s.procs[p].proc;
    && PInv(pr)
    && (MainRank(pr.main) >= 3 ==> |pr.threads| == su.threads)
    && (MainRank(pr.main) >= 7 ==> DriverRank(s.driver) >= 4)
    && (MainRank(pr.main) >= 9 ==> DriverRank(s.driver) >= 5)
    && (pr.main.Appending? ==> TotalRate(pr.threads) == Some(pr.main.v))
  }

  /** The entries of the log are exactly the processes that have appended, with their throughputs. */
  ghost predicate LogOk(s: System) {
    && |s.log| == At(s, 13)
    && (forall i :: 0 <= i < |s.log| ==>
          && s.log[i].0 < |s.procs| && MainRank(s.procs[s.log[i].0].proc.main) >= 13
          && TotalRate(s.procs[s.log[i].0].proc.threads) == Some(s.log[i].1))
    && (forall i, j :: 0 <= i < j < |s.log| ==> s.log[i].0 != s.log[j].0)
  }

  function Values(log: seq<(nat, nat)>): (vs: seq<nat>)
    ensures |vs| == |log| && forall i :: 0 <= i < |log| ==> vs[i] == log[i].1
  {
    seq(|log|, i requires 0 <= i < |log| => log[i].1)
  }

  ghost predicate ResultsOk(s: System) {
    && U64s(Values(s.log))
    && s.redis.results == (if s.log == [] then None else Some(Joined(Values(s.log))))
  }

  ghost predicate Inv(su: Setup, s: System) {
    && Counters(su, s) && LogOk(s) && ResultsOk(s)
    && (forall p :: 0 <= p < |s.procs| ==> ProcessOk(su, s, p))
  }

  lemma StartInv(su: Setup, m: nat)
    ensures Inv(su, Start(m))
  {
    var s := Start(m);
    NewProcInv(NotLaunched, 0);
    StartCounts(m, 2);
    StartCounts(m, 6);
    StartCounts(m, 13);
    StartCounts(m, 14);
  }

  lemma StartCounts(m: nat, k: nat)
    requires k > 0
    ensures At(Start(m), k) == 0
  {
    C.CountNone(Ranked(Start(m).procs), k);
  }

  lemma DriverCounters(su: Setup, s: System, a: Action)
    requires Counters(su, s) && Can(su, s, a) && ActorOf(a) < 0
    ensures Counters(su, Apply(su, s, a)) && DriverRank(s.driver) <= DriverRank(Apply(su, s, a).driver)
  {
    if a == Write { WriteCounters(su, s); }
    assert Apply(su, s, a).procs == s.procs;
  }

  lemma WriteCounters(su: Setup, s: System)
    requires Counters(su, s) && Can(su, s, Write)
    ensures Counters(su, Apply(su, s, Write))
  {
    assert Apply(su, s, Write).procs == s.procs;
  }

  lemma DriverResults(su: Setup, s: System, a: Action)
    requires ResultsOk(s) && Can(su, s, a) && ActorOf(a) < 0
    ensures ResultsOk(Apply(su, s, a)) && Apply(su, s, a).log == s.log && Apply(su, s, a).procs == s.procs
  {
  }

  lemma DriverInv(su: Setup, s: System, a: Action)
    requires Inv(su, s) && Can(su, s, a) && ActorOf(a) < 0
    ensures Inv(su, Apply(su, s, a))
  {
    var s' := Apply(su, s, a);
    DriverCounters(su, s, a);
    DriverResults(su, s, a);
    forall p | 0 <= p < |s'.procs| ensures ProcessOk(su, s', p) {
      assert ProcessOk(su, s, p);
    }
  }

  /** One process moves: every count changes by at most its contribution. */
  lemma AtUpdate(su: Setup, s: System, a: Action, k: nat)
    requires 0 <= ActorOf(a) && Can(su, s, a)
    ensures At(Apply(su, s, a), k) == At(s, k)
         - (if MainRank(s.procs[ActorOf(a)].proc.main) >= k then 1 else 0)
         + (if MainRank(ProcessAfter(s, a).proc.main) >= k then 1 else 0)
  {
    var p, x := ActorOf(a), ProcessAfter(s, a);
    C.CountUpdate(Ranked(s.procs), p, MainRank(x.proc.main), k);
    assert Ranked(s.procs[p := x]) == Ranked(s.procs)[p := MainRank(x.proc.main)];
  }

  lemma ProcessCounters(su: Setup, s: System, a: Action)
    requires Counters(su, s) && 0 <= ActorOf(a) && Can(su, s, a)
    ensures Counters(su, Apply(su, s, a))
  {
    AtUpdate(su, s, a, 2);
    AtUpdate(su, s, a, 6);
    AtUpdate(su, s, a, 14);
    CountersMove(su, s, a, Apply(su, s, a));
  }

  lemma CountersMove(su: Setup, s: System, a: Action, s': System)
    requires Counters(su, s) && 0 <= ActorOf(a) && Can(su, s, a) && s' == Apply(su, s, a)
    requires forall k :: k == 2 || k == 6 || k == 14 ==>
               At(s', k) == At(s, k)
                 - (if MainRank(s.procs[ActorOf(a)].proc.main) >= k then 1 else 0)
                 + (if MainRank(ProcessAfter(s, a).proc.main) >= k then 1 else 0)
    ensures Counters(su, s')
  {
    assert At(s', 2) >= 0 && At(s', 6) >= 0 && At(s', 14) >= 0;
    RanksMove(su, s, a);
  }

  /** Which counts an action of a process can change, and what it does to the counters. */
  lemma RanksMove(su: Setup, s: System, a: Action)
    requires 0 <= ActorOf(a) && Can(su, s, a)
    ensures var r, r' := MainRank(s.procs[ActorOf(a)].proc.main), MainRank(ProcessAfter(s, a).proc.main);
            var d, d' := s.redis, Apply(su, s, a).redis;
            && r <= r' && Apply(su, s, a).driver == s.driver
            && d' == d.(numclients := d'.numclients, started := d'.started, reported := d'.reported,
                        results := d'.results)
            && d'.numclients == d.numclients - (if a.Claim? then 1 else 0)
            && d'.started == d.started + (if a.Announce? then 1 else 0)
            && d'.reported == d.reported + (if a.Bump? then 1 else 0)
            && (r < 2 <= r' <==> a.Claim? && d.numclients - 1 >= 0)
            && (r < 6 <= r' <==> a.Announce?) && (r < 14 <= r' <==> a.Bump?)
  {
  }

  lemma {:induction false} TotalRateSame(ts: seq<Thread>, ts': seq<Thread>)
    requires |ts| == |ts'|
    requires forall k :: 0 <= k < |ts| ==> ts[k].numOps == ts'[k].numOps && ts[k].runtime == ts'[k].runtime
    ensures TotalRate(ts) == TotalRate(ts')
    decreases ts
  {
    if ts != [] { TotalRateSame(ts[..|ts| - 1], ts'[..|ts| - 1]); }
  }

  lemma FrozenRate(p: Proc, x: PAct)
    requires PInv(p) && MainRank(p.main) >= 11 && CanAct(p, x)
    ensures Act(p, x).main == p.main && TotalRate(Act(p, x).threads) == TotalRate(p.threads)
  {
    ActInv(p, x);
    forall k | 0 <= k < |p.threads|
      ensures Act(p, x).threads[k].numOps == p.threads[k].numOps && Act(p, x).threads[k].runtime == p.threads[k].runtime
    {
      SlotsFrozen(p, x, k);
    }
    TotalRateSame(p.threads, Act(p, x).threads);
  }

  /** Only the two gates lead into the measuring and the reporting phase. */
  lemma InnerMain(p: Proc, x: PAct)
    requires CanAct(p, x)
    ensures MainRank(Act(p, x).main) >= 7 ==> MainRank(p.main) >= 7 || x == OpenMeasure
    ensures MainRank(Act(p, x).main) >= 9 ==> MainRank(p.main) >= 9 || x == OpenReport
    ensures Act(p, x).main.Appending? ==> MainRank(p.main) >= 11
  {
  }

  lemma InnerOk(su: Setup, s: System, p: nat, x: PAct)
    requires p < |s.procs| && ProcessOk(su, s, p) && CanProcess(s, Inner(p, x)) && Counters(su, s)
    ensures ProcessOk(su, Apply(su, s, Inner(p, x)), p)
  {
    var pr := s.procs[p].proc;
    ActInv(pr, x);
    InnerMain(pr, x);
    if MainRank(pr.main) >= 11 {
      FrozenRate(pr, x);
    }
    var s' := Apply(su, s, Inner(p, x));
    assert s'.procs[p].proc == Act(pr, x) && s'.driver == s.driver;
  }

  lemma ActorOk(su: Setup, s: System, a: Action)
    requires 0 <= ActorOf(a) && Can(su, s, a) && Counters(su, s) && ProcessOk(su, s, ActorOf(a))
    ensures ProcessOk(su, Apply(su, s, a), ActorOf(a))
  {
    var pr := s.procs[ActorOf(a)].proc;
    if a.Inner? {
      InnerOk(su, s, a.p, a.a);
    } else if a.Load? {
      NewProcInv(Creating(0), su.threads);
    } else {
      OtherMoves(su, s, a);
    }
  }

  /** Moves of the main thread outside the loops leave threads and semaphores alone. */
  lemma OtherMoves(su: Setup, s: System, a: Action)
    requires 0 <= ActorOf(a) && Can(su, s, a) && !a.Inner? && !a.Load? && ProcessOk(su, s, ActorOf(a))
    ensures ProcessOk(su, Apply(su, s, a), ActorOf(a))
  {
    var pr, pr' := s.procs[ActorOf(a)].proc, ProcessAfter(s, a).proc;
    assert pr' == pr.(main := pr'.main);
    assert forall k: nat :: Past(pr', k) == Past(pr, k);
  }

  /** The throughput of a process that has computed it does not change any more. */
  lemma ActorRate(su: Setup, s: System, a: Action)
    requires 0 <= ActorOf(a) && Can(su, s, a) && ProcessOk(su, s, ActorOf(a))
    requires MainRank(s.procs[ActorOf(a)].proc.main) >= 12
    ensures TotalRate(ProcessAfter(s, a).proc.threads) == TotalRate(s.procs[ActorOf(a)].proc.threads)
    ensures MainRank(ProcessAfter(s, a).proc.main) >= MainRank(s.procs[ActorOf(a)].proc.main)
  {
    if a.Inner? {
      FrozenRate(s.procs[a.p].proc, a.a);
    } else {
      ThreadsKept(su, s, a);
    }
  }

  lemma ThreadsKept(su: Setup, s: System, a: Action)
    requires 0 <= ActorOf(a) && Can(su, s, a) && !a.Inner? && MainRank(s.procs[ActorOf(a)].proc.main) >= 12
    ensures ProcessAfter(s, a).proc.threads == s.procs[ActorOf(a)].proc.threads
    ensures MainRank(ProcessAfter(s, a).proc.main) >= MainRank(s.procs[ActorOf(a)].proc.main)
  {
  }

  /** A process that has appended keeps its rank and its throughput. */
  lemma EntryKept(su: Setup, s: System, a: Action, q: nat)
    requires 0 <= ActorOf(a) && Can(su, s, a) && ProcessOk(su, s, ActorOf(a))
    requires q < |s.procs| && MainRank(s.procs[q].proc.main) >= 13
    ensures MainRank(Apply(su, s, a).procs[q].proc.main) >= 13
    ensures TotalRate(Apply(su, s, a).procs[q].proc.threads) == TotalRate(s.procs[q].proc.threads)
  {
    if q == ActorOf(a) { ActorRate(su, s, a); }
  }

  lemma LogLength(su: Setup, s: System, a: Action)
    requires LogOk(s) && 0 <= ActorOf(a) && Can(su, s, a) && ProcessOk(su, s, ActorOf(a))
    ensures |Apply(su, s, a).log| == At(Apply(su, s, a), 13)
  {
    AtUpdate(su, s, a, 13);
    LogGrows(su, s, a);
    AppendIsRank13(su, s, a);
  }

  lemma LogGrows(su: Setup, s: System, a: Action)
    requires 0 <= ActorOf(a) && Can(su, s, a)
    ensures |Apply(su, s, a).log| == |s.log| + if a.Append? then 1 else 0
  {
  }

  /** A process gets past rank 12 by appending, and in no other way. */
  lemma AppendIsRank13(su: Setup, s: System, a: Action)
    requires 0 <= ActorOf(a) && Can(su, s, a) && ProcessOk(su, s, ActorOf(a))
    ensures var r, r' := MainRank(s.procs[ActorOf(a)].proc.main), MainRank(ProcessAfter(s, a).proc.main);
            (if r' >= 13 then 1 else 0) == (if r >= 13 then 1 else 0) + (if a.Append? then 1 else 0)
  {
    if MainRank(s.procs[ActorOf(a)].proc.main) >= 12 {
      ActorRate(su, s, a);
      if MainRank(s.procs[ActorOf(a)].proc.main) == 12 { OnlyAppend(su, s, a); }
    } else {
      NotYetAppended(su, s, a);
    }
  }

  lemma OnlyAppend(su: Setup, s: System, a: Action)
    requires 0 <= ActorOf(a) && Can(su, s, a) && MainRank(s.procs[ActorOf(a)].proc.main) == 12
    requires ProcessOk(su, s, ActorOf(a))
    ensures a.Append? <==> MainRank(ProcessAfter(s, a).proc.main) >= 13
  {
    if a.Inner? { FrozenRate(s.procs[a.p].proc, a.a); }
  }

  lemma ProcessLog(su: Setup, s: System, a: Action)
    requires LogOk(s) && 0 <= ActorOf(a) && Can(su, s, a) && ProcessOk(su, s, ActorOf(a))
    ensures LogOk(Apply(su, s, a))
  {
    var s' := Apply(su, s, a);
    LogLength(su, s, a);
    forall i | 0 <= i < |s.log|
      ensures MainRank(s'.procs[s.log[i].0].proc.main) >= 13
      ensures TotalRate(s'.procs[s.log[i].0].proc.threads) == Some(s.log[i].1)
    {
      EntryKept(su, s, a, s.log[i].0);
    }
    if a.Append? { ActorRate(su, s, a); }
  }

  lemma NotYetAppended(su: Setup, s: System, a: Action)
    requires 0 <= ActorOf(a) && Can(su, s, a) && MainRank(s.procs[ActorOf(a)].proc.main) < 12
    ensures MainRank(ProcessAfter(s, a).proc.main) < 13 && !a.Append?
  {
  }

  lemma ProcessResults(su: Setup, s: System, a: Action)
    requires ResultsOk(s) && 0 <= ActorOf(a) && Can(su, s, a)
    ensures ResultsOk(Apply(su, s, a))
  {
    var s' := Apply(su, s, a);
    if a.Append? {
      var vs' := Values(s'.log);
      assert vs'[..|vs'| - 1] == Values(s.log);
      if s.log == [] { assert Joined(vs') == "" + Report(vs'[0]); }
    }
  }

  lemma ProcessInv(su: Setup, s: System, a: Action)
    requires Inv(su, s) && Can(su, s, a) && 0 <= ActorOf(a)
    ensures Inv(su, Apply(su, s, a))
  {
    var s' := Apply(su, s, a);
    assert ProcessOk(su, s, ActorOf(a));
    ProcessCounters(su, s, a);
    ActorOk(su, s, a);
    ProcessLog(su, s, a);
    ProcessResults(su, s, a);
    forall p | 0 <= p < |s'.procs| ensures ProcessOk(su, s', p) {
      if p != ActorOf(a) { assert ProcessOk(su, s, p); }
    }
  }

  lemma {:induction false} RunInv(su: Setup, m: nat, acts: seq<Action>)
    requires Run(su, m, acts).Some?
    ensures Inv(su, Run(su, m, acts).value)
    decreases acts
  {
    if acts == [] {
      StartInv(su, m);
    } else {
      var front, a := acts[..|acts| - 1], acts[|acts| - 1];
      RunInv(su, m, front);
      if ActorOf(a) < 0 {
        DriverInv(su, Run(su, m, front).value, a);
      } else {
        ProcessInv(su, Run(su, m, front).value, a);
      }
    }
  }

  // ---------- what the barrier guarantees ----------

  /** A process that got a spot. */
  ghost predicate Holds(s: System, p: nat)
    requires p < |s.procs|
  {
    MainRank(s.procs[p].proc.main) >= 2
  }

  /** All threads of a process have completed at least one operation and said so. */
  ghost predicate WarmedUp(su: Setup, s: System, p: nat)
    requires p < |s.procs|
  {
    var ts := s.procs[p].proc.threads;
    |ts| == su.threads && forall k :: 0 <= k < |ts| ==> ts[k].ops >= 1 && Rank(ts[k].pc) >= 3
  }

  lemma HolderStarted(su: Setup, s: System, p: nat)
    requires Counters(su, s) && DriverRank(s.driver) >= 3 && p < |s.procs| && Holds(s, p) && ProcessOk(su, s, p)
    ensures WarmedUp(su, s, p)
  {
    C.CountMonotone(Ranked(s.procs), 2, 6);
    C.CountEqual(Ranked(s.procs), 2, 6, p);
    var pr := s.procs[p].proc;
    forall k | 0 <= k < |pr.threads| ensures pr.threads[k].ops >= 1 && Rank(pr.threads[k].pc) >= 3 {
      AllStarted(pr, k);
    }
  }

  lemma StartedMeansWarm(su: Setup, s: System)
    requires Inv(su, s) && DriverRank(s.driver) >= 3
    ensures At(s, 2) == su.clients
    ensures forall p :: 0 <= p < |s.procs| && Holds(s, p) ==> WarmedUp(su, s, p)
  {
    C.CountMonotone(Ranked(s.procs), 2, 6);
    forall p | 0 <= p < |s.procs| && Holds(s, p) ensures WarmedUp(su, s, p) {
      assert ProcessOk(su, s, p);
      HolderStarted(su, s, p);
    }
  }

  /** When the driver sets `should_measure`, and whenever that flag is up, exactly as many processes hold spots
      as it started clients, and every thread of each of them has completed an operation. */
  lemma MeasureIsSafe(su: Setup, m: nat, acts: seq<Action>)
    requires Run(su, m, acts).Some?
    requires DriverRank(Run(su, m, acts).value.driver) >= 3 || Flag(Run(su, m, acts).value.redis.shouldMeasure)
    ensures var s := Run(su, m, acts).value;
            && At(s, 2) == su.clients
            && forall p :: 0 <= p < |s.procs| && Holds(s, p) ==> WarmedUp(su, s, p)
  {
    RunInv(su, m, acts);
    StartedMeansWarm(su, Run(su, m, acts).value);
  }

  /** No thread of any process starts measuring before the driver has set `should_measure`, nor stops
      before it has set `should_report`. */
  lemma NoEarlyPhase(su: Setup, m: nat, acts: seq<Action>, p: nat, k: nat)
    requires Run(su, m, acts).Some?
    requires p < |Run(su, m, acts).value.procs| && k < |Run(su, m, acts).value.procs[p].proc.threads|
    ensures var s := Run(su, m, acts).value;
            var t := s.procs[p].proc.threads[k];
            && (DriverRank(s.driver) < 4 ==> Rank(t.pc) <= 3)
            && (DriverRank(s.driver) < 5 ==> Rank(t.pc) <= 4)
  {
    RunInv(su, m, acts);
    var s := Run(su, m, acts).value;
    assert ProcessOk(su, s, p);
    GatesHold(s.procs[p].proc, k);
  }

  /** Each flag is up exactly from the driver's command that sets it on. */
  lemma FlagsFollowDriver(su: Setup, m: nat, acts: seq<Action>)
    requires Run(su, m, acts).Some?
    ensures var s := Run(su, m, acts).value;
            && (Flag(s.redis.shouldMeasure) <==> DriverRank(s.driver) >= 4)
            && (Flag(s.redis.shouldReport) <==> DriverRank(s.driver) >= 5)
  {
    RunInv(su, m, acts);
  }

  /** Never more spots than clients, whatever is launched. */
  lemma SpotsAreLimited(su: Setup, m: nat, acts: seq<Action>)
    requires Run(su, m, acts).Some?
    ensures At(Run(su, m, acts).value, 2) <= su.clients
  {
    RunInv(su, m, acts);
  }

  /** When the driver's wait on `reported` has returned, the results hold one report of each process with
      a spot, and nothing else. */
  lemma ResultsComplete(su: Setup, m: nat, acts: seq<Action>)
    requires Run(su, m, acts).Some? && DriverRank(Run(su, m, acts).value.driver) >= 6
    ensures var s := Run(su, m, acts).value;
            && |s.log| == su.clients && U64s(Values(s.log))
            && s.redis.results == (if su.clients == 0 then None else Some(Joined(Values(s.log))))
            && (forall i, j :: 0 <= i < j < |s.log| ==> s.log[i].0 != s.log[j].0)
            && (forall i :: 0 <= i < |s.log| ==>
                  && s.log[i].0 < |s.procs| && Holds(s, s.log[i].0)
                  && TotalRate(s.procs[s.log[i].0].proc.threads) == Some(s.log[i].1))
  {
    RunInv(su, m, acts);
    var s := Run(su, m, acts).value;
    C.CountMonotone(Ranked(s.procs), 13, 14);
    C.CountMonotone(Ranked(s.procs), 2, 13);
  }

  /** What the driver prints: the sum of the throughputs of all processes with a spot, exactly when each
      is below 2^63; with no clients at all `get_throughput` fails. */
  lemma DriverTotal(su: Setup, m: nat, acts: seq<Action>)
    requires Run(su, m, acts).Some? && acts != [] && acts[|acts| - 1] == Read
    ensures var s := Run(su, m, acts).value;
            && s.driver.Finished?
            && (su.clients == 0 ==> s.driver.total == None)
            && (su.clients > 0 ==> U64s(Values(s.log)) && s.driver.total == Some(SumLongs(Values(s.log))))
            && (su.clients > 0 ==> (s.driver.total == Some(Sum(Values(s.log)) as int) <==>
                                    forall i :: 0 <= i < |s.log| ==> s.log[i].1 < 0x8000_0000_0000_0000))
  {
    var front := acts[..|acts| - 1];
    var s0, s := Run(su, m, front).value, Run(su, m, acts).value;
    ResultsComplete(su, m, front);
    assert s.log == s0.log && s.driver == Finished(GetThroughput(s0.redis.results));
    if su.clients > 0 {
      DriverReadsAll(Values(s.log));
      DriverTotalIff(Values(s.log));
    }
  }
}
