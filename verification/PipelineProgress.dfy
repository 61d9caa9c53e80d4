/**
  The client joined to uring2.c: while a message is sent back the next one is already being received, and the
  kernel interleaves the two as it likes. With no failing call neither side ever waits for good, and every
  operation ends after a bounded number of steps.
*/
module PipelineProgress {
  import opened Wrappers
  import opened Bytes
  import opened EchoSpec
  import S = Sequential
  import C = ClientMachine
  import L = LockStep
  import P = Pipeline
  import Sockets

  // ---------- the server ----------

  datatype At = SendHeader | RecvGreeting | RecvFirst | Round

  /** `done` is what the call in progress has moved, in a round the send; `e` what the round's receive has.
      `inp` is all the client has sent, `taken` the part of it received, `out` all that was sent back. */
  datatype State = State(
    at: At, done: nat, e: nat, sendBuf: seq<byte>, recvBuf: seq<byte>, inp: seq<byte>, taken: nat, out: seq<byte>)

  datatype Event =
    | Move(k: nat)      // k more bytes for the call in progress, in a round for the send
    | Receive(k: nat)   // k more bytes for the receive of a round
    | Finish            // the call is complete; of a round, both requests are, and the buffer is copied

  function Len(n: nat, at: At): nat {
    match at
    case SendHeader => 4
    case RecvGreeting => 2
    case _ => n
  }

  predicate CanServe(n: nat, s: State, e: Event)
    requires MsgSize(n)
  {
    match e
    case Move(k) =>
      && s.done + k <= Len(n, s.at)
      && (s.at == Round ==> n <= |s.sendBuf|)
      && (s.at == RecvGreeting ==> s.taken + k <= |s.inp| && s.done + k <= |s.recvBuf|)
      && (s.at == RecvFirst ==> s.taken + k <= |s.inp| && s.done + k <= |s.sendBuf|)
    case Receive(k) => s.at == Round && s.e + k <= n <= |s.recvBuf| && s.taken + k <= |s.inp|
    case Finish => s.done == Len(n, s.at) && (s.at == Round ==> s.e == n && n <= |s.sendBuf| && n <= |s.recvBuf|)
  }

  function Serve(n: nat, s: State, e: Event): State
    requires MsgSize(n) && CanServe(n, s, e)
  {
    match e
    case Move(k) =>
      if s.at == SendHeader then s.(done := s.done + k, out := s.out + Header(n)[s.done..s.done + k])
      else if s.at == Round then s.(done := s.done + k, out := s.out + s.sendBuf[s.done..s.done + k])
      else
        var data := s.inp[s.taken..s.taken + k];
        if s.at == RecvGreeting then
          s.(done := s.done + k, taken := s.taken + k, recvBuf := Patch(s.recvBuf, s.done, data))
        else
          s.(done := s.done + k, taken := s.taken + k, sendBuf := Patch(s.sendBuf, s.done, data))
    case Receive(k) =>
      s.(e := s.e + k, taken := s.taken + k, recvBuf := Patch(s.recvBuf, s.e, s.inp[s.taken..s.taken + k]))
    case Finish =>
      if s.at == SendHeader then s.(at := RecvGreeting, done := 0)
      else if s.at == RecvGreeting then s.(at := RecvFirst, done := 0)
      else if s.at == RecvFirst then s.(at := Round, done := 0)
      else s.(done := 0, e := 0, sendBuf := Patch(s.sendBuf, 0, s.recvBuf[..n]))
  }

  ghost predicate ServerInit(s: State) {
    && s.at == SendHeader && s.done == 0 && s.e == 0 && |s.sendBuf| == |s.recvBuf| == BUF_SIZE
    && s.inp == [] && s.taken == 0 && s.out == []
  }

  /** Payload bytes before the message that a round sends. */
  function RoundBase(n: nat, s: State): int {
    s.taken - 2 - n - s.e
  }

  ghost predicate ServerInv(n: nat, s: State)
    requires MsgSize(n)
  {
    && |s.sendBuf| == |s.recvBuf| == BUF_SIZE && s.taken <= |s.inp|
    && s.done <= Len(n, s.at) && s.e <= n && (s.at != Round ==> s.e == 0)
    && match s.at
       case SendHeader => s.taken == 0 && s.out == Header(n)[..s.done]
       case RecvGreeting => s.taken == s.done && s.out == Header(n)
       case RecvFirst => s.taken == 2 + s.done && s.out == Header(n) && s.sendBuf[..s.done] == s.inp[2..s.taken]
       case Round => InRound(n, s)
  }

  ghost predicate InRound(n: nat, s: State)
    requires MsgSize(n) && |s.sendBuf| == |s.recvBuf| == BUF_SIZE && s.taken <= |s.inp| && s.e <= n && s.done <= n
  {
    var base := RoundBase(n, s);
    && Aligned(base, n)
    && s.out == Header(n) + s.inp[2..2 + base + s.done]
    && s.sendBuf[..n] == s.inp[2 + base..2 + base + n]
    && s.recvBuf[..s.e] == s.inp[2 + base + n..s.taken]
  }

  lemma ServerAllowed(n: nat, s: State)
    requires MsgSize(n) && ServerInv(n, s)
    ensures s.out <= Allowed(n, s.inp)
  {
    if s.at == Round {
      S.EchoedIsAllowed(n, s.inp, RoundBase(n, s), s.done, s.out);
    } else {
      assert Allowed(n, s.inp)[..|s.out|] == s.out;
    }
  }

  lemma MoreFromClient(n: nat, s: State, bytes: seq<byte>)
    requires MsgSize(n) && ServerInv(n, s)
    ensures ServerInv(n, s.(inp := s.inp + bytes))
  {
    if s.at == RecvFirst {
      SliceOfPrefix(s.inp, bytes, 2, s.taken);
    } else if s.at == Round {
      MoreInRound(n, s, bytes);
    }
  }

  lemma MoreInRound(n: nat, s: State, bytes: seq<byte>)
    requires MsgSize(n) && ServerInv(n, s) && s.at == Round
    ensures InRound(n, s.(inp := s.inp + bytes))
  {
    var base := RoundBase(n, s);
    SliceOfPrefix(s.inp, bytes, 2, 2 + base + s.done);
    SliceOfPrefix(s.inp, bytes, 2 + base, 2 + base + n);
    SliceOfPrefix(s.inp, bytes, 2 + base + n, s.taken);
  }

  lemma MoveKeeps(n: nat, s: State, k: nat)
    requires MsgSize(n) && ServerInv(n, s) && CanServe(n, s, Move(k))
    ensures ServerInv(n, Serve(n, s, Move(k)))
  {
    if s.at == Round {
      SendKeeps(n, s, k);
    } else if s.at == RecvFirst {
      S.TakenMore(s.inp, s.sendBuf, s.taken, s.done, k);
    }
  }

  lemma SendKeeps(n: nat, s: State, k: nat)
    requires MsgSize(n) && ServerInv(n, s) && s.at == Round && CanServe(n, s, Move(k))
    ensures ServerInv(n, Serve(n, s, Move(k)))
  {
    var out := s.out + s.sendBuf[s.done..s.done + k];
    S.SentMore(n, s.inp, s.sendBuf, s.out, 2 + RoundBase(n, s), s.done, k);
    RoundSends(n, s, k, out);
    assert Serve(n, s, Move(k)) == s.(done := s.done + k, out := out);
  }

  lemma RoundSends(n: nat, s: State, k: nat, out: seq<byte>)
    requires MsgSize(n) && ServerInv(n, s) && s.at == Round && s.done + k <= n
    requires out == Header(n) + s.inp[2..2 + RoundBase(n, s) + s.done + k]
    ensures ServerInv(n, s.(done := s.done + k, out := out))
  {
  }

  lemma ReceiveKeeps(n: nat, s: State, k: nat)
    requires MsgSize(n) && ServerInv(n, s) && CanServe(n, s, Receive(k))
    ensures ServerInv(n, Serve(n, s, Receive(k)))
  {
    var buf := Patch(s.recvBuf, s.e, s.inp[s.taken..s.taken + k]);
    S.TakenMore(s.inp, s.recvBuf, s.taken, s.e, k);
    RoundReceives(n, s, k, buf);
    ReceiveIs(n, s, k, buf);
  }

  lemma ReceiveIs(n: nat, s: State, k: nat, buf: seq<byte>)
    requires MsgSize(n) && CanServe(n, s, Receive(k)) && buf == Patch(s.recvBuf, s.e, s.inp[s.taken..s.taken + k])
    ensures Serve(n, s, Receive(k)) == s.(e := s.e + k, taken := s.taken + k, recvBuf := buf)
  {
  }

  lemma RoundReceives(n: nat, s: State, k: nat, buf: seq<byte>)
    requires MsgSize(n) && ServerInv(n, s) && s.at == Round && s.e + k <= n && s.taken + k <= |s.inp|
    requires |buf| == BUF_SIZE && buf[..s.e + k] == s.inp[s.taken - s.e..s.taken + k]
    ensures ServerInv(n, s.(e := s.e + k, taken := s.taken + k, recvBuf := buf))
  {
  }

  lemma FinishKeeps(n: nat, s: State)
    requires MsgSize(n) && ServerInv(n, s) && CanServe(n, s, Finish)
    ensures ServerInv(n, Serve(n, s, Finish))
  {
    if s.at == Round {
      AlignedNext(RoundBase(n, s), n);
      PatchExtends(s.sendBuf, 0, s.recvBuf[..n]);
    }
  }

  lemma ServeKeeps(n: nat, s: State, e: Event)
    requires MsgSize(n) && ServerInv(n, s) && CanServe(n, s, e)
    ensures ServerInv(n, Serve(n, s, e))
    ensures Serve(n, s, e).inp == s.inp && s.out <= Serve(n, s, e).out
  {
    match e
    case Move(k) => MoveKeeps(n, s, k);
    case Receive(k) => ReceiveKeeps(n, s, k);
    case Finish => FinishKeeps(n, s);
  }

  // ---------- a round is a round of the program ----------

  /** The kernel's moves of a round, each as far as it can go. */
  function Play(n: nat, s: State, moves: seq<P.Move>): (r: Option<State>)
    requires MsgSize(n)
    decreases moves
  {
    if moves == [] then Some(s)
    else
      var s1 := Play(n, s, moves[..|moves| - 1]);
      if s1.None? || s1.value.done > n || s1.value.e > n || s1.value.taken > |s1.value.inp| then None
      else
        var e := EventOf(n, s1.value, moves[|moves| - 1]);
        if CanServe(n, s1.value, e) then Some(Serve(n, s1.value, e)) else None
  }

  function EventOf(n: nat, s: State, m: P.Move): Event
    requires s.done <= n && s.e <= n && s.taken <= |s.inp|
  {
    match m
    case SendMoves(k) => Move(Sockets.Min(k, n - s.done))
    case RecvMoves(k) => Receive(Sockets.Min(Sockets.Min(k, n - s.e), |s.inp| - s.taken))
  }

  /** In a round, `d` bytes of the message sent and `e` of the next received, `there` being all of it so far. */
  ghost predicate InRoundOf(n: nat, s: State, t: State, d: nat, e: nat)
    requires MsgSize(n)
  {
    && ServerInv(n, t) && t.at == Round && t.done == d && t.e == e
    && t.inp == s.inp && t.taken == s.taken + e
  }

  lemma PlayOne(n: nat, s: State, t: State, m: P.Move)
    requires MsgSize(n) && InRoundOf(n, s, t, t.done, t.e) && s.taken <= |s.inp|
    ensures CanServe(n, t, EventOf(n, t, m))
    ensures InRoundOf(n, s, Serve(n, t, EventOf(n, t, m)),
                if m.SendMoves? then Sockets.Min(t.done + m.k, n) else t.done,
                if m.RecvMoves? then Sockets.Min(Sockets.Min(t.e + m.k, n), |s.inp| - s.taken) else t.e)
  {
    PlayCan(n, t, m);
    ServeKeeps(n, t, EventOf(n, t, m));
    match m
    case SendMoves(k) => assert t.done + Sockets.Min(k, n - t.done) == Sockets.Min(t.done + k, n);
    case RecvMoves(k) => assert |t.inp| - t.taken == |s.inp| - s.taken - t.e;
  }

  lemma PlayCan(n: nat, t: State, m: P.Move)
    requires MsgSize(n) && ServerInv(n, t) && t.at == Round
    ensures CanServe(n, t, EventOf(n, t, m))
  {
  }

  /** From the beginning of a round, the moves of `Pipeline.OneRound` lead where that method says. */
  lemma {:induction false} PlayIs(n: nat, s: State, moves: seq<P.Move>)
    requires MsgSize(n) && ServerInv(n, s) && s.at == Round && s.done == 0 && s.e == 0
    ensures Play(n, s, moves).Some?
    ensures InRoundOf(n, s, Play(n, s, moves).value, P.SentBy(n, moves), P.GotBy(n, |s.inp| - s.taken, moves))
    decreases moves
  {
    if moves != [] {
      PlayIs(n, s, moves[..|moves| - 1]);
      PlayOne(n, s, Play(n, s, moves[..|moves| - 1]).value, moves[|moves| - 1]);
    }
  }

  /** And the round can then finish exactly when it is a good one and the next message is there. */
  lemma RoundsAgree(n: nat, s: State, moves: seq<P.Move>)
    requires MsgSize(n) && ServerInv(n, s) && s.at == Round && s.done == 0 && s.e == 0
    ensures Play(n, s, moves).Some?
    ensures InRoundOf(n, s, Play(n, s, moves).value, P.SentBy(n, moves), P.GotBy(n, |s.inp| - s.taken, moves))
    ensures CanServe(n, Play(n, s, moves).value, Finish) <==>
            P.GoodRound(n, P.Round(moves, false, false, true)) && |s.inp| - s.taken >= n
  {
    PlayIs(n, s, moves);
    RoundEnds(n, s, Play(n, s, moves).value, moves);
  }

  lemma RoundEnds(n: nat, s: State, t: State, moves: seq<P.Move>)
    requires MsgSize(n) && s.taken <= |s.inp|
    requires InRoundOf(n, s, t, P.SentBy(n, moves), P.GotBy(n, |s.inp| - s.taken, moves))
    ensures CanServe(n, t, Finish) <==>
            P.GoodRound(n, P.Round(moves, false, false, true)) && |s.inp| - s.taken >= n
  {
    GoodIff(n, |s.inp| - s.taken, moves);
    FinishNeeds(n, t);
  }

  lemma FinishNeeds(n: nat, t: State)
    requires MsgSize(n) && ServerInv(n, t) && t.at == Round
    ensures CanServe(n, t, Finish) <==> t.done == n && t.e == n
  {
  }

  lemma GoodIff(n: nat, there: nat, moves: seq<P.Move>)
    ensures P.SentBy(n, moves) == n && P.GotBy(n, there, moves) == n <==>
            P.GoodRound(n, P.Round(moves, false, false, true)) && there >= n
  {
    P.GotIfThere(n, there, moves);
  }

  // ---------- joined to the client ----------

  datatype Pair = Pair(srv: State, cl: C.Client)

  datatype Step = Server(se: Event) | Client(ce: C.Event)

  predicate Can(n: nat, p: Pair, st: Step)
    requires MsgSize(n)
  {
    match st
    case Server(e) => (e.Move? ==> e.k > 0) && (e.Receive? ==> e.k > 0) && CanServe(n, p.srv, e)
    case Client(e) => (e.Finish? || (e.Move? && e.k > 0)) && C.Can(p.srv.out, p.cl, e)
  }

  function Next(n: nat, p: Pair, st: Step): Pair
    requires MsgSize(n) && Can(n, p, st)
  {
    match st
    case Server(e) => p.(srv := Serve(n, p.srv, e))
    case Client(e) => Pair(p.srv.(inp := p.srv.inp + C.Outgoing(p.cl, e)), C.Next(p.srv.out, p.cl, e))
  }

  ghost predicate IsInit(p: Pair) {
    ServerInit(p.srv) && C.IsInit(p.cl)
  }

  predicate EndsOperation(p: Pair, st: Step) {
    st.Client? && st.ce.Finish? && p.cl.at == C.RecvMsg
  }

  ghost predicate Inv(n: nat, p: Pair)
    requires MsgSize(n)
  {
    && ServerInv(n, p.srv) && C.Inv(n, p.cl)
    && p.srv.inp == p.cl.sent && p.cl.got <= p.srv.out
    && p.cl.at != C.Exited && (p.cl.at != C.SendHi ==> p.cl.hi == 2)
  }

  lemma InitInv(n: nat, p: Pair)
    requires MsgSize(n) && IsInit(p)
    ensures Inv(n, p)
  {
  }

  lemma NextInv(n: nat, p: Pair, st: Step)
    requires MsgSize(n) && Inv(n, p) && Can(n, p, st)
    ensures Inv(n, Next(n, p, st))
  {
    match st
    case Server(e) => ServeKeeps(n, p.srv, e);
    case Client(e) =>
      ServerAllowed(n, p.srv);
      C.NextInv(n, p.cl, p.srv.out, e);
      MoreFromClient(n, p.srv, C.Outgoing(p.cl, e));
      L.ClientGoesOn(n, p.srv.out, p.cl, e);
  }

  // ---------- no deadlock ----------

  /** Nothing to receive, and nothing left to send. */
  predicate ServerWaits(n: nat, s: State)
    requires MsgSize(n)
  {
    && s.taken == |s.inp|
    && (((s.at == RecvGreeting || s.at == RecvFirst) && s.done < Len(n, s.at))
        || (s.at == Round && s.done == n && s.e < n))
  }

  lemma ServerSteps(n: nat, s: State) returns (e: Event)
    requires MsgSize(n) && ServerInv(n, s) && !ServerWaits(n, s)
    ensures (e.Move? ==> e.k > 0) && (e.Receive? ==> e.k > 0) && CanServe(n, s, e)
  {
    e := if s.done < Len(n, s.at) then Move(1) else if s.at == Round && s.e < n then Receive(1) else Finish;
  }

  lemma NotBothWait(n: nat, p: Pair)
    requires MsgSize(n) && Inv(n, p) && ServerWaits(n, p.srv)
    ensures !L.ClientWaits(n, p.srv.out, p.cl)
  {
    if p.srv.at == Round && p.cl.at == C.RecvMsg && |p.cl.got| == |p.srv.out| {
      assert |p.srv.out| == 4 + RoundBase(n, p.srv) + n;
      L.AlignedDifference(RoundBase(n, p.srv), p.srv.e, n);
    }
  }

  lemma NoDeadlock(n: nat, p: Pair) returns (st: Step)
    requires MsgSize(n) && Inv(n, p)
    ensures Can(n, p, st)
  {
    if ServerWaits(n, p.srv) {
      NotBothWait(n, p);
      var e := L.ClientSteps(n, p.srv.out, p.cl);
      st := Client(e);
    } else {
      var e := ServerSteps(n, p.srv);
      st := Server(e);
    }
  }

  // ---------- every operation ends ----------

  function ServerProgress(s: State): nat {
    2 * (s.taken + |s.out|) + if s.done == 0 then 1 else 0
  }

  /** How many steps may be left of the operation in progress. */
  function Left(n: nat, p: Pair): int {
    2 * (4 * C.Base(p.cl) + 4 * n + 12) + 2 - ServerProgress(p.srv) - L.ClientProgress(p.cl)
  }

  lemma LeftIsNat(n: nat, p: Pair)
    requires MsgSize(n) && Inv(n, p)
    ensures Left(n, p) >= 0
  {
    ServerAllowed(n, p.srv);
    AllowedLength(n, p.srv.inp, C.Base(p.cl));
  }

  lemma ServerProgresses(n: nat, s: State, e: Event)
    requires MsgSize(n) && ServerInv(n, s) && CanServe(n, s, e)
    requires (e.Move? ==> e.k > 0) && (e.Receive? ==> e.k > 0)
    ensures ServerProgress(Serve(n, s, e)) > ServerProgress(s)
  {
  }

  lemma LeftShrinks(n: nat, p: Pair, st: Step)
    requires MsgSize(n) && Inv(n, p) && Can(n, p, st) && !EndsOperation(p, st)
    ensures Left(n, Next(n, p, st)) < Left(n, p)
  {
    match st
    case Server(e) => ServerProgresses(n, p.srv, e);
    case Client(e) => L.ClientProgresses(n, p.srv.out, p.cl, e);
  }

  ghost predicate WithinOperation(n: nat, p: Pair, sts: seq<Step>)
    requires MsgSize(n)
    decreases sts
  {
    sts == [] || (Can(n, p, sts[0]) && !EndsOperation(p, sts[0]) && WithinOperation(n, Next(n, p, sts[0]), sts[1..]))
  }

  lemma {:induction false} OperationsAreBounded(n: nat, p: Pair, sts: seq<Step>)
    requires MsgSize(n) && Inv(n, p) && WithinOperation(n, p, sts)
    ensures |sts| <= Left(n, p)
    decreases sts
  {
    LeftIsNat(n, p);
    if sts != [] {
      LeftShrinks(n, p, sts[0]);
      NextInv(n, p, sts[0]);
      OperationsAreBounded(n, Next(n, p, sts[0]), sts[1..]);
    }
  }

  function Run(n: nat, p: Pair, sts: seq<Step>): Option<Pair>
    requires MsgSize(n)
    decreases sts
  {
    if sts == [] then Some(p)
    else if Can(n, p, sts[0]) then Run(n, Next(n, p, sts[0]), sts[1..])
    else None
  }

  lemma {:induction false} RunInv(n: nat, p: Pair, sts: seq<Step>)
    requires MsgSize(n) && Inv(n, p) && Run(n, p, sts).Some?
    ensures Inv(n, Run(n, p, sts).value)
    decreases sts
  {
    if sts != [] {
      NextInv(n, p, sts[0]);
      RunInv(n, Next(n, p, sts[0]), sts[1..]);
    }
  }

  lemma OpsStay(n: nat, p: Pair, st: Step)
    requires MsgSize(n) && Can(n, p, st) && Inv(n, p)
    ensures Next(n, p, st).cl.ops == p.cl.ops + if EndsOperation(p, st) then 1 else 0
  {
  }

  lemma {:induction false} OperationCanEnd(n: nat, p: Pair) returns (sts: seq<Step>, q: Pair)
    requires MsgSize(n) && Inv(n, p)
    ensures Run(n, p, sts) == Some(q) && Inv(n, q) && q.cl.ops == p.cl.ops + 1
    decreases Left(n, p) + 1
  {
    var st := NoDeadlock(n, p);
    var p' := Next(n, p, st);
    NextInv(n, p, st);
    LeftIsNat(n, p);
    LeftIsNat(n, p');
    OpsStay(n, p, st);
    var rest;
    if EndsOperation(p, st) {
      rest, q := [], p';
    } else {
      LeftShrinks(n, p, st);
      rest, q := OperationCanEnd(n, p');
    }
    sts := [st] + rest;
    assert sts[1..] == rest;
  }

  /** From the beginning, whatever has happened and however the kernel interleaves the rounds: someone can go
      on, the operation in progress ends after at most `Left` more steps and can be completed, and a completed
      receive has brought back the message that was sent. */
  lemma NeverStuck(n: nat, p: Pair, sts: seq<Step>)
    requires MsgSize(n) && IsInit(p) && Run(n, p, sts).Some?
    ensures var q := Run(n, p, sts).value;
            && (exists st :: Can(n, q, st))
            && (forall more :: WithinOperation(n, q, more) ==> |more| <= Left(n, q))
            && (exists more :: Run(n, q, more).Some? && Run(n, q, more).value.cl.ops == q.cl.ops + 1)
            && C.EchoIsRight(n, q.cl)
  {
    InitInv(n, p);
    RunInv(n, p, sts);
    var q := Run(n, p, sts).value;
    var st := NoDeadlock(n, q);
    var rest, r := OperationCanEnd(n, q);
    forall more | WithinOperation(n, q, more) ensures |more| <= Left(n, q) {
      OperationsAreBounded(n, q, more);
    }
    C.InvEchoIsRight(n, q.cl);
  }
}
