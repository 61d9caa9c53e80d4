/**
  The client and the sequential server joined by their two byte streams, with no failing call: neither
  ever waits for the other for good, and every operation ends after a bounded number of steps.
*/
module LockStep {
  import opened Wrappers
  import opened Bytes
  import opened EchoSpec
  import S = Sequential
  import C = ClientMachine

  datatype Pair = Pair(srv: S.State, cl: C.Client)

  /** What either side can do when nothing fails; a move carries at least one byte. */
  datatype Step = Server(se: S.Event) | Client(ce: C.Event)

  predicate Can(n: nat, p: Pair, st: Step)
    requires MsgSize(n)
  {
    match st
    case Server(e) => (e.Finish? || (e.Move? && e.k > 0)) && S.Can(n, p.srv, e)
    case Client(e) => (e.Finish? || (e.Move? && e.k > 0)) && C.Can(p.srv.out, p.cl, e)
  }

  /** What the client sends, the server can receive. */
  function Next(n: nat, p: Pair, st: Step): Pair
    requires MsgSize(n) && Can(n, p, st)
  {
    match st
    case Server(e) => p.(srv := S.Next(n, p.srv, e))
    case Client(e) =>
      Pair(S.Next(n, p.srv, S.Client(C.Outgoing(p.cl, e))), C.Next(p.srv.out, p.cl, e))
  }

  ghost predicate IsInit(p: Pair) {
    S.IsInit(p.srv) && C.IsInit(p.cl)
  }

  /** The last step of an operation. */
  predicate EndsOperation(p: Pair, st: Step) {
    st.Client? && st.ce.Finish? && p.cl.at == C.RecvMsg
  }

  ghost predicate Inv(n: nat, p: Pair)
    requires MsgSize(n)
  {
    && S.Inv(n, p.srv) && C.Inv(n, p.cl)
    && p.srv.inp == p.cl.sent && p.cl.got <= p.srv.out
    && p.srv.at != S.Returned && p.cl.at != C.Exited
    && (p.cl.at != C.SendHi ==> p.cl.hi == 2)
  }

  lemma InitInv(n: nat, p: Pair)
    requires MsgSize(n) && IsInit(p)
    ensures Inv(n, p)
  {
  }

  lemma NextInv(n: nat, p: Pair, st: Step)
    requires MsgSize(n) && Inv(n, p) && Can(n, p, st)
    ensures Inv(n, Next(n, p, st))
  {
    match st
    case Server(e) =>
      S.NextInv(n, p.srv, e);
      ServerGoesOn(n, p.srv, e);
    case Client(e) =>
      S.InvAllowed(n, p.srv);
      C.NextInv(n, p.cl, p.srv.out, e);
      S.NextInv(n, p.srv, S.Client(C.Outgoing(p.cl, e)));
      ClientGoesOn(n, p.srv.out, p.cl, e);
  }

  lemma ServerGoesOn(n: nat, s: S.State, e: S.Event)
    requires MsgSize(n) && (e.Finish? || e.Move?) && S.Can(n, s, e)
    ensures S.Next(n, s, e).at != S.Returned && S.Next(n, s, e).inp == s.inp
  {
  }

  lemma ClientGoesOn(n: nat, wire: seq<byte>, cl: C.Client, e: C.Event)
    requires MsgSize(n) && C.Inv(n, cl) && (e.Finish? || e.Move?) && C.Can(wire, cl, e)
    requires cl.at != C.SendHi ==> cl.hi == 2
    ensures C.Next(wire, cl, e).at != C.Exited
    ensures C.Next(wire, cl, e).at != C.SendHi ==> C.Next(wire, cl, e).hi == 2
  {
  }

  // ---------- no deadlock ----------

  /** Blocked in a receive with nothing to receive. */
  predicate ServerWaits(n: nat, s: S.State)
    requires MsgSize(n)
  {
    (s.at == S.RecvGreeting || s.at == S.RecvMsg) && s.done < S.Len(n, s.at) && s.taken == |s.inp|
  }

  predicate ClientWaits(n: nat, wire: seq<byte>, cl: C.Client) {
    && |cl.got| == |wire|
    && ((cl.at == C.RecvSize && cl.done < 4) || (cl.at == C.RecvMsg && cl.done < n))
  }

  lemma ServerSteps(n: nat, s: S.State) returns (e: S.Event)
    requires MsgSize(n) && S.Inv(n, s) && s.at != S.Returned && !ServerWaits(n, s)
    ensures (e.Finish? || (e.Move? && e.k > 0)) && S.Can(n, s, e)
  {
    e := if s.done == S.Len(n, s.at) then S.Finish else S.Move(1);
  }

  lemma ClientSteps(n: nat, wire: seq<byte>, cl: C.Client) returns (e: C.Event)
    requires MsgSize(n) && C.Inv(n, cl) && cl.at != C.Exited && cl.got <= wire && !ClientWaits(n, wire, cl)
    ensures (e.Finish? || (e.Move? && e.k > 0)) && C.Can(wire, cl, e)
  {
    NtohlHtonl(n);
    e := if cl.done == C.Len(cl) then C.Finish(seq(BUF_SIZE, _ => 0)) else C.Move(1);
  }

  lemma {:induction false} AlignedDifference(a: nat, b: nat, n: nat)
    requires n > 0 && Aligned(a, n) && Aligned(a + b, n) && b <= n
    ensures b == 0 || b == n
    decreases a
  {
    if a >= n { AlignedDifference(a - n, b, n); }
  }

  lemma NotBothWait(n: nat, p: Pair)
    requires MsgSize(n) && Inv(n, p) && ServerWaits(n, p.srv)
    ensures !ClientWaits(n, p.srv.out, p.cl)
  {
    if p.srv.at == S.RecvMsg && p.cl.at == C.RecvMsg && |p.cl.got| == |p.srv.out| {
      assert |p.srv.out| == 2 + |p.srv.inp| - p.srv.done;
      AlignedDifference(C.Base(p.cl), n - p.srv.done, n);
    }
  }

  /** In every state that is reached without a failing call, one of the two can go on. */
  lemma NoDeadlock(n: nat, p: Pair) returns (st: Step)
    requires MsgSize(n) && Inv(n, p)
    ensures Can(n, p, st)
  {
    if ServerWaits(n, p.srv) {
      NotBothWait(n, p);
      var e := ClientSteps(n, p.srv.out, p.cl);
      st := Client(e);
    } else {
      var e := ServerSteps(n, p.srv);
      st := Server(e);
    }
  }

  // ---------- every operation ends ----------

  /** Twice the bytes moved so far, plus one at the beginning of a call: every step adds to this. */
  function ServerProgress(s: S.State): nat {
    2 * (s.taken + |s.out|) + if s.done == 0 then 1 else 0
  }

  function ClientProgress(cl: C.Client): nat {
    2 * (|cl.sent| + |cl.got|) + if cl.done == 0 then 1 else 0
  }

  /** How many steps may be left of the operation in progress, or of the handshake and the first one. */
  function Left(n: nat, p: Pair): int {
    2 * (4 * C.Base(p.cl) + 4 * n + 12) + 2 - ServerProgress(p.srv) - ClientProgress(p.cl)
  }

  lemma LeftIsNat(n: nat, p: Pair)
    requires MsgSize(n) && Inv(n, p)
    ensures Left(n, p) >= 0
  {
    S.InvAllowed(n, p.srv);
    AllowedLength(n, p.srv.inp, C.Base(p.cl));
  }

  lemma LeftShrinks(n: nat, p: Pair, st: Step)
    requires MsgSize(n) && Inv(n, p) && Can(n, p, st) && !EndsOperation(p, st)
    ensures Left(n, Next(n, p, st)) < Left(n, p)
  {
    match st
    case Server(e) => ServerProgresses(n, p.srv, e);
    case Client(e) =>
      ClientProgresses(n, p.srv.out, p.cl, e);
      StepOfServer(n, p, e);
  }

  lemma ServerProgresses(n: nat, s: S.State, e: S.Event)
    requires MsgSize(n) && S.Inv(n, s) && S.Can(n, s, e) && (e.Finish? || (e.Move? && e.k > 0))
    ensures ServerProgress(S.Next(n, s, e)) > ServerProgress(s)
  {
  }

  lemma ClientProgresses(n: nat, wire: seq<byte>, cl: C.Client, e: C.Event)
    requires MsgSize(n) && C.Inv(n, cl) && C.Can(wire, cl, e) && (e.Finish? || (e.Move? && e.k > 0))
    requires !(e.Finish? && cl.at == C.RecvMsg) && cl.got <= wire
    ensures ClientProgress(C.Next(wire, cl, e)) > ClientProgress(cl)
    ensures C.Base(C.Next(wire, cl, e)) == C.Base(cl)
  {
    NtohlHtonl(n);
    if e.Move? { ClientMoves(n, wire, cl, e.k); }
  }

  lemma ClientMoves(n: nat, wire: seq<byte>, cl: C.Client, k: nat)
    requires MsgSize(n) && C.Inv(n, cl) && C.Can(wire, cl, C.Move(k)) && k > 0 && cl.got <= wire
    ensures var cl' := C.Next(wire, cl, C.Move(k));
            && |cl'.sent| + |cl'.got| == |cl.sent| + |cl.got| + k && cl'.done == cl.done + k
            && C.Base(cl') == C.Base(cl)
  {
  }

  lemma StepOfServer(n: nat, p: Pair, e: C.Event)
    requires MsgSize(n) && Can(n, p, Client(e))
    ensures ServerProgress(Next(n, p, Client(e)).srv) == ServerProgress(p.srv)
  {
  }

  /** A run of steps none of which ends an operation. */
  ghost predicate WithinOperation(n: nat, p: Pair, sts: seq<Step>)
    requires MsgSize(n)
    decreases sts
  {
    sts == [] || (Can(n, p, sts[0]) && !EndsOperation(p, sts[0]) && WithinOperation(n, Next(n, p, sts[0]), sts[1..]))
  }

  /** However the kernel schedules the two, they cannot go on for longer without ending the operation. */
  lemma {:induction false} OperationsAreBounded(n: nat, p: Pair, sts: seq<Step>)
    requires MsgSize(n) && Inv(n, p) && WithinOperation(n, p, sts)
    ensures |sts| <= Left(n, p)
    decreases sts
  {
    LeftIsNat(n, p);
    if sts != [] {
      LeftShrinks(n, p, sts[0]);
      NextInv(n, p, sts[0]);
      OperationsAreBounded(n, Next(n, p, sts[0]), sts[1..]);
    }
  }

  function Run(n: nat, p: Pair, sts: seq<Step>): (r: Option<Pair>)
    requires MsgSize(n)
    decreases sts
  {
    if sts == [] then Some(p)
    else if Can(n, p, sts[0]) then Run(n, Next(n, p, sts[0]), sts[1..])
    else None
  }

  lemma {:induction false} RunInv(n: nat, p: Pair, sts: seq<Step>)
    requires MsgSize(n) && Inv(n, p) && Run(n, p, sts).Some?
    ensures Inv(n, Run(n, p, sts).value)
    decreases sts
  {
    if sts != [] {
      NextInv(n, p, sts[0]);
      RunInv(n, Next(n, p, sts[0]), sts[1..]);
    }
  }

  /** After any run from the beginning, some continuation completes one more operation. */
  lemma {:induction false} OperationCanEnd(n: nat, p: Pair) returns (sts: seq<Step>, q: Pair)
    requires MsgSize(n) && Inv(n, p)
    ensures Run(n, p, sts) == Some(q) && Inv(n, q) && q.cl.ops == p.cl.ops + 1
    decreases Left(n, p) + 1
  {
    var st := NoDeadlock(n, p);
    var p' := Next(n, p, st);
    NextInv(n, p, st);
    LeftIsNat(n, p);
    LeftIsNat(n, p');
    OpsStay(n, p, st);
    if EndsOperation(p, st) {
      sts, q := [], p';
    } else {
      LeftShrinks(n, p, st);
      sts, q := OperationCanEnd(n, p');
    }
    RunCons(n, p, st, sts);
    sts := [st] + sts;
  }

  lemma RunCons(n: nat, p: Pair, st: Step, sts: seq<Step>)
    requires MsgSize(n) && Can(n, p, st)
    ensures Run(n, p, [st] + sts) == Run(n, Next(n, p, st), sts)
  {
    assert ([st] + sts)[1..] == sts;
  }

  lemma OpsStay(n: nat, p: Pair, st: Step)
    requires MsgSize(n) && Can(n, p, st) && Inv(n, p)
    ensures Next(n, p, st).cl.ops == p.cl.ops + if EndsOperation(p, st) then 1 else 0
  {
  }

  /** From the beginning, whatever has happened: someone can go on, the operation in progress ends after at
      most `Left` more steps and can be completed, and a completed receive has brought back the message that
      was sent. */
  lemma NeverStuck(n: nat, p: Pair, sts: seq<Step>)
    requires MsgSize(n) && IsInit(p) && Run(n, p, sts).Some?
    ensures var q := Run(n, p, sts).value;
            && (exists st :: Can(n, q, st))
            && (forall more :: WithinOperation(n, q, more) ==> |more| <= Left(n, q))
            && (exists more :: Run(n, q, more).Some? && Run(n, q, more).value.cl.ops == q.cl.ops + 1)
            && C.EchoIsRight(n, q.cl)
  {
    InitInv(n, p);
    RunInv(n, p, sts);
    var q := Run(n, p, sts).value;
    var st := NoDeadlock(n, q);
    var rest, r := OperationCanEnd(n, q);
    forall more | WithinOperation(n, q, more) ensures |more| <= Left(n, q) {
      OperationsAreBounded(n, q, more);
    }
    C.InvEchoIsRight(n, q.cl);
  }
}
