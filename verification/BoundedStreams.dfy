/**
  The client and the sequential server of `LockStep` over streams that hold only so many bytes: `a` on the
  way to the server and `b` on the way to the client. Both sides begin by sending, so the handshake can
  deadlock; this module says exactly when.
*/
module BoundedStreams {
  import opened Wrappers
  import opened Bytes
  import opened EchoSpec
  import S = Sequential
  import C = ClientMachine
  import opened LockStep

  /** A send moves no more bytes than the stream has room for. */
  predicate CanWithin(n: nat, a: nat, b: nat, p: Pair, st: Step)
    requires MsgSize(n)
  {
    && Can(n, p, st)
    && match st
       case Server(e) => e.Move? && (p.srv.at == S.SendHeader || p.srv.at == S.SendMsg) ==>
                           |p.srv.out| + e.k <= |p.cl.got| + b
       case Client(e) => e.Move? && (p.cl.at == C.SendHi || p.cl.at == C.SendMsg) ==>
                           |p.cl.sent| + e.k <= p.srv.taken + a
  }

  function RunWithin(n: nat, a: nat, b: nat, p: Pair, sts: seq<Step>): Option<Pair>
    requires MsgSize(n)
    decreases sts
  {
    if sts == [] then Some(p)
    else if CanWithin(n, a, b, p, sts[0]) then RunWithin(n, a, b, Next(n, p, sts[0]), sts[1..])
    else None
  }

  lemma {:induction false} RunWithinInv(n: nat, a: nat, b: nat, p: Pair, sts: seq<Step>)
    requires MsgSize(n) && Inv(n, p) && RunWithin(n, a, b, p, sts).Some?
    ensures Inv(n, RunWithin(n, a, b, p, sts).value)
    decreases sts
  {
    if sts != [] {
      NextInv(n, p, sts[0]);
      RunWithinInv(n, a, b, Next(n, p, sts[0]), sts[1..]);
    }
  }

  // ---------- enough room ----------

  /** One byte each way, and room for one of the two first sends: "Hi", or the size. */
  predicate Enough(a: nat, b: nat) {
    a >= 1 && b >= 1 && (a >= 2 || b >= 4)
  }

  predicate ServerFull(n: nat, b: nat, p: Pair)
    requires MsgSize(n)
  {
    && (p.srv.at == S.SendHeader || p.srv.at == S.SendMsg) && p.srv.done < S.Len(n, p.srv.at)
    && |p.srv.out| >= |p.cl.got| + b
  }

  predicate ClientFull(n: nat, a: nat, p: Pair) {
    && ((p.cl.at == C.SendHi && p.cl.done < 2) || (p.cl.at == C.SendMsg && p.cl.done < n))
    && |p.cl.sent| >= p.srv.taken + a
  }

  lemma ServerGoesOnWithin(n: nat, a: nat, b: nat, p: Pair) returns (st: Step)
    requires MsgSize(n) && Inv(n, p) && !ServerWaits(n, p.srv) && !ServerFull(n, b, p)
    ensures CanWithin(n, a, b, p, st)
  {
    var e := ServerSteps(n, p.srv);
    st := Server(if p.srv.done == S.Len(n, p.srv.at) then S.Finish else S.Move(1));
  }

  lemma ClientGoesOnWithin(n: nat, a: nat, b: nat, p: Pair) returns (st: Step)
    requires MsgSize(n) && Inv(n, p) && !ClientWaits(n, p.srv.out, p.cl) && !ClientFull(n, a, p)
    ensures CanWithin(n, a, b, p, st)
  {
    NtohlHtonl(n);
    st := Client(if p.cl.done == C.Len(p.cl) then C.Finish(seq(BUF_SIZE, _ => 0)) else C.Move(1));
  }

  /** In the middle of a message that it sends, the client has got every echo before it, and the server is
      not in the middle of one. */
  lemma NotBothSend(n: nat, p: Pair)
    requires MsgSize(n) && Inv(n, p) && p.srv.at == S.SendMsg && p.cl.at == C.SendMsg
    ensures p.srv.done == n || p.cl.done == n
  {
    var bs, bc := p.srv.taken - 2 - n, C.Base(p.cl);
    AlignedNext(bs, n);
    if bc < bs + n {
      WholeNext(bc, bs + n, n);
    }
  }

  lemma NotBothFull(n: nat, a: nat, b: nat, p: Pair)
    requires MsgSize(n) && Inv(n, p) && Enough(a, b) && ServerFull(n, b, p)
    ensures !ClientFull(n, a, p)
  {
    if p.srv.at == S.SendMsg && p.cl.at == C.SendMsg {
      NotBothSend(n, p);
    }
  }

  lemma NoDeadlockWithin(n: nat, a: nat, b: nat, p: Pair) returns (st: Step)
    requires MsgSize(n) && Inv(n, p) && Enough(a, b)
    ensures CanWithin(n, a, b, p, st)
  {
    if !ServerWaits(n, p.srv) && !ServerFull(n, b, p) {
      st := ServerGoesOnWithin(n, a, b, p);
    } else {
      if ServerWaits(n, p.srv) {
        NotBothWait(n, p);
      } else {
        NotBothFull(n, a, b, p);
      }
      st := ClientGoesOnWithin(n, a, b, p);
    }
  }

  // ---------- too little room ----------

  ghost predicate Stuck(n: nat, a: nat, b: nat, p: Pair)
    requires MsgSize(n)
  {
    forall st :: !CanWithin(n, a, b, p, st)
  }

  function Begin(): (p: Pair)
    ensures IsInit(p)
  {
    Pair(S.State(S.SendHeader, 0, seq(BUF_SIZE, _ => 0), [], 0, []),
         C.Client(C.SendHi, 0, [0, 0, 0, 0], seq(BUF_SIZE, _ => 0), 0, [], [], 0))
  }

  lemma One(n: nat, a: nat, b: nat, p: Pair, s: Step)
    requires MsgSize(n) && CanWithin(n, a, b, p, s)
    ensures RunWithin(n, a, b, p, [s]) == Some(Next(n, p, s))
  {
    assert [s][1..] == [];
    assert RunWithin(n, a, b, Next(n, p, s), []) == Some(Next(n, p, s));
  }

  lemma Two(n: nat, a: nat, b: nat, p: Pair, s: Step, s': Step)
    requires MsgSize(n) && CanWithin(n, a, b, p, s) && CanWithin(n, a, b, Next(n, p, s), s')
    ensures RunWithin(n, a, b, p, [s, s']) == Some(Next(n, Next(n, p, s), s'))
  {
    One(n, a, b, Next(n, p, s), s');
    assert [s, s'][1..] == [s'];
  }

  /** Nothing gets to the server. */
  lemma NoWayToServer(n: nat, b: nat) returns (sts: seq<Step>)
    requires MsgSize(n)
    ensures RunWithin(n, 0, b, Begin(), sts).Some? && Stuck(n, 0, b, RunWithin(n, 0, b, Begin(), sts).value)
  {
    var p := Begin();
    if b == 0 {
      sts := [];
    } else if b < 4 {
      sts := [Server(S.Move(b))];
      One(n, 0, b, p, sts[0]);
    } else {
      sts := [Server(S.Move(4)), Server(S.Finish)];
      Two(n, 0, b, p, sts[0], sts[1]);
    }
  }

  /** Nothing gets to the client. */
  lemma NoWayToClient(n: nat, a: nat) returns (sts: seq<Step>)
    requires MsgSize(n) && a > 0
    ensures RunWithin(n, a, 0, Begin(), sts).Some? && Stuck(n, a, 0, RunWithin(n, a, 0, Begin(), sts).value)
  {
    var p := Begin();
    if a == 1 {
      sts := [Client(C.Move(1))];
      One(n, a, 0, p, sts[0]);
    } else {
      sts := [Client(C.Move(2)), Client(C.Finish(seq(BUF_SIZE, _ => 0)))];
      Two(n, a, 0, p, sts[0], sts[1]);
    }
  }

  /** Both are in the middle of what they send first, and both streams are full. */
  lemma BothInTheMiddle(n: nat, b: nat) returns (sts: seq<Step>)
    requires MsgSize(n) && 1 <= b < 4
    ensures RunWithin(n, 1, b, Begin(), sts).Some? && Stuck(n, 1, b, RunWithin(n, 1, b, Begin(), sts).value)
  {
    var p := Begin();
    sts := [Client(C.Move(1)), Server(S.Move(b))];
    Two(n, 1, b, p, sts[0], sts[1]);
  }

  /** Every run without a failing call can go on exactly when there is room for a byte each way and for the
      whole of one of the two first sends. */
  lemma NoDeadlockIff(n: nat, a: nat, b: nat)
    requires MsgSize(n)
    ensures (forall p, sts :: IsInit(p) && RunWithin(n, a, b, p, sts).Some? ==>
               exists st :: CanWithin(n, a, b, RunWithin(n, a, b, p, sts).value, st))
            <==> Enough(a, b)
  {
    if Enough(a, b) {
      forall p, sts | IsInit(p) && RunWithin(n, a, b, p, sts).Some?
        ensures exists st :: CanWithin(n, a, b, RunWithin(n, a, b, p, sts).value, st)
      {
        InitInv(n, p);
        RunWithinInv(n, a, b, p, sts);
        var st := NoDeadlockWithin(n, a, b, RunWithin(n, a, b, p, sts).value);
      }
    } else {
      var sts: seq<Step>;
      if a == 0 {
        sts := NoWayToServer(n, b);
      } else if b == 0 {
        sts := NoWayToClient(n, a);
      } else {
        sts := BothInTheMiddle(n, b);
      }
    }
  }

  /** And then operations are completed, within the same bound as over unbounded streams. */
  lemma {:induction false} OperationCanEndWithin(n: nat, a: nat, b: nat, p: Pair) returns (sts: seq<Step>, q: Pair)
    requires MsgSize(n) && Inv(n, p) && Enough(a, b)
    ensures RunWithin(n, a, b, p, sts) == Some(q) && Inv(n, q) && q.cl.ops == p.cl.ops + 1
    ensures |sts| <= Left(n, p) + 1
    decreases Left(n, p) + 1
  {
    var st := NoDeadlockWithin(n, a, b, p);
    var p' := Next(n, p, st);
    NextInv(n, p, st);
    LeftIsNat(n, p);
    LeftIsNat(n, p');
    OpsStay(n, p, st);
    var rest;
    if EndsOperation(p, st) {
      rest, q := [], p';
    } else {
      LeftShrinks(n, p, st);
      rest, q := OperationCanEndWithin(n, a, b, p');
    }
    sts := [st] + rest;
    assert sts[1..] == rest;
  }
}
