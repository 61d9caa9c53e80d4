/**
  `handle_conn` of simple.c, the sequential server, under a kernel that moves any number of bytes at a
  time and may cut any call short. `LawfulIffTrace` proves that it has exactly the lawful behaviours of
  EchoSpec, so that every other server refines it as soon as it is shown lawful.
*/
module Sequential {
  import opened Wrappers
  import opened Bytes
  import opened EchoSpec

  // ---------- handle_conn of simple.c ----------

  datatype Call = SendHeader | RecvGreeting | RecvMsg | SendMsg | Returned

  /** `at` is the call in progress and `done` the bytes it has moved; `inp` is all the client has
      sent, `taken` the part of it already received, `out` all the server has put on the wire. */
  datatype State = State(at: Call, done: nat, buf: seq<byte>, inp: seq<byte>, taken: nat, out: seq<byte>)

  datatype Event =
    | Client(bytes: seq<byte>)   // the client sends
    | Move(k: nat)               // the kernel moves k more bytes for the call in progress
    | Finish                     // the call returns its full length
    | Fail                       // the call returns short or fails

  function Len(n: nat, at: Call): nat {
    match at
    case SendHeader => 4
    case RecvGreeting => 2
    case Returned => 0
    case _ => n
  }

  predicate Can(n: nat, s: State, e: Event)
    requires MsgSize(n)
  {
    match e
    case Client(_) => true
    case Move(k) =>
      && !s.at.Returned?
      && s.done + k <= Len(n, s.at)
      && (s.at.SendMsg? ==> n <= |s.buf|)
      && (s.at.RecvGreeting? || s.at.RecvMsg? ==> s.taken + k <= |s.inp| && s.done + k <= |s.buf|)
    case Finish => !s.at.Returned? && s.done == Len(n, s.at)
    case Fail => !s.at.Returned?
  }

  function Next(n: nat, s: State, e: Event): State
    requires MsgSize(n) && Can(n, s, e)
  {
    match e
    case Client(bytes) => s.(inp := s.inp + bytes)
    case Move(k) =>
      if s.at == SendHeader then
        s.(done := s.done + k, out := s.out + Header(n)[s.done..s.done + k])
      else if s.at == SendMsg then
        s.(done := s.done + k, out := s.out + s.buf[s.done..s.done + k])
      else
        s.(done := s.done + k, taken := s.taken + k,
           buf := Patch(s.buf, s.done, s.inp[s.taken..s.taken + k]))
    case Finish =>
      s.(done := 0,
         at := if s.at == SendHeader then RecvGreeting else if s.at == RecvMsg then SendMsg else RecvMsg)
    case Fail => s.(at := Returned, done := 0)
  }

  function Exec(n: nat, s: State, es: seq<Event>): Option<State>
    requires MsgSize(n)
    decreases es
  {
    if es == [] then Some(s)
    else if Can(n, s, es[0]) then Exec(n, Next(n, s, es[0]), es[1..])
    else None
  }

  lemma {:induction false} ExecConcat(n: nat, s: State, a: seq<Event>, b: seq<Event>)
    requires MsgSize(n) && Exec(n, s, a).Some?
    ensures Exec(n, s, a + b) == Exec(n, Exec(n, s, a).value, b)
    decreases a
  {
    if a == [] {
      assert a + b == b;
    } else {
      ExecConcat(n, Next(n, s, a[0]), a[1..], b);
      assert (a + b)[1..] == a[1..] + b;
    }
  }

  ghost predicate Reaches(n: nat, s: State, t: State)
    requires MsgSize(n)
  {
    exists es :: Exec(n, s, es) == Some(t)
  }

  ghost predicate IsInit(s: State) {
    s.at == SendHeader && s.done == 0 && |s.buf| == BUF_SIZE && s.inp == [] && s.taken == 0 && s.out == []
  }

  // ---------- what every reachable state satisfies ----------

  ghost predicate Inv(n: nat, s: State)
    requires MsgSize(n)
  {
    && |s.buf| == BUF_SIZE && s.taken <= |s.inp|
    && s.done <= Len(n, s.at)
    && match s.at
       case SendHeader => s.taken == 0 && s.out == Header(n)[..s.done]
       case RecvGreeting => s.taken == s.done && s.out == Header(n)
       case RecvMsg =>
         && 2 + s.done <= s.taken && Aligned(s.taken - s.done - 2, n)
         && s.out == Header(n) + s.inp[2..s.taken - s.done]
         && s.buf[..s.done] == s.inp[s.taken - s.done..s.taken]
       case SendMsg =>
         && 2 + n <= s.taken && Aligned(s.taken - n - 2, n)
         && s.out == Header(n) + s.inp[2..s.taken - n + s.done]
         && s.buf[..n] == s.inp[s.taken - n..s.taken]
       case Returned => s.out <= Allowed(n, s.inp)
  }

  lemma InvAllowed(n: nat, s: State)
    requires MsgSize(n) && Inv(n, s)
    ensures s.out <= Allowed(n, s.inp)
  {
    if s.at == RecvMsg {
      EchoedIsAllowed(n, s.inp, s.taken - s.done - 2, 0, s.out);
    } else if s.at == SendMsg {
      EchoedIsAllowed(n, s.inp, s.taken - n - 2, s.done, s.out);
    } else if s.at == SendHeader || s.at == RecvGreeting {
      assert Allowed(n, s.inp)[..|s.out|] == s.out;
    }
  }

  lemma EchoedIsAllowed(n: nat, inp: seq<byte>, base: nat, k: nat, out: seq<byte>)
    requires MsgSize(n) && Aligned(base, n) && k <= n && 2 + base + (if k > 0 then n else 0) <= |inp|
    requires out == Header(n) + inp[2..2 + base + k]
    ensures out <= Allowed(n, inp)
  {
    if k > 0 {
      EchoableReaches(n, inp, base, k);
    } else {
      WholeMonotone(base, |inp| - 2, n);
    }
    assert Allowed(n, inp)[..|out|] == out;
  }

  lemma NextInv(n: nat, s: State, e: Event)
    requires MsgSize(n) && Inv(n, s) && Can(n, s, e)
    ensures Inv(n, Next(n, s, e))
    ensures s.inp <= Next(n, s, e).inp && s.out <= Next(n, s, e).out
  {
    match e
    case Client(bytes) => ClientInv(n, s, bytes);
    case Fail => InvAllowed(n, s);
    case Finish => FinishInv(n, s);
    case Move(k) => MoveInv(n, s, k);
  }

  lemma ClientInv(n: nat, s: State, bytes: seq<byte>)
    requires MsgSize(n) && Inv(n, s)
    ensures Inv(n, Next(n, s, Client(bytes)))
  {
    if s.at == RecvMsg {
      ClientWhileReceiving(n, s, bytes);
    } else if s.at == SendMsg {
      ClientWhileSending(n, s, bytes);
    } else {
      EchoableMonotone(n, s.inp, s.inp + bytes);
    }
  }

  lemma ClientWhileReceiving(n: nat, s: State, bytes: seq<byte>)
    requires MsgSize(n) && Inv(n, s) && s.at == RecvMsg
    ensures Inv(n, s.(inp := s.inp + bytes))
  {
    SliceOfPrefix(s.inp, bytes, 2, s.taken - s.done);
    SliceOfPrefix(s.inp, bytes, s.taken - s.done, s.taken);
  }

  lemma ClientWhileSending(n: nat, s: State, bytes: seq<byte>)
    requires MsgSize(n) && Inv(n, s) && s.at == SendMsg
    ensures Inv(n, s.(inp := s.inp + bytes))
  {
    SliceOfPrefix(s.inp, bytes, 2, s.taken - n + s.done);
    SliceOfPrefix(s.inp, bytes, s.taken - n, s.taken);
  }

  lemma FinishInv(n: nat, s: State)
    requires MsgSize(n) && Inv(n, s) && Can(n, s, Finish)
    ensures Inv(n, Next(n, s, Finish))
  {
  }

  lemma MoveInv(n: nat, s: State, k: nat)
    requires MsgSize(n) && Inv(n, s) && Can(n, s, Move(k))
    ensures Inv(n, Next(n, s, Move(k)))
  {
    if s.at == SendMsg {
      MoveSendMsg(n, s, k);
    } else if s.at == RecvMsg {
      MoveRecvMsg(n, s, k);
    }
  }

  lemma MoveSendMsg(n: nat, s: State, k: nat)
    requires MsgSize(n) && Inv(n, s) && s.at == SendMsg && Can(n, s, Move(k))
    ensures Inv(n, Next(n, s, Move(k)))
  {
    SentMore(n, s.inp, s.buf, s.out, s.taken - n, s.done, k);
    MovedSend(n, s, k, s.out + s.buf[s.done..s.done + k]);
    SendNext(n, s, k);
  }

  lemma SendNext(n: nat, s: State, k: nat)
    requires MsgSize(n) && s.at == SendMsg && Can(n, s, Move(k))
    ensures Next(n, s, Move(k)) == s.(done := s.done + k, out := s.out + s.buf[s.done..s.done + k])
  {
  }

  lemma MovedSend(n: nat, s: State, k: nat, out: seq<byte>)
    requires MsgSize(n) && Inv(n, s) && s.at == SendMsg && s.done + k <= n
    requires out == Header(n) + s.inp[2..s.taken - n + s.done + k]
    ensures Inv(n, s.(done := s.done + k, out := out))
  {
  }

  lemma SentMore(n: nat, inp: seq<byte>, buf: seq<byte>, out: seq<byte>, at: nat, d: nat, k: nat)
    requires MsgSize(n) && 2 <= at && d + k <= n <= |buf| && at + n <= |inp|
    requires buf[..n] == inp[at..at + n] && out == Header(n) + inp[2..at + d]
    ensures out + buf[d..d + k] == Header(n) + inp[2..at + d + k]
  {
    SliceOfSlice(buf, 0, n, d, d + k);
    SliceOfSlice(inp, at, at + n, d, d + k);
    SliceJoin(inp, 2, at + d, at + d + k);
    ConcatAssociates(Header(n), inp[2..at + d], inp[at + d..at + d + k]);
  }

  lemma TakenMore(inp: seq<byte>, buf: seq<byte>, taken: nat, d: nat, k: nat)
    requires d <= taken && taken + k <= |inp| && d + k <= |buf| && buf[..d] == inp[taken - d..taken]
    ensures Patch(buf, d, inp[taken..taken + k])[..d + k] == inp[taken - d..taken + k]
  {
    PatchExtends(buf, d, inp[taken..taken + k]);
    SliceJoin(inp, taken - d, taken, taken + k);
  }

  lemma MoveRecvMsg(n: nat, s: State, k: nat)
    requires MsgSize(n) && Inv(n, s) && s.at == RecvMsg && Can(n, s, Move(k))
    ensures Inv(n, Next(n, s, Move(k)))
  {
    TakenMore(s.inp, s.buf, s.taken, s.done, k);
  }

  lemma {:induction false} ExecInv(n: nat, s: State, es: seq<Event>)
    requires MsgSize(n) && Inv(n, s) && Exec(n, s, es).Some?
    ensures Inv(n, Exec(n, s, es).value)
    ensures s.inp <= Exec(n, s, es).value.inp && s.out <= Exec(n, s, es).value.out
    decreases es
  {
    if es != [] {
      NextInv(n, s, es[0]);
      ExecInv(n, Next(n, s, es[0]), es[1..]);
    }
  }

  // ---------- every lawful byte can be produced ----------

  /** A state from which the next byte can be produced: the server is blocked in a send. */
  ghost predicate Sending(n: nat, s: State)
    requires MsgSize(n)
  {
    Inv(n, s) && (s.at == SendHeader || s.at == SendMsg)
  }

  lemma NextByte(n: nat, s: State) returns (es: seq<Event>, t: State)
    requires MsgSize(n) && Sending(n, s) && |s.out| < |Allowed(n, s.inp)|
    ensures Exec(n, s, es) == Some(t) && Sending(n, t)
    ensures t.inp == s.inp && |t.out| == |s.out| + 1
  {
    if s.done < Len(n, s.at) {
      es, t := [Move(1)], Next(n, s, Move(1));
      NextInv(n, s, Move(1));
      ExecOne(n, s, Move(1));
    } else {
      var ge, greeted := Greet(n, s);
      t := EchoOneByte(n, greeted);
      es := ge + ([Finish, Move(n)] + [Finish, Move(1)]);
      ExecConcat(n, s, ge, [Finish, Move(n)] + [Finish, Move(1)]);
    }
  }

  /** A finished send, with more to produce: one more whole message is there to be received. */
  lemma Greet(n: nat, s: State) returns (es: seq<Event>, t: State)
    requires MsgSize(n) && Sending(n, s) && |s.out| < |Allowed(n, s.inp)| && s.done == Len(n, s.at)
    ensures Exec(n, s, es) == Some(t) && AtBoundary(n, t) && t.inp == s.inp && t.out == s.out
  {
    if s.at == SendHeader {
      var s1 := Next(n, s, Finish);
      NextInv(n, s, Finish);
      es, t := [Finish, Move(2)], Next(n, s1, Move(2));
      NextInv(n, s1, Move(2));
      ExecTwo(n, s, Finish, Move(2));
    } else {
      es, t := [], s;
      WholeNext(s.taken - 2, |s.inp| - 2, n);
    }
  }

  lemma ExecOne(n: nat, s: State, a: Event)
    requires MsgSize(n) && Can(n, s, a)
    ensures Exec(n, s, [a]) == Some(Next(n, s, a))
  {
    assert [a][1..] == [];
    assert Exec(n, Next(n, s, a), []) == Some(Next(n, s, a));
  }

  lemma ExecTwo(n: nat, s: State, a: Event, b: Event)
    requires MsgSize(n) && Can(n, s, a) && Can(n, Next(n, s, a), b)
    ensures Exec(n, s, [a, b]) == Some(Next(n, Next(n, s, a), b))
  {
    ExecOne(n, s, a);
    ExecOne(n, Next(n, s, a), b);
    ExecConcat(n, s, [a], [b]);
    assert [a] + [b] == [a, b];
  }

  /** Between two messages, with at least one more whole message from the client. */
  ghost predicate AtBoundary(n: nat, s: State)
    requires MsgSize(n)
  {
    && Inv(n, s) && (s.at == RecvGreeting || s.at == SendMsg) && s.done == Len(n, s.at)
    && s.taken + n <= |s.inp|
  }

  /** One whole message further on, with its first byte already sent back. */
  lemma EchoOneByte(n: nat, s: State) returns (t: State)
    requires MsgSize(n) && AtBoundary(n, s)
    ensures Exec(n, s, [Finish, Move(n)] + [Finish, Move(1)]) == Some(t)
    ensures Sending(n, t) && t.inp == s.inp && |t.out| == |s.out| + 1
  {
    var u := TakeMessage(n, s);
    t := Next(n, Next(n, u, Finish), Move(1));
    NextInv(n, u, Finish);
    NextInv(n, Next(n, u, Finish), Move(1));
    ExecTwo(n, u, Finish, Move(1));
    ExecConcat(n, s, [Finish, Move(n)], [Finish, Move(1)]);
  }

  lemma TakeMessage(n: nat, s: State) returns (t: State)
    requires MsgSize(n) && AtBoundary(n, s)
    ensures Exec(n, s, [Finish, Move(n)]) == Some(t)
    ensures Inv(n, t) && t.at == RecvMsg && t.done == n && t.inp == s.inp && t.out == s.out
  {
    var s1 := Next(n, s, Finish);
    NextInv(n, s, Finish);
    t := Next(n, s1, Move(n));
    NextInv(n, s1, Move(n));
    ExecTwo(n, s, Finish, Move(n));
  }

  lemma {:induction false} CanProduce(n: nat, s: State, k: nat) returns (t: State)
    requires MsgSize(n) && Sending(n, s) && |s.out| + k <= |Allowed(n, s.inp)|
    ensures Reaches(n, s, t) && Sending(n, t) && t.inp == s.inp && |t.out| == |s.out| + k
    decreases k
  {
    if k == 0 {
      t := s;
      assert Exec(n, s, []) == Some(t);
    } else {
      var es, u := NextByte(n, s);
      t := CanProduce(n, u, k - 1);
      var es' :| Exec(n, u, es') == Some(t);
      ExecConcat(n, s, es, es');
    }
  }

  // ---------- traces ----------

  ghost predicate TraceFrom(n: nat, s: State, tr: seq<Obs>)
    requires MsgSize(n)
    decreases tr
  {
    tr == [] || exists t :: Reaches(n, s, t) && Obs(t.inp, t.out) == tr[0] && TraceFrom(n, t, tr[1..])
  }

  /** Looking at a run of simple.c at any moments gives these observations. */
  ghost predicate IsTrace(n: nat, tr: seq<Obs>)
    requires MsgSize(n)
  {
    exists s :: IsInit(s) && TraceFrom(n, s, tr)
  }

  lemma ClientStep(n: nat, s: State, inp: seq<byte>) returns (e: Event, t: State)
    requires MsgSize(n) && Sending(n, s) && s.inp <= inp
    ensures Exec(n, s, [e]) == Some(t) && Sending(n, t) && t.inp == inp && t.out == s.out
  {
    e := Client(inp[|s.inp|..]);
    t := Next(n, s, e);
    NextInv(n, s, e);
    ExecOne(n, s, e);
  }

  /** From any blocked send the server can show the rest of a lawful trace. */
  lemma {:induction false} LawfulIsTraceFrom(n: nat, s: State, tr: seq<Obs>)
    requires MsgSize(n) && Sending(n, s) && Lawful(n, tr)
    requires tr != [] ==> Grows(Obs(s.inp, s.out), tr[0])
    ensures TraceFrom(n, s, tr)
    decreases tr
  {
    if tr != [] {
      LawfulTail(n, tr);
      var t := ShowNext(n, s, tr[0]);
      LawfulIsTraceFrom(n, t, tr[1..]);
    }
  }

  lemma SameLength(a: seq<byte>, b: seq<byte>, all: seq<byte>)
    requires a <= all && b <= all && |a| == |b|
    ensures a == b
  {
  }

  lemma ShowNext(n: nat, s: State, o: Obs) returns (t: State)
    requires MsgSize(n) && Sending(n, s) && Grows(Obs(s.inp, s.out), o) && o.out <= Allowed(n, o.inp)
    ensures Reaches(n, s, t) && Sending(n, t) && Obs(t.inp, t.out) == o
  {
    var e, u := ClientStep(n, s, o.inp);
    t := CanProduce(n, u, |o.out| - |u.out|);
    InvAllowed(n, t);
    SameLength(t.out, o.out, Allowed(n, t.inp));
    var es :| Exec(n, u, es) == Some(t);
    ExecConcat(n, s, [e], es);
  }

  lemma {:induction false} TraceFromIsLawful(n: nat, s: State, tr: seq<Obs>)
    requires MsgSize(n) && Inv(n, s) && TraceFrom(n, s, tr)
    ensures Lawful(n, tr) && (tr != [] ==> Grows(Obs(s.inp, s.out), tr[0]))
    decreases tr
  {
    if tr != [] {
      var t :| Reaches(n, s, t) && Obs(t.inp, t.out) == tr[0] && TraceFrom(n, t, tr[1..]);
      var es :| Exec(n, s, es) == Some(t);
      ExecInv(n, s, es);
      InvAllowed(n, t);
      TraceFromIsLawful(n, t, tr[1..]);
      LawfulTail(n, tr);
    }
  }

  /** The sequential server has exactly the lawful behaviours. */
  lemma LawfulIffTrace(n: nat, tr: seq<Obs>)
    requires MsgSize(n)
    ensures IsTrace(n, tr) <==> Lawful(n, tr)
  {
    if IsTrace(n, tr) {
      var s :| IsInit(s) && TraceFrom(n, s, tr);
      TraceFromIsLawful(n, s, tr);
    }
    if Lawful(n, tr) {
      var s0 := State(SendHeader, 0, seq(BUF_SIZE, _ => 0), [], 0, []);
      LawfulIsTraceFrom(n, s0, tr);
    }
  }
}
