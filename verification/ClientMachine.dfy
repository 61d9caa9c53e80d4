/**
  The client thread of client.c as the server and the kernel see it: greet, wait for the size, then one
  operation after the other, each a send of a message and a receive of its echo into the same buffer.
  Whatever lawful server is at the other end, an operation that completes leaves in the buffer exactly
  the bytes it sent.
*/
module ClientMachine {
  import opened Bytes
  import opened EchoSpec

  datatype At = SendHi | RecvSize | SendMsg | RecvMsg | Exited

  /** `at` is the call in progress and `done` the bytes it has moved; `size` and `buf` are the memory of
      `msg_size` and of `buf`. `hi` counts the greeting bytes sent, `sent` and `got` are all that went out
      and came in, and `ops` counts completed operations. */
  datatype Client = Client(
    at: At, done: nat, size: seq<byte>, buf: seq<byte>, hi: nat, sent: seq<byte>, got: seq<byte>, ops: nat)

  datatype Event =
    | Move(k: nat)              // the kernel moves k more bytes for the call in progress
    | Finish(fill: seq<byte>)   // the call returns its full length; `fill` is the buffer of the next message
    | Fail                      // the call returns short or fails

  function MessageLength(cl: Client): nat
    requires |cl.size| == 4
  {
    Ntohl(cl.size)
  }

  function Len(cl: Client): nat
    requires |cl.size| == 4
  {
    match cl.at
    case SendHi => 2
    case RecvSize => 4
    case Exited => 0
    case _ => MessageLength(cl)
  }

  ghost predicate IsInit(cl: Client) {
    && cl.at == SendHi && cl.done == 0 && |cl.size| == 4 && |cl.buf| == BUF_SIZE
    && cl.hi == 0 && cl.sent == [] && cl.got == [] && cl.ops == 0
  }

  /** `wire` is everything the server has sent so far. */
  predicate Can(wire: seq<byte>, cl: Client, e: Event) {
    && |cl.size| == 4 && !cl.at.Exited?
    && match e
       case Move(k) =>
         && cl.done + k <= Len(cl)
         && (cl.at.SendMsg? || cl.at.RecvMsg? ==> Len(cl) <= |cl.buf|)
         && (cl.at.RecvSize? || cl.at.RecvMsg? ==> |cl.got| + k <= |wire|)
       case Finish(fill) => cl.done == Len(cl) && |fill| == BUF_SIZE
       case Fail => true
  }

  /** What a call of the client puts on its outgoing stream. */
  function Outgoing(cl: Client, e: Event): seq<byte>
    requires |cl.size| == 4 && (e.Move? ==> cl.done + e.k <= Len(cl))
    requires e.Move? && cl.at.SendMsg? ==> Len(cl) <= |cl.buf|
  {
    if !e.Move? then []
    else if cl.at == SendHi then HI[cl.done..cl.done + e.k]
    else if cl.at == SendMsg then cl.buf[cl.done..cl.done + e.k]
    else []
  }

  function Next(wire: seq<byte>, cl: Client, e: Event): Client
    requires Can(wire, cl, e)
  {
    match e
    case Move(k) =>
      var cl1 := cl.(done := cl.done + k, sent := cl.sent + Outgoing(cl, e));
      if cl.at == SendHi then cl1.(hi := cl.hi + k)
      else if cl.at == SendMsg then cl1
      else
        var data := wire[|cl.got|..|cl.got| + k];
        if cl.at == RecvSize then cl1.(got := cl.got + data, size := Patch(cl.size, cl.done, data))
        else cl1.(got := cl.got + data, buf := Patch(cl.buf, cl.done, data))
    case Finish(fill) =>
      if cl.at == SendHi then cl.(at := RecvSize, done := 0)
      else if cl.at == RecvSize then cl.(at := SendMsg, done := 0, buf := fill)
      else if cl.at == SendMsg then cl.(at := RecvMsg, done := 0)
      else cl.(at := SendMsg, done := 0, buf := fill, ops := cl.ops + 1)
    case Fail =>
      // the result of sending the greeting is not looked at
      if cl.at == SendHi then cl.(at := RecvSize, done := 0) else cl.(at := Exited)
  }

  /** Payload bytes of the operations before the one in progress. */
  function Base(cl: Client): int {
    match cl.at
    case SendMsg => |cl.got| - 4
    case RecvMsg => |cl.got| - 4 - cl.done
    case _ => 0
  }

  ghost predicate Inv(n: nat, cl: Client)
    requires MsgSize(n)
  {
    && |cl.size| == 4 && |cl.buf| == BUF_SIZE && cl.hi <= 2
    && match cl.at
       case SendHi => cl.done == cl.hi == |cl.sent| && cl.got == []
       case RecvSize =>
         && cl.done <= 4 && |cl.sent| == cl.hi && cl.got == Header(n)[..cl.done] && cl.size[..cl.done] == cl.got
       case SendMsg =>
         && cl.done <= n && cl.size == Header(n) && Aligned(Base(cl), n) && (Base(cl) > 0 ==> cl.hi == 2)
         && |cl.sent| == cl.hi + Base(cl) + cl.done && cl.sent[cl.hi + Base(cl)..] == cl.buf[..cl.done]
         && cl.got <= Allowed(n, cl.sent)
       case RecvMsg =>
         && cl.done <= n && cl.size == Header(n) && Aligned(Base(cl), n) && (Base(cl) + cl.done > 0 ==> cl.hi == 2)
         && |cl.sent| == cl.hi + Base(cl) + n && cl.sent[cl.hi + Base(cl)..] == cl.buf[..n]
         && cl.got <= Allowed(n, cl.sent)
       case Exited => cl.got <= Allowed(n, cl.sent) && (|cl.got| < 4 ==> |cl.sent| <= 2)
  }

  /** Nothing is echoed of an operation whose greeting was cut short; otherwise the next bytes on the
      wire are the next bytes of the message. */
  lemma NextEcho(n: nat, cl: Client, wire: seq<byte>, k: nat)
    requires MsgSize(n) && Inv(n, cl) && cl.at == RecvMsg && cl.done + k <= n
    requires cl.got <= wire <= Allowed(n, cl.sent) && |cl.got| + k <= |wire|
    ensures k > 0 ==> cl.hi == 2
    ensures wire[|cl.got|..|cl.got| + k] == cl.buf[cl.done..cl.done + k]
    ensures cl.got + wire[|cl.got|..|cl.got| + k] <= Allowed(n, cl.sent)
  {
    PrefixStep(cl.got, wire, Allowed(n, cl.sent), k);
    if k > 0 {
      EchoAt(n, cl, k);
    }
  }

  lemma EchoAt(n: nat, cl: Client, k: nat)
    requires MsgSize(n) && Inv(n, cl) && cl.at == RecvMsg && cl.done + k <= n
    requires k > 0 && |cl.got| + k <= |Allowed(n, cl.sent)|
    ensures cl.hi == 2
    ensures Allowed(n, cl.sent)[|cl.got|..|cl.got| + k] == cl.buf[cl.done..cl.done + k]
  {
    Greeted(n, cl, k);
    EchoChunk(n, cl.sent, cl.buf, Base(cl), cl.done, k);
  }

  lemma PrefixStep(got: seq<byte>, wire: seq<byte>, all: seq<byte>, k: nat)
    requires got <= wire <= all && |got| + k <= |wire|
    ensures wire[|got|..|got| + k] == all[|got|..|got| + k]
    ensures got + wire[|got|..|got| + k] <= all
  {
    assert got + all[|got|..|got| + k] == all[..|got| + k];
  }

  lemma Greeted(n: nat, cl: Client, k: nat)
    requires MsgSize(n) && Inv(n, cl) && cl.at == RecvMsg && k > 0 && |cl.got| + k <= |Allowed(n, cl.sent)|
    ensures cl.hi == 2
  {
    assert cl.hi < 2 ==> Base(cl) == 0 && |cl.sent| < 2 + n;
  }

  lemma EchoChunk(n: nat, sent: seq<byte>, buf: seq<byte>, base: nat, d: nat, k: nat)
    requires MsgSize(n) && d + k <= n <= |buf| && |sent| == 2 + base + n && sent[2 + base..] == buf[..n]
    requires 4 + base + d + k <= |Allowed(n, sent)|
    ensures Allowed(n, sent)[4 + base + d..4 + base + d + k] == buf[d..d + k]
  {
    EchoIs(n, sent, base, d, k);
    var m := sent[2 + base..];
    assert m == sent[2 + base..2 + base + n];
    SliceOfSlice(sent, 2 + base, 2 + base + n, d, d + k);
    SliceOfSlice(buf, 0, n, d, d + k);
    assert m[d..d + k] == buf[..n][d..d + k];
  }

  lemma EchoIs(n: nat, sent: seq<byte>, base: nat, d: nat, k: nat)
    requires MsgSize(n) && 2 <= |sent| && 4 + base + d + k <= |Allowed(n, sent)|
    ensures Allowed(n, sent)[4 + base + d..4 + base + d + k] == sent[2 + base + d..2 + base + d + k]
  {
    var e := Echoable(n, sent);
    assert Allowed(n, sent)[4 + base + d..4 + base + d + k] == e[base + d..base + d + k];
    SliceOfSlice(sent, 2, 2 + |e|, base + d, base + d + k);
  }

  lemma FinishInv(n: nat, cl: Client, wire: seq<byte>, fill: seq<byte>)
    requires MsgSize(n) && Inv(n, cl) && Can(wire, cl, Finish(fill))
    requires cl.got <= wire <= Allowed(n, cl.sent)
    ensures Inv(n, Next(wire, cl, Finish(fill)))
  {
    NtohlHtonl(n);
    if cl.at == RecvSize {
      assert cl.size[..4] == cl.size;
    } else if cl.at == RecvMsg {
      AlignedNext(Base(cl), n);
    }
  }

  lemma MoveInv(n: nat, cl: Client, wire: seq<byte>, k: nat)
    requires MsgSize(n) && Inv(n, cl) && Can(wire, cl, Move(k))
    requires cl.got <= wire <= Allowed(n, cl.sent)
    ensures Inv(n, Next(wire, cl, Move(k)))
  {
    NtohlHtonl(n);
    if cl.at == RecvSize {
      MoveSize(n, cl, wire, k);
    } else if cl.at == SendMsg {
      MoveSend(n, cl, wire, k);
    } else if cl.at == RecvMsg {
      MoveRecv(n, cl, wire, k);
    }
  }

  lemma MoveSize(n: nat, cl: Client, wire: seq<byte>, k: nat)
    requires MsgSize(n) && Inv(n, cl) && cl.at == RecvSize && Can(wire, cl, Move(k))
    requires cl.got <= wire <= Allowed(n, cl.sent)
    ensures Inv(n, Next(wire, cl, Move(k)))
  {
    var g := |cl.got|;
    assert wire[g..g + k] == Header(n)[g..g + k];
    PatchExtends(cl.size, cl.done, wire[g..g + k]);
    assert Header(n)[..g] + Header(n)[g..g + k] == Header(n)[..g + k];
  }

  lemma MoveRecv(n: nat, cl: Client, wire: seq<byte>, k: nat)
    requires MsgSize(n) && Inv(n, cl) && cl.at == RecvMsg && Can(wire, cl, Move(k)) && MessageLength(cl) == n
    requires cl.got <= wire <= Allowed(n, cl.sent)
    ensures Inv(n, Next(wire, cl, Move(k)))
  {
    NextEcho(n, cl, wire, k);
    var data := cl.buf[cl.done..cl.done + k];
    SameBytes(wire, cl, k, data);
    MovedRecv(n, cl, data);
  }

  /** Receiving what the buffer holds already. */
  lemma SameBytes(wire: seq<byte>, cl: Client, k: nat, data: seq<byte>)
    requires Can(wire, cl, Move(k)) && cl.at == RecvMsg && cl.done + k <= |cl.buf|
    requires data == cl.buf[cl.done..cl.done + k] == wire[|cl.got|..|cl.got| + k]
    ensures Next(wire, cl, Move(k)) == cl.(done := cl.done + |data|, got := cl.got + data)
  {
    PatchSame(cl.buf, cl.done, k);
  }

  lemma MovedRecv(n: nat, cl: Client, data: seq<byte>)
    requires MsgSize(n) && Inv(n, cl) && cl.at == RecvMsg && cl.done + |data| <= n
    requires (data != [] ==> cl.hi == 2) && cl.got + data <= Allowed(n, cl.sent)
    ensures Inv(n, cl.(done := cl.done + |data|, got := cl.got + data))
  {
  }

  lemma MoveSend(n: nat, cl: Client, wire: seq<byte>, k: nat)
    requires MsgSize(n) && Inv(n, cl) && cl.at == SendMsg && Can(wire, cl, Move(k)) && MessageLength(cl) == n
    ensures Inv(n, Next(wire, cl, Move(k)))
  {
    var data := cl.buf[cl.done..cl.done + k];
    FrontGrows(cl.buf, cl.done, k);
    MovedSend(n, cl, data);
    SendNext(wire, cl, k, data);
  }

  lemma SendNext(wire: seq<byte>, cl: Client, k: nat, data: seq<byte>)
    requires Can(wire, cl, Move(k)) && cl.at == SendMsg && cl.done + k <= |cl.buf|
    requires data == cl.buf[cl.done..cl.done + k]
    ensures Next(wire, cl, Move(k)) == cl.(done := cl.done + |data|, sent := cl.sent + data)
  {
  }

  lemma MovedSend(n: nat, cl: Client, data: seq<byte>)
    requires MsgSize(n) && Inv(n, cl) && cl.at == SendMsg && cl.done + |data| <= n
    requires cl.buf[..cl.done] + data == cl.buf[..cl.done + |data|]
    ensures Inv(n, cl.(done := cl.done + |data|, sent := cl.sent + data))
  {
    EchoableMonotone(n, cl.sent, cl.sent + data);
    TailGrows(cl.sent, data, cl.hi + Base(cl));
  }

  lemma TailGrows(sent: seq<byte>, data: seq<byte>, at: nat)
    requires at <= |sent|
    ensures (sent + data)[at..] == sent[at..] + data
  {
  }

  lemma FrontGrows(buf: seq<byte>, d: nat, k: nat)
    requires d + k <= |buf|
    ensures buf[..d] + buf[d..d + k] == buf[..d + k]
  {
  }

  /** Against a server that is lawful at this moment, every step of the client keeps the invariant. */
  lemma NextInv(n: nat, cl: Client, wire: seq<byte>, e: Event)
    requires MsgSize(n) && Inv(n, cl) && Can(wire, cl, e)
    requires cl.got <= wire <= Allowed(n, cl.sent)
    ensures Inv(n, Next(wire, cl, e)) && Next(wire, cl, e).got <= wire
    ensures Next(wire, cl, e).sent == cl.sent + Outgoing(cl, e)
  {
    match e
    case Move(k) =>
      MoveInv(n, cl, wire, k);
      MoveStreams(cl, wire, k);
    case Finish(fill) => FinishInv(n, cl, wire, fill);
    case Fail => FailInv(n, cl);
  }

  lemma MoveStreams(cl: Client, wire: seq<byte>, k: nat)
    requires Can(wire, cl, Move(k)) && cl.got <= wire
    ensures Next(wire, cl, Move(k)).got <= wire
    ensures Next(wire, cl, Move(k)).sent == cl.sent + Outgoing(cl, Move(k))
  {
    if cl.at == RecvSize || cl.at == RecvMsg {
      assert cl.got + wire[|cl.got|..|cl.got| + k] == wire[..|cl.got| + k];
    }
  }

  lemma FailInv(n: nat, cl: Client)
    requires MsgSize(n) && Inv(n, cl) && !cl.at.Exited?
    ensures Inv(n, Next(cl.got, cl, Fail))
  {
    if cl.at == RecvSize || cl.at == SendHi {
      assert Allowed(n, cl.sent)[..|cl.got|] == cl.got;
    }
  }

  // ---------- a whole run against any lawful server ----------

  datatype Step = Server(bytes: seq<byte>) | ClientDoes(e: Event)

  datatype Joint = Joint(cl: Client, wire: seq<byte>)

  predicate CanStep(j: Joint, st: Step) {
    st.Server? || Can(j.wire, j.cl, st.e)
  }

  function Do(j: Joint, st: Step): Joint
    requires CanStep(j, st)
  {
    match st
    case Server(bytes) => j.(wire := j.wire + bytes)
    case ClientDoes(e) => j.(cl := Next(j.wire, j.cl, e))
  }

  /** The states of a run, beginning with `js[0]`. */
  ghost predicate IsRun(js: seq<Joint>, steps: seq<Step>) {
    && |js| == |steps| + 1 && IsInit(js[0].cl) && js[0].wire == []
    && forall i :: 0 <= i < |steps| ==> CanStep(js[i], steps[i]) && js[i + 1] == Do(js[i], steps[i])
  }

  function ObsOf(j: Joint): Obs {
    Obs(j.cl.sent, j.wire)
  }

  /** What is observed on the connection during a run. */
  function Observed(js: seq<Joint>): (tr: seq<Obs>)
    ensures |tr| == |js|
  {
    seq(|js|, i requires 0 <= i < |js| => ObsOf(js[i]))
  }

  lemma {:induction false} RunInv(n: nat, js: seq<Joint>, steps: seq<Step>, i: nat)
    requires MsgSize(n) && IsRun(js, steps) && Lawful(n, Observed(js)) && i < |js|
    ensures Inv(n, js[i].cl) && js[i].cl.got <= js[i].wire
    decreases i
  {
    if i > 0 {
      RunInv(n, js, steps, i - 1);
      assert LawfulAt(n, Observed(js), i - 1);
      if steps[i - 1].ClientDoes? {
        NextInv(n, js[i - 1].cl, js[i - 1].wire, steps[i - 1].e);
      }
    }
  }

  /** The size that the client works with is the server's, and when the receive of an operation is
      complete, the buffer holds the message that this operation sent, which is also what came back. */
  ghost predicate EchoIsRight(n: nat, cl: Client)
    requires MsgSize(n)
  {
    && |cl.size| == 4 && |cl.buf| == BUF_SIZE
    && (cl.at.SendMsg? || cl.at.RecvMsg? ==> MessageLength(cl) == n)
    && (cl.at.RecvMsg? && cl.done == n ==>
          && n <= |cl.sent| && n <= |cl.got|
          && cl.buf[..n] == cl.sent[|cl.sent| - n..] == cl.got[|cl.got| - n..])
  }

  lemma InvEchoIsRight(n: nat, cl: Client)
    requires MsgSize(n) && Inv(n, cl)
    ensures EchoIsRight(n, cl)
  {
    NtohlHtonl(n);
    if cl.at.RecvMsg? && cl.done == n {
      LastEcho(n, cl);
    }
  }

  lemma LastEcho(n: nat, cl: Client)
    requires MsgSize(n) && Inv(n, cl) && cl.at == RecvMsg && cl.done == n
    ensures n <= |cl.sent| && n <= |cl.got|
    ensures cl.buf[..n] == cl.sent[|cl.sent| - n..] == cl.got[|cl.got| - n..]
  {
    BeforeLast(n, cl);
    LastBytes(n, cl.sent, cl.got, cl.buf, Base(cl));
  }

  lemma BeforeLast(n: nat, cl: Client)
    requires MsgSize(n) && Inv(n, cl) && cl.at == RecvMsg && cl.done == n
    ensures |cl.sent| == 2 + Base(cl) + n && cl.sent[2 + Base(cl)..] == cl.buf[..n] && |cl.got| == 4 + Base(cl) + n
  {
    assert cl.hi == 2;
  }

  lemma LastBytes(n: nat, sent: seq<byte>, got: seq<byte>, buf: seq<byte>, base: nat)
    requires MsgSize(n) && n <= |buf| && |sent| == 2 + base + n && sent[2 + base..] == buf[..n]
    requires |got| == 4 + base + n && got <= Allowed(n, sent)
    ensures buf[..n] == sent[|sent| - n..] == got[|got| - n..]
  {
    EchoChunk(n, sent, buf, base, 0, n);
    PrefixSuffix(got, Allowed(n, sent), 4 + base);
    assert buf[0..n] == buf[..n];
  }

  lemma PrefixSuffix(got: seq<byte>, all: seq<byte>, at: nat)
    requires got <= all && at <= |got|
    ensures got[at..] == all[at..|got|]
  {
  }

  /** On any connection that could be one to simple.c, at every moment of every run. */
  lemma OperationEchoes(n: nat, js: seq<Joint>, steps: seq<Step>, i: nat)
    requires MsgSize(n) && IsRun(js, steps) && Lawful(n, Observed(js)) && i < |js|
    ensures EchoIsRight(n, js[i].cl)
  {
    RunInv(n, js, steps, i);
    InvEchoIsRight(n, js[i].cl);
  }

  /** The greeting's send is not checked; when it was cut short, no operation ever gets a byte back. */
  lemma ShortGreetingStalls(n: nat, js: seq<Joint>, steps: seq<Step>, i: nat)
    requires MsgSize(n) && IsRun(js, steps) && Lawful(n, Observed(js)) && i < |js|
    requires js[i].cl.hi < 2 && (js[i].cl.at.SendMsg? || js[i].cl.at.RecvMsg?)
    ensures js[i].cl.got == Header(n)
  {
    RunInv(n, js, steps, i);
    var cl := js[i].cl;
    assert |cl.got| == 4;
    assert cl.got == Allowed(n, cl.sent)[..4];
  }
}
