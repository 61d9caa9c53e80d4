/** The client of client.c joined to the threadlet server, and to any server that refines simple.c. */
module ClientOnServers {
  import opened Wrappers
  import opened Bytes
  import opened EchoSpec
  import T = Threadlets
  import opened ThreadletTheorems
  import C = ClientMachine
  import Sequential
  import opened Sockets
  import SimpleServer
  import Pipeline
  import Epoll

  // ---------- any server whose connection could be one to simple.c ----------

  /** A server is judged on the bytes that it received; the client may have sent more. */
  lemma EchoesOnAnyServer(n: nat, js: seq<C.Joint>, steps: seq<C.Step>, tr: seq<Obs>, i: nat)
    requires MsgSize(n) && C.IsRun(js, steps) && i < |js| == |tr| && Sequential.IsTrace(n, tr)
    requires forall k :: 0 <= k < |js| ==> tr[k].out == js[k].wire && tr[k].inp <= js[k].cl.sent
    ensures C.EchoIsRight(n, js[i].cl)
  {
    Sequential.LawfulIffTrace(n, tr);
    var tr' := C.Observed(js);
    forall a, b | 0 <= a < b < |tr'| ensures tr'[a].inp <= tr'[b].inp {
      SentGrows(js, steps, a, b);
    }
    LawfulWithPendingInput(n, tr, tr');
    C.OperationEchoes(n, js, steps, i);
  }

  lemma {:induction false} SentGrows(js: seq<C.Joint>, steps: seq<C.Step>, a: nat, b: nat)
    requires C.IsRun(js, steps) && a <= b < |js|
    ensures js[a].cl.sent <= js[b].cl.sent
    decreases b
  {
    if a < b {
      SentGrows(js, steps, a, b - 1);
      StepGrows(js[b - 1], steps[b - 1]);
    }
  }

  lemma StepGrows(j: C.Joint, st: C.Step)
    requires C.CanStep(j, st)
    ensures j.cl.sent <= C.Do(j, st).cl.sent
  {
  }

  /** The run `js` of a client on a connection whose server has the observations `tr`: `f[k]` is the moment of
      the server's trace at which state `k` of the client's run is looked at. */
  ghost predicate Follows(js: seq<C.Joint>, steps: seq<C.Step>, tr: seq<Obs>, f: seq<nat>) {
    && C.IsRun(js, steps) && |f| == |js| && Moments(tr, f)
    && forall k :: 0 <= k < |js| ==> tr[f[k]].out == js[k].wire && tr[f[k]].inp <= js[k].cl.sent
  }

  /** Every client run on such a connection gets its own bytes back, at every moment. */
  ghost predicate ServesClients(n: nat, tr: seq<Obs>)
    requires MsgSize(n)
  {
    forall js: seq<C.Joint>, steps: seq<C.Step>, f: seq<nat>, i: nat :: Follows(js, steps, tr, f) && i < |js| ==>
      C.EchoIsRight(n, js[i].cl)
  }

  lemma RefiningServesClients(n: nat, tr: seq<Obs>)
    requires MsgSize(n) && Sequential.IsTrace(n, tr)
    ensures ServesClients(n, tr)
  {
    Sequential.LawfulIffTrace(n, tr);
    forall js: seq<C.Joint>, steps: seq<C.Step>, f: seq<nat>, i: nat | Follows(js, steps, tr, f) && i < |js|
      ensures C.EchoIsRight(n, js[i].cl)
    {
      LawfulAtMoments(n, tr, f);
      Sequential.LawfulIffTrace(n, At(tr, f));
      EchoesOnAnyServer(n, js, steps, At(tr, f), i);
    }
  }

  /** The client on simple.c. */
  method OnSimpleServer(s: Socket, n: nat, hello: Outcome, greeting: Outcome, rounds: seq<(Outcome, Outcome)>)
    requires MsgSize(n) && s.Valid() && s.taken == 0 && s.out == [] && Lawful(n, s.trace)
    modifies s
    ensures old(s.trace) <= s.trace && ServesClients(n, s.trace)
  {
    var serving := SimpleServer.HandleConn(s, n, hello, greeting, rounds);
    RefiningServesClients(n, s.trace);
  }

  /** The client on uring2.c. */
  method OnPipeline(s: Socket, n: nat, hello: Outcome, greeting: Outcome, first: Outcome, rounds: seq<Pipeline.Round>)
    requires MsgSize(n) && s.Valid() && s.taken == 0 && s.out == [] && Lawful(n, s.trace)
    modifies s
    ensures old(s.trace) <= s.trace && ServesClients(n, s.trace)
  {
    var st := Pipeline.HandleConn(s, n, hello, greeting, first, rounds);
    RefiningServesClients(n, s.trace);
  }

  /** Clients on epoll_single.c, on every connection whose handshake was complete. */
  method OnEpoll(l: Epoll.EpollLoop, wishes: seq<seq<Epoll.Event>>)
    requires l.Valid() && l.exit == Epoll.Running
    modifies l, l.buf
    ensures l.Valid() && forall fd :: fd in l.socks && l.socks[fd].greeted ==> ServesClients(l.n, l.socks[fd].trace)
  {
    var aborts := l.MainLoop(wishes);
    forall fd | fd in l.socks && l.socks[fd].greeted ensures ServesClients(l.n, l.socks[fd].trace) {
      RefiningServesClients(l.n, l.socks[fd].trace);
    }
  }

  // ---------- the threadlet server ----------

  datatype Step = Server(a: T.Action) | Client(e: C.Event)

  /** What the server and the kernel have done so far, and the client whose connection is `fd`. */
  datatype Duo = Duo(acts: seq<T.Action>, cl: C.Client)

  function Wire(w: T.World, fd: int): seq<byte> {
    if fd in w.conns then w.conns[fd].wire else []
  }

  /** The kernel delivers to `fd` what this client sends; all other connections are arbitrary. */
  predicate Faithful(fd: int, a: T.Action, cl: C.Client) {
    (a.ClientSend? ==> a.fd != fd) && (a.Accepted? && a.fd == fd ==> a.early == cl.sent)
  }

  predicate Can(c: T.Config, fd: int, d: Duo, st: Step)
    requires MsgSize(c.msgSize)
  {
    && T.Run(c, d.acts).Some?
    && var w := T.Run(c, d.acts).value;
       match st
       case Server(a) => T.Can(c, w, a) && Faithful(fd, a, d.cl)
       case Client(e) => w.exit == T.Running && C.Can(Wire(w, fd), d.cl, e)
  }

  /** Bytes sent before the server accepts wait in the listening socket. */
  function Next(c: T.Config, fd: int, d: Duo, st: Step): Duo
    requires MsgSize(c.msgSize) && Can(c, fd, d, st)
  {
    match st
    case Server(a) => d.(acts := d.acts + [a])
    case Client(e) =>
      var w := T.Run(c, d.acts).value;
      var out := C.Outgoing(d.cl, e);
      Duo(if out != [] && fd in w.conns then d.acts + [T.ClientSend(fd, out)] else d.acts,
          C.Next(Wire(w, fd), d.cl, e))
  }

  function RunDuo(c: T.Config, fd: int, d: Duo, sts: seq<Step>): Option<Duo>
    requires MsgSize(c.msgSize)
    decreases sts
  {
    if sts == [] then Some(d)
    else if Can(c, fd, d, sts[0]) then RunDuo(c, fd, Next(c, fd, d, sts[0]), sts[1..])
    else None
  }

  ghost predicate Inv(c: T.Config, fd: int, d: Duo)
    requires MsgSize(c.msgSize)
  {
    && T.Run(c, d.acts).Some? && Polite(c, d.acts, fd)
    && WorldOk(c.msgSize, T.Run(c, d.acts).value, fd, d.cl)
  }

  ghost predicate WorldOk(n: nat, w: T.World, fd: int, cl: C.Client)
    requires MsgSize(n)
  {
    C.Inv(n, cl) && cl.got <= Wire(w, fd) && (fd in w.conns ==> w.conns[fd].inp == cl.sent)
  }

  /** A client that keeps to the protocol is polite: it sends messages only after it got the size. */
  lemma SendsPolitely(c: T.Config, w: T.World, fd: int, cl: C.Client, e: C.Event)
    requires MsgSize(c.msgSize) && WorldOk(c.msgSize, w, fd, cl) && fd in w.conns && C.Can(w.conns[fd].wire, cl, e)
    ensures PoliteAction(c, w, T.ClientSend(fd, C.Outgoing(cl, e)), fd)
  {
  }

  lemma ServerIsPolite(c: T.Config, w: T.World, fd: int, cl: C.Client, a: T.Action)
    requires MsgSize(c.msgSize) && WorldOk(c.msgSize, w, fd, cl) && T.Can(c, w, a) && Faithful(fd, a, cl)
    ensures PoliteAction(c, w, a, fd)
  {
    if a.Accepted? && a.fd == fd {
      assert cl.got == [];
    }
  }

  lemma ServerKeeps(c: T.Config, w: T.World, fd: int, cl: C.Client, a: T.Action)
    requires MsgSize(c.msgSize) && WorldOk(c.msgSize, w, fd, cl) && T.Can(c, w, a) && Faithful(fd, a, cl)
    ensures WorldOk(c.msgSize, T.Apply(c, w, a), fd, cl)
  {
    ApplyGrows(c, w, a, fd);
    InputStays(c, w, fd, cl, a);
  }

  lemma InputStays(c: T.Config, w: T.World, fd: int, cl: C.Client, a: T.Action)
    requires MsgSize(c.msgSize) && T.Can(c, w, a) && Faithful(fd, a, cl)
    requires fd in w.conns ==> w.conns[fd].inp == cl.sent
    ensures fd in T.Apply(c, w, a).conns ==> T.Apply(c, w, a).conns[fd].inp == cl.sent
  {
  }

  lemma WireIsAllowed(c: T.Config, fd: int, d: Duo)
    requires MsgSize(c.msgSize) && Inv(c, fd, d)
    ensures Wire(T.Run(c, d.acts).value, fd) <= Allowed(c.msgSize, d.cl.sent)
  {
    if fd in T.Run(c, d.acts).value.conns {
      PoliteWire(c, d.acts, fd);
    }
  }

  lemma Append(c: T.Config, fd: int, acts: seq<T.Action>, a: T.Action)
    requires MsgSize(c.msgSize) && T.Run(c, acts).Some? && T.Can(c, T.Run(c, acts).value, a)
    requires Polite(c, acts, fd) && PoliteAction(c, T.Run(c, acts).value, a, fd)
    ensures T.Run(c, acts + [a]) == Some(T.Apply(c, T.Run(c, acts).value, a)) && Polite(c, acts + [a], fd)
  {
    RunExtend(c, acts, T.Run(c, acts).value, a);
  }

  lemma NextInv(c: T.Config, fd: int, d: Duo, st: Step)
    requires MsgSize(c.msgSize) && Inv(c, fd, d) && Can(c, fd, d, st)
    ensures Inv(c, fd, Next(c, fd, d, st))
  {
    var w := T.Run(c, d.acts).value;
    match st
    case Server(a) =>
      ServerIsPolite(c, w, fd, d.cl, a);
      ServerKeeps(c, w, fd, d.cl, a);
      Append(c, fd, d.acts, a);
    case Client(e) =>
      WireIsAllowed(c, fd, d);
      C.NextInv(c.msgSize, d.cl, Wire(w, fd), e);
      var out := C.Outgoing(d.cl, e);
      if out != [] && fd in w.conns {
        SendsPolitely(c, w, fd, d.cl, e);
        Append(c, fd, d.acts, T.ClientSend(fd, out));
      }
  }

  lemma {:induction false} RunDuoInv(c: T.Config, fd: int, d: Duo, sts: seq<Step>)
    requires MsgSize(c.msgSize) && Inv(c, fd, d) && RunDuo(c, fd, d, sts).Some?
    ensures Inv(c, fd, RunDuo(c, fd, d, sts).value)
    decreases sts
  {
    if sts != [] {
      NextInv(c, fd, d, sts[0]);
      RunDuoInv(c, fd, Next(c, fd, d, sts[0]), sts[1..]);
    }
  }

  /** A client that waits for the size header, on the threadlet server with any number of other clients:
      its connection is one to simple.c, it works with the server's message size although the header's
      send is linked to nothing, and every completed operation left in the buffer what it had sent. */
  lemma ClientOnThreadlets(c: T.Config, fd: int, d: Duo, sts: seq<Step>)
    requires MsgSize(c.msgSize) && d.acts == [] && C.IsInit(d.cl) && RunDuo(c, fd, d, sts).Some?
    ensures var e := RunDuo(c, fd, d, sts).value;
            && T.Run(c, e.acts).Some? && Polite(c, e.acts, fd)
            && Sequential.IsTrace(c.msgSize, Observed(c, e.acts, fd))
            && C.EchoIsRight(c.msgSize, e.cl)
  {
    RunDuoInv(c, fd, d, sts);
    var e := RunDuo(c, fd, d, sts).value;
    RefinesSequential(c, e.acts, fd);
    C.InvEchoIsRight(c.msgSize, e.cl);
  }
}
