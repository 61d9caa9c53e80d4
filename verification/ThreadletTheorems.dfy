/** What the threadlet server guarantees in every run, for any number of connections. */
module ThreadletTheorems {
  import opened Wrappers
  import opened Bytes
  import opened EchoSpec
  import opened Threadlets
  import opened ThreadletInv
  import Sequential

  function Front(acts: seq<Action>): seq<Action>
    requires acts != []
  {
    acts[..|acts| - 1]
  }

  function Last(acts: seq<Action>): Action
    requires acts != []
  {
    acts[|acts| - 1]
  }

  /** One more action at the end of a run. */
  lemma RunExtend(c: Config, acts: seq<Action>, w: World, a: Action)
    requires MsgSize(c.msgSize) && Run(c, acts) == Some(w) && Can(c, w, a)
    ensures Front(acts + [a]) == acts && Last(acts + [a]) == a && Run(c, acts + [a]) == Some(Apply(c, w, a))
  {
    assert Front(acts + [a]) == acts;
  }

  // ---------- streams ----------

  /** Whatever the clients and the kernel do, each connection is echoed a prefix of its own whole
      messages, and its copy of the size header is a prefix of the header. */
  lemma EchoesOwnMessages(c: Config, acts: seq<Action>, fd: int)
    requires MsgSize(c.msgSize) && Run(c, acts).Some? && fd in Run(c, acts).value.conns
    ensures var cn := Run(c, acts).value.conns[fd];
            cn.echoed <= Echoable(c.msgSize, cn.inp) && cn.hdr <= Header(c.msgSize)
  {
    RunInv(c, acts);
    assert ConnOk(c, Run(c, acts).value, RunBook(c, acts), fd);
  }

  /** The client on `fd` is polite: it does not complete a message before it was sent the size. */
  predicate PoliteAction(c: Config, w: World, a: Action, fd: int)
    requires MsgSize(c.msgSize)
  {
    match a
    case Accepted(_, f, early) => f == fd ==> |early| < 2 + c.msgSize
    case ClientSend(f, bytes) =>
      f == fd && fd in w.conns ==> |w.conns[fd].inp + bytes| < 2 + c.msgSize || |w.conns[fd].wire| >= 4
    case _ => true
  }

  predicate Polite(c: Config, acts: seq<Action>, fd: int)
    requires MsgSize(c.msgSize) && Run(c, acts).Some?
    decreases acts
  {
    acts == [] || (Polite(c, Front(acts), fd) && PoliteAction(c, Run(c, Front(acts)).value, Last(acts), fd))
  }

  ghost predicate WireOk(c: Config, cn: Conn)
    requires MsgSize(c.msgSize)
  {
    cn.wire == cn.hdr + cn.echoed && (|cn.hdr| < 4 ==> |cn.inp| < 2 + c.msgSize)
  }

  lemma NothingDue(n: nat, inp: seq<byte>)
    requires MsgSize(n) && |inp| < 2 + n
    ensures Echoable(n, inp) == []
  {
  }

  lemma TransferWire(c: Config, w: World, b: Book, r: Rid, k: nat)
    requires MsgSize(c.msgSize) && CanTransfer(w, r, k) && ReqOk(c, r, ViewOf(w, b, r))
    requires WireOk(c, w.conns[w.reqs[r].sqe.op.fd])
    requires var cn := w.conns[w.reqs[r].sqe.op.fd]; cn.echoed <= Echoable(c.msgSize, cn.inp)
    ensures WireOk(c, Moved(w, r, k))
  {
    var op, cn := w.reqs[r].sqe.op, w.conns[w.reqs[r].sqe.op.fd];
    if op.Send? {
      var chunk := w.mem[op.loc][w.reqs[r].st.done..w.reqs[r].st.done + k];
      if op.loc == MsgSizeConv {
        HeaderWire(c, cn, chunk);
      } else {
        EchoWire(c, cn, chunk);
      }
    }
  }

  lemma HeaderWire(c: Config, cn: Conn, chunk: seq<byte>)
    requires MsgSize(c.msgSize) && WireOk(c, cn) && cn.echoed <= Echoable(c.msgSize, cn.inp)
    requires chunk != [] ==> |cn.hdr| < 4
    ensures WireOk(c, cn.(hdr := cn.hdr + chunk, wire := cn.wire + chunk))
  {
    if chunk != [] {
      NothingDue(c.msgSize, cn.inp);
      assert cn.echoed == [];
      assert cn.hdr + chunk + [] == cn.hdr + chunk;
    } else {
      assert cn.hdr + chunk == cn.hdr;
    }
  }

  lemma EchoWire(c: Config, cn: Conn, chunk: seq<byte>)
    requires MsgSize(c.msgSize) && WireOk(c, cn)
    ensures WireOk(c, cn.(echoed := cn.echoed + chunk, wire := cn.wire + chunk))
  {
    assert cn.hdr + cn.echoed + chunk == cn.hdr + (cn.echoed + chunk);
  }

  lemma ApplyWire(c: Config, w: World, a: Action, fd: int)
    requires MsgSize(c.msgSize) && Can(c, w, a) && PoliteAction(c, w, a, fd)
    requires fd in w.conns ==> WireOk(c, w.conns[fd]) && w.conns[fd].echoed <= Echoable(c.msgSize, w.conns[fd].inp)
    requires a.Transfer? && w.reqs[a.r].sqe.op.fd == fd ==> WireOk(c, Moved(w, a.r, a.k))
    ensures fd in Apply(c, w, a).conns ==> WireOk(c, Apply(c, w, a).conns[fd])
  {
    if fd in w.conns && |w.conns[fd].hdr| < 4 {
      NothingDue(c.msgSize, w.conns[fd].inp);
    }
  }

  lemma RunReq(c: Config, acts: seq<Action>, r: Rid)
    requires MsgSize(c.msgSize) && Run(c, acts).Some? && r in Run(c, acts).value.reqs
    ensures ReqOk(c, r, ViewOf(Run(c, acts).value, RunBook(c, acts), r))
  {
    RunInv(c, acts);
  }

  lemma {:induction false} RunWire(c: Config, acts: seq<Action>, fd: int)
    requires MsgSize(c.msgSize) && Run(c, acts).Some? && Polite(c, acts, fd)
    ensures fd in Run(c, acts).value.conns ==> WireOk(c, Run(c, acts).value.conns[fd])
    decreases acts
  {
    if acts != [] {
      RunWire(c, Front(acts), fd);
      var w, a := Run(c, Front(acts)).value, Last(acts);
      if fd in w.conns {
        EchoesOwnMessages(c, Front(acts), fd);
      }
      if a.Transfer? && w.reqs[a.r].sqe.op.fd == fd {
        RunReq(c, Front(acts), a.r);
        TransferWire(c, w, RunBook(c, Front(acts)), a.r, a.k);
      }
      ApplyWire(c, w, a, fd);
    }
  }

  lemma WireLawful(c: Config, cn: Conn)
    requires MsgSize(c.msgSize) && WireOk(c, cn)
    requires cn.echoed <= Echoable(c.msgSize, cn.inp) && cn.hdr <= Header(c.msgSize)
    ensures cn.wire <= Allowed(c.msgSize, cn.inp) && (cn.echoed != [] ==> Header(c.msgSize) <= cn.wire)
  {
    if |cn.hdr| < 4 {
      NothingDue(c.msgSize, cn.inp);
      assert cn.echoed == [] && cn.wire == cn.hdr;
    } else {
      assert cn.hdr == Header(c.msgSize);
    }
  }

  /** A polite client is sent the size header before any echo, although the header's send is not
      linked to anything, and the wire never runs ahead of what simple.c may send. */
  lemma PoliteWire(c: Config, acts: seq<Action>, fd: int)
    requires MsgSize(c.msgSize) && Run(c, acts).Some? && Polite(c, acts, fd) && fd in Run(c, acts).value.conns
    ensures var cn := Run(c, acts).value.conns[fd];
            cn.wire <= Allowed(c.msgSize, cn.inp) && (cn.echoed != [] ==> Header(c.msgSize) <= cn.wire)
  {
    RunWire(c, acts, fd);
    EchoesOwnMessages(c, acts, fd);
    WireLawful(c, Run(c, acts).value.conns[fd]);
  }

  // ---------- refinement of simple.c ----------

  /** What is seen of connection `fd`; nothing before it exists. */
  function Seen(w: World, fd: int): Obs {
    if fd in w.conns then Obs(w.conns[fd].inp, w.conns[fd].wire) else Obs([], [])
  }

  lemma {:induction false} RunPrefix(c: Config, acts: seq<Action>, m: nat)
    requires MsgSize(c.msgSize) && Run(c, acts).Some? && m <= |acts|
    ensures Run(c, acts[..m]).Some?
    ensures forall fd :: Polite(c, acts, fd) ==> Polite(c, acts[..m], fd)
    decreases acts
  {
    if m == |acts| {
      assert acts[..m] == acts;
    } else {
      assert Front(acts)[..m] == acts[..m];
      RunPrefix(c, Front(acts), m);
    }
  }

  function SeenAfter(c: Config, acts: seq<Action>, fd: int): Obs
    requires MsgSize(c.msgSize)
  {
    if Run(c, acts).Some? then Seen(Run(c, acts).value, fd) else Obs([], [])
  }

  /** The observations of connection `fd` after each action of a run. */
  function Observed(c: Config, acts: seq<Action>, fd: int): (tr: seq<Obs>)
    requires MsgSize(c.msgSize)
    ensures |tr| == |acts| + 1
  {
    seq(|acts| + 1, i requires 0 <= i <= |acts| => SeenAfter(c, acts[..i], fd))
  }

  lemma ApplyGrows(c: Config, w: World, a: Action, fd: int)
    requires Can(c, w, a)
    ensures Grows(Seen(w, fd), Seen(Apply(c, w, a), fd))
  {
  }

  lemma SeenIsAllowed(c: Config, acts: seq<Action>, fd: int, i: nat)
    requires MsgSize(c.msgSize) && Run(c, acts).Some? && Polite(c, acts, fd) && i <= |acts|
    ensures SeenAfter(c, acts[..i], fd).out <= Allowed(c.msgSize, SeenAfter(c, acts[..i], fd).inp)
  {
    RunPrefix(c, acts, i);
    if fd in Run(c, acts[..i]).value.conns {
      PoliteWire(c, acts[..i], fd);
    }
  }

  lemma SeenGrows(c: Config, acts: seq<Action>, fd: int, i: nat)
    requires MsgSize(c.msgSize) && Run(c, acts).Some? && i < |acts|
    ensures Grows(SeenAfter(c, acts[..i], fd), SeenAfter(c, acts[..i + 1], fd))
  {
    RunPrefix(c, acts, i);
    RunPrefix(c, acts, i + 1);
    assert Front(acts[..i + 1]) == acts[..i];
    ApplyGrows(c, Run(c, acts[..i]).value, acts[i], fd);
  }

  lemma LawfulMoment(c: Config, acts: seq<Action>, fd: int, tr: seq<Obs>, i: nat)
    requires MsgSize(c.msgSize) && Run(c, acts).Some? && Polite(c, acts, fd)
    requires i <= |acts| && tr == Observed(c, acts, fd)
    ensures LawfulAt(c.msgSize, tr, i)
  {
    assert tr[i] == SeenAfter(c, acts[..i], fd);
    SeenIsAllowed(c, acts, fd, i);
    if i > 0 {
      assert tr[i - 1] == SeenAfter(c, acts[..i - 1], fd);
      SeenGrows(c, acts, fd, i - 1);
    }
  }

  /** On the connection of a polite client, every run of the threadlet server is a run of simple.c: looked at
      after each action, the bytes sent and received are those of some run of the sequential server. */
  lemma RefinesSequential(c: Config, acts: seq<Action>, fd: int)
    requires MsgSize(c.msgSize) && Run(c, acts).Some? && Polite(c, acts, fd)
    ensures Sequential.IsTrace(c.msgSize, Observed(c, acts, fd))
  {
    var tr := Observed(c, acts, fd);
    forall i | 0 <= i < |tr| ensures LawfulAt(c.msgSize, tr, i) {
      LawfulMoment(c, acts, fd, tr, i);
    }
    Sequential.LawfulIffTrace(c.msgSize, tr);
  }

  // ---------- the end of the loop ----------

  /** Handling a completion ends the process exactly when it is that of an accept that failed. */
  lemma StopsIff(c: Config, acts: seq<Action>, junk: seq<byte>)
    requires MsgSize(c.msgSize) && Run(c, acts).Some? && Can(c, Run(c, acts).value, Handle(junk))
    ensures var w := Run(c, acts).value;
            var q := w.reqs[w.cq[w.i]];
            Apply(c, w, Handle(junk)).exit == AcceptError <==> q.sqe.op.Accept? && q.st.res < 0
  {
    var w := Run(c, acts).value;
    var r := w.cq[w.i];
    RunReq(c, acts, r);
    if w.reqs[r].sqe.data.Some? { RunThreadlet(c, acts, w.reqs[r].sqe.data.value); }
    AcceptAlive(c, acts);
  }

  // ---------- ownership ----------

  /** The accept and every threadlet that was not dropped have exactly one outstanding request that
      carries their address, of the kind their `pc` names; a dropped threadlet has none. */
  ghost predicate OwnsOne(c: Config, w: World, p: Ptr)
    requires p in w.heap
  {
    exists r :: r in w.reqs && w.reqs[r].sqe.data == Some(p)
      && (match w.heap[p].pc
          case ACCEPTED => w.reqs[r].sqe.op == Accept(c.listenFd)
          case RECEIVED_HEADER => w.reqs[r].sqe.op == Recv(w.heap[p].fd, HeaderBuf, 2)
          case RECEIVED_MSG => w.reqs[r].sqe.op == Recv(w.heap[p].fd, Heap(p), c.msgSize))
      && (forall r' :: r' in w.reqs && w.reqs[r'].sqe.data == Some(p) ==> r' == r)
  }

  lemma CarriesToken(c: Config, w: World, b: Book, r: Rid)
    requires MsgSize(c.msgSize) && r in w.reqs && ReqOk(c, r, ViewOf(w, b, r)) && w.reqs[r].sqe.data.Some?
    ensures Lookup(b.tok, w.reqs[r].sqe.data.value) == Some(r)
    ensures w.reqs[r].sqe.op.Accept? <==> w.reqs[r].sqe.data.value == b.acc
  {
  }

  lemma TokenKind(c: Config, w: World, b: Book, r: Rid, p: Ptr)
    requires MsgSize(c.msgSize) && r in w.reqs && ReqOk(c, r, ViewOf(w, b, r)) && w.reqs[r].sqe.data == Some(p)
    requires p in w.heap && (w.heap[p].pc == ACCEPTED <==> p == b.acc)
    ensures match w.heap[p].pc
            case ACCEPTED => w.reqs[r].sqe.op == Accept(c.listenFd)
            case RECEIVED_HEADER => w.reqs[r].sqe.op == Recv(w.heap[p].fd, HeaderBuf, 2)
            case RECEIVED_MSG => w.reqs[r].sqe.op == Recv(w.heap[p].fd, Heap(p), c.msgSize)
  {
  }

  lemma OneRequestEach(c: Config, acts: seq<Action>, p: Ptr)
    requires MsgSize(c.msgSize) && Run(c, acts).Some? && p in Run(c, acts).value.heap
    ensures p !in RunBook(c, acts).dead ==> OwnsOne(c, Run(c, acts).value, p)
    ensures p in RunBook(c, acts).dead ==>
              forall r :: r in Run(c, acts).value.reqs ==> Run(c, acts).value.reqs[r].sqe.data != Some(p)
  {
    var w, b := Run(c, acts).value, RunBook(c, acts);
    RunThreadlet(c, acts, p);
    forall r | r in w.reqs && w.reqs[r].sqe.data == Some(p)
      ensures Lookup(b.tok, p) == Some(r)
    {
      RunReq(c, acts, r);
      CarriesToken(c, w, b, r);
    }
    if p !in b.dead {
      var r := b.tok[p];
      RunReq(c, acts, r);
      TokenKind(c, w, b, r, p);
    }
  }

  lemma RunThreadlet(c: Config, acts: seq<Action>, p: Ptr)
    requires MsgSize(c.msgSize) && Run(c, acts).Some? && p in Run(c, acts).value.heap
    ensures ThreadletOk(Run(c, acts).value, RunBook(c, acts), p)
  {
    RunInv(c, acts);
  }

  /** Exactly one threadlet is waiting in accept; it was not dropped, and it owns every accept request, which
      is thus a single one. */
  lemma OneAccept(c: Config, acts: seq<Action>)
    requires MsgSize(c.msgSize) && Run(c, acts).Some?
    ensures var w := Run(c, acts).value;
            exists p :: p in w.heap && w.heap[p].pc == ACCEPTED && OwnsOne(c, w, p)
              && (forall q :: q in w.heap && w.heap[q].pc == ACCEPTED ==> q == p)
              && (forall r :: r in w.reqs && w.reqs[r].sqe.op.Accept? ==> w.reqs[r].sqe.data == Some(p))
  {
    var w, b := Run(c, acts).value, RunBook(c, acts);
    AcceptAlive(c, acts);
    RunThreadlet(c, acts, b.acc);
    OneRequestEach(c, acts, b.acc);
    forall q | q in w.heap && w.heap[q].pc == ACCEPTED ensures q == b.acc {
      RunThreadlet(c, acts, q);
    }
    forall r | r in w.reqs && w.reqs[r].sqe.op.Accept? ensures w.reqs[r].sqe.data == Some(b.acc) {
      RunReq(c, acts, r);
    }
  }

  lemma AcceptAlive(c: Config, acts: seq<Action>)
    requires MsgSize(c.msgSize) && Run(c, acts).Some?
    ensures RunBook(c, acts).acc in Run(c, acts).value.heap && RunBook(c, acts).acc !in RunBook(c, acts).dead
  {
    RunInv(c, acts);
  }

  /** The threadlet whose buffer a message request uses. */
  lemma BufferUser(c: Config, w: World, b: Book, r: Rid)
    requires MsgSize(c.msgSize) && r in w.reqs && ReqOk(c, r, ViewOf(w, b, r))
    requires !w.reqs[r].sqe.op.Accept? && w.reqs[r].sqe.op.loc.Heap? && w.reqs[r].st.Started?
    requires w.reqs[r].sqe.op.Send? && r + 1 in w.reqs ==> ReqOk(c, r + 1, ViewOf(w, b, r + 1))
    ensures w.reqs[r].sqe.op.Recv? ==> Lookup(b.tok, w.reqs[r].sqe.op.loc.owner) == Some(r)
    ensures w.reqs[r].sqe.op.Send? ==>
              r + 1 in w.reqs && w.reqs[r + 1].st.Waiting? && Lookup(b.tok, w.reqs[r].sqe.op.loc.owner) == Some(r + 1)
  {
  }

  lemma RunBufferUser(c: Config, acts: seq<Action>, r: Rid)
    requires MsgSize(c.msgSize) && Run(c, acts).Some? && r in Run(c, acts).value.reqs
    requires var q := Run(c, acts).value.reqs[r]; q.st.Started? && !q.sqe.op.Accept? && q.sqe.op.loc.Heap?
    ensures var w, b := Run(c, acts).value, RunBook(c, acts);
            var op := w.reqs[r].sqe.op;
            && (op.Recv? ==> Lookup(b.tok, op.loc.owner) == Some(r))
            && (op.Send? ==> r + 1 in w.reqs && w.reqs[r + 1].st.Waiting? && Lookup(b.tok, op.loc.owner) == Some(r + 1))
  {
    var w, b := Run(c, acts).value, RunBook(c, acts);
    RunReq(c, acts, r);
    if r + 1 in w.reqs { RunReq(c, acts, r + 1); }
    BufferUser(c, w, b, r);
  }

  /** At most one request in progress touches a threadlet's buffer. */
  lemma BufferExclusive(c: Config, acts: seq<Action>, r: Rid, r': Rid)
    requires MsgSize(c.msgSize) && Run(c, acts).Some?
    requires var q := Run(c, acts).value.reqs; r in q && r' in q && q[r].st.Started? && q[r'].st.Started?
    requires var q := Run(c, acts).value.reqs; !q[r].sqe.op.Accept? && !q[r'].sqe.op.Accept?
    requires var q := Run(c, acts).value.reqs; q[r].sqe.op.loc.Heap? && q[r].sqe.op.loc == q[r'].sqe.op.loc
    ensures r == r'
  {
    RunBufferUser(c, acts, r);
    RunBufferUser(c, acts, r');
  }

  /** In the submission queue, a linked send is directly followed by the receive into the same buffer. */
  lemma LinkedSendIsPaired(c: Config, acts: seq<Action>, r: Rid)
    requires MsgSize(c.msgSize) && Run(c, acts).Some? && r in Run(c, acts).value.reqs
    requires Run(c, acts).value.reqs[r].st.Queued? && Run(c, acts).value.reqs[r].sqe.link
    ensures var q := Run(c, acts).value.reqs;
            && q[r].sqe.op.Send? && q[r].sqe.op.loc.Heap? && r + 1 in q && q[r + 1].st.Queued?
            && q[r + 1].sqe == Sqe(Recv(q[r].sqe.op.fd, q[r].sqe.op.loc, c.msgSize), Some(q[r].sqe.op.loc.owner), false)
  {
    var w, b := Run(c, acts).value, RunBook(c, acts);
    RunReq(c, acts, r);
    if r + 1 in w.reqs { RunReq(c, acts, r + 1); }
    PairedInQueue(c, w, b, r);
  }

  lemma PairedInQueue(c: Config, w: World, b: Book, r: Rid)
    requires MsgSize(c.msgSize) && r in w.reqs && ReqOk(c, r, ViewOf(w, b, r))
    requires w.reqs[r].st.Queued? && w.reqs[r].sqe.link
    requires r + 1 in w.reqs ==> ReqOk(c, r + 1, ViewOf(w, b, r + 1))
    ensures var q := w.reqs;
            && q[r].sqe.op.Send? && q[r].sqe.op.loc.Heap? && r + 1 in q && q[r + 1].st.Queued?
            && q[r + 1].sqe == Sqe(Recv(q[r].sqe.op.fd, q[r].sqe.op.loc, c.msgSize), Some(q[r].sqe.op.loc.owner), false)
  {
  }

  /** Whatever the kernel has started points at memory of a sufficient size, on an open connection. */
  lemma MemoryIsThere(c: Config, acts: seq<Action>, r: Rid)
    requires MsgSize(c.msgSize) && Run(c, acts).Some? && r in Run(c, acts).value.reqs
    requires var q := Run(c, acts).value.reqs[r]; q.st.Started? && !q.sqe.op.Accept?
    ensures var w := Run(c, acts).value;
            var op := w.reqs[r].sqe.op;
            op.fd in w.conns && op.loc in w.mem && op.len <= |w.mem[op.loc]|
  {
    var w, b := Run(c, acts).value, RunBook(c, acts);
    RunReq(c, acts, r);
    if r + 1 in w.reqs { RunReq(c, acts, r + 1); }
    RunKeys(c, acts);
    MemoryOf(c, w, b, r);
  }

  lemma RunKeys(c: Config, acts: seq<Action>)
    requires MsgSize(c.msgSize) && Run(c, acts).Some?
    ensures Keys(c, Run(c, acts).value, RunBook(c, acts)) && CqOk(Run(c, acts).value)
  {
    RunInv(c, acts);
  }

  lemma MemoryOf(c: Config, w: World, b: Book, r: Rid)
    requires MsgSize(c.msgSize) && r in w.reqs && ReqOk(c, r, ViewOf(w, b, r))
    requires w.reqs[r].st.Started? && !w.reqs[r].sqe.op.Accept?
    requires r + 1 in w.reqs ==> ReqOk(c, r + 1, ViewOf(w, b, r + 1))
    requires Keys(c, w, b)
    ensures var op := w.reqs[r].sqe.op;
            op.fd in w.conns && op.loc in w.mem && op.len <= |w.mem[op.loc]|
  {
  }

  /** The next completion can always be handled: its request and its threadlet exist. */
  lemma HandleReady(c: Config, acts: seq<Action>, junk: seq<byte>)
    requires MsgSize(c.msgSize) && Run(c, acts).Some? && |junk| == BUF_SIZE
    requires var w := Run(c, acts).value; w.exit == Running && w.inBatch && w.i < |w.cq|
    ensures Can(c, Run(c, acts).value, Handle(junk))
  {
    var w := Run(c, acts).value;
    RunKeys(c, acts);
    assert w.cq[w.i] in w.reqs;
    RunReq(c, acts, w.cq[w.i]);
    HasThreadlet(c, w, RunBook(c, acts), w.cq[w.i]);
    AcceptAlive(c, acts);
  }

  lemma HasThreadlet(c: Config, w: World, b: Book, r: Rid)
    requires MsgSize(c.msgSize) && r in w.reqs && ReqOk(c, r, ViewOf(w, b, r))
    ensures w.reqs[r].sqe.data.Some? ==> w.reqs[r].sqe.data.value in w.heap || w.reqs[r].sqe.data.value == b.acc
  {
  }
}
