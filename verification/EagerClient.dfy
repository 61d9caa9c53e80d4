/**
  When exactly the threadlet server can be told from simple.c. The send of the size header is linked to
  nothing, so the echo of a message that is complete before the header went out may overtake it.
*/
module EagerClient {
  import opened Wrappers
  import opened Bytes
  import opened EchoSpec
  import opened Threadlets
  import opened ThreadletTheorems
  import Sequential

  /** The client on `fd` never says more than `inp`, in however many instalments and at whatever moments;
      all others do what they like. */
  ghost predicate SaysWithin(c: Config, acts: seq<Action>, fd: int, inp: seq<byte>)
    requires MsgSize(c.msgSize) && Run(c, acts).Some?
    decreases acts
  {
    && (fd in Run(c, acts).value.conns ==> Run(c, acts).value.conns[fd].inp <= inp)
    && (acts == [] || SaysWithin(c, Front(acts), fd, inp))
  }

  /** A run `acts` that ends in `w`, with a client on `fd` that says no more than `inp`. */
  ghost predicate Reached(c: Config, acts: seq<Action>, w: World, fd: int, inp: seq<byte>)
    requires MsgSize(c.msgSize)
  {
    Run(c, acts) == Some(w) && SaysWithin(c, acts, fd, inp)
  }

  lemma Extend(c: Config, acts: seq<Action>, w: World, a: Action, fd: int, inp: seq<byte>)
    returns (acts': seq<Action>, w': World)
    requires MsgSize(c.msgSize) && Reached(c, acts, w, fd, inp) && Can(c, w, a)
    requires fd in Apply(c, w, a).conns ==> Apply(c, w, a).conns[fd].inp <= inp
    ensures w' == Apply(c, w, a) && Reached(c, acts', w', fd, inp)
  {
    acts', w' := acts + [a], Apply(c, w, a);
    RunExtend(c, acts, w, a);
  }

  /** The loop has gone through its batch and is about to submit; threadlet 0 serves `fd`. */
  ghost predicate Ready(w: World, fd: int, pc: Pc, buf: Loc, cn: Conn) {
    && w.exit == Running && w.inBatch && w.i == |w.cq| && w.queued <= 3
    && 0 in w.heap && w.heap[0] == Threadlet(pc, fd, buf)
    && fd in w.conns && w.conns[fd] == cn
    && (forall r :: r in w.reqs ==> r < w.next)
  }

  /** No byte of the header has gone out. */
  ghost predicate HeaderPending(c: Config, w: World, fd: int)
    requires MsgSize(c.msgSize)
  {
    && 0 !in w.reqs && 1 in w.reqs && w.reqs[1].sqe == Sqe(Send(fd, MsgSizeConv, 4), None, false)
    && (w.reqs[1].st == Queued || w.reqs[1].st == Started(0))
    && MsgSizeConv in w.mem && w.mem[MsgSizeConv] == Header(c.msgSize)
  }

  lemma AcceptStage(c: Config, fd: int, inp: seq<byte>, junk: seq<byte>) returns (acts: seq<Action>, w: World)
    requires MsgSize(c.msgSize) && fd >= 0 && fd != c.listenFd && |junk| == BUF_SIZE
    ensures Reached(c, acts, w, fd, inp) && HeaderPending(c, w, fd)
    ensures Ready(w, fd, RECEIVED_HEADER, Null, Conn(inp, 0, [], [], []))
    ensures w.next == 4 && 3 in w.reqs && w.reqs[3] == Req(Sqe(Recv(fd, HeaderBuf, 2), Some(0), false), Queued)
    ensures 2 in w.reqs && !w.reqs[2].sqe.link
    ensures HeaderBuf in w.mem && |w.mem[HeaderBuf]| == 2
  {
    acts, w := [], Init(c);
    acts, w := Extend(c, acts, w, Turn, fd, inp);
    acts, w := Extend(c, acts, w, Accepted(0, fd, inp), fd, inp);
    acts, w := Extend(c, acts, w, Wake, fd, inp);
    acts, w := Extend(c, acts, w, Handle(junk), fd, inp);
  }

  /** A receive that is queued for threadlet 0, and can be carried out in full. */
  ghost predicate Receivable(w: World, r: Rid) {
    && r in w.reqs && w.reqs[r].st == Queued && w.reqs[r].sqe.op.Recv? && r > 1
    && w.reqs[r].sqe.data == Some(0) && !w.reqs[r].sqe.link
    && (r - 1 in w.reqs ==> !w.reqs[r - 1].sqe.link)
    && var op := w.reqs[r].sqe.op;
       && op.fd in w.conns && op.loc in w.mem && op.len <= |w.mem[op.loc]| && op.loc != MsgSizeConv
       && w.conns[op.fd].taken + op.len <= |w.conns[op.fd].inp|
  }

  /** Submit, receive `len` bytes for request `r` in full, and wake up. */
  lemma ReceiveStage(c: Config, acts: seq<Action>, w: World, r: Rid, pc: Pc, buf: Loc, fd: int, inp: seq<byte>)
    returns (acts': seq<Action>, w': World)
    requires MsgSize(c.msgSize) && Reached(c, acts, w, fd, inp) && HeaderPending(c, w, fd)
    requires Receivable(w, r) && w.reqs[r].sqe.op.fd == fd && Ready(w, fd, pc, buf, w.conns[fd])
    ensures Reached(c, acts', w', fd, inp) && HeaderPending(c, w', fd) && Delivered(w, r, w')
  {
    var w1;
    acts', w1 := TurnStage(c, acts, w, r, fd, inp);
    var w2;
    acts', w2 := MoveStage(c, acts', w1, r, fd, inp);
    acts', w' := CompleteStage(c, acts', w2, r, fd, inp);
    StagesDeliver(c, w, w1, w2, r, fd, w');
  }

  /** The only completion is that of `r`, whose bytes are in memory; nothing else has changed but `reqs`. */
  ghost predicate Delivered(w: World, r: Rid, w': World)
    requires Receivable(w, r)
  {
    var op := w.reqs[r].sqe.op;
    var cn := w.conns[op.fd];
    && w' == w.(reqs := w'.reqs, queued := 0, cq := [r], i := 0, inBatch := true,
                conns := w.conns[op.fd := cn.(taken := cn.taken + op.len)],
                mem := w.mem[op.loc := Patch(w.mem[op.loc], 0, cn.inp[cn.taken..cn.taken + op.len])])
    && w'.reqs.Keys == w.reqs.Keys && w'.reqs[r] == Req(w.reqs[r].sqe, Posted(op.len))
  }

  lemma StagesDeliver(c: Config, w: World, w1: World, w2: World, r: Rid, fd: int, w': World)
    requires MsgSize(c.msgSize) && Receivable(w, r) && w.reqs[r].sqe.op.fd == fd && HeaderPending(c, w2, fd)
    requires w1 == w.(reqs := w1.reqs, queued := 0, cq := [], i := 0, inBatch := false)
    requires w1.reqs.Keys == w.reqs.Keys && w1.reqs[r] == Req(w.reqs[r].sqe, Started(0))
    requires var op := w1.reqs[r].sqe.op; var cn := w1.conns[fd];
             w2 == w1.(reqs := w1.reqs[r := Req(w1.reqs[r].sqe, Started(op.len))],
                       conns := w1.conns[fd := cn.(taken := cn.taken + op.len)],
                       mem := w1.mem[op.loc := Patch(w1.mem[op.loc], 0, cn.inp[cn.taken..cn.taken + op.len])])
    requires w' == w2.(reqs := w2.reqs[r := Req(w2.reqs[r].sqe, Posted(w2.reqs[r].sqe.op.len))], cq := w2.cq + [r],
                       inBatch := true)
    ensures HeaderPending(c, w', fd) && Delivered(w, r, w')
  {
  }

  lemma TurnStage(c: Config, acts: seq<Action>, w: World, r: Rid, fd: int, inp: seq<byte>)
    returns (acts': seq<Action>, w': World)
    requires MsgSize(c.msgSize) && Reached(c, acts, w, fd, inp) && HeaderPending(c, w, fd)
    requires w.exit == Running && w.inBatch && w.i == |w.cq| && Receivable(w, r)
    ensures Reached(c, acts', w', fd, inp) && HeaderPending(c, w', fd)
    ensures w' == w.(reqs := w'.reqs, queued := 0, cq := [], i := 0, inBatch := false)
    ensures w'.reqs.Keys == w.reqs.Keys && w'.reqs[r] == Req(w.reqs[r].sqe, Started(0))
  {
    acts', w' := Extend(c, acts, w, Turn, fd, inp);
    TurnKeepsHeader(c, w, fd, w');
  }

  lemma MoveStage(c: Config, acts: seq<Action>, w: World, r: Rid, fd: int, inp: seq<byte>)
    returns (acts': seq<Action>, w': World)
    requires MsgSize(c.msgSize) && Reached(c, acts, w, fd, inp) && w.exit == Running && HeaderPending(c, w, fd) && r > 1
    requires r in w.reqs && w.reqs[r].sqe.op.Recv? && w.reqs[r].sqe.op.fd == fd && w.reqs[r].st == Started(0)
    requires var op := w.reqs[r].sqe.op;
             && fd in w.conns && op.loc in w.mem && op.len <= |w.mem[op.loc]| && op.loc != MsgSizeConv
             && w.conns[fd].taken + op.len <= |w.conns[fd].inp|
    ensures Reached(c, acts', w', fd, inp) && HeaderPending(c, w', fd)
    ensures var op := w.reqs[r].sqe.op; var cn := w.conns[fd];
            w' == w.(reqs := w.reqs[r := Req(w.reqs[r].sqe, Started(op.len))],
                     conns := w.conns[fd := cn.(taken := cn.taken + op.len)],
                     mem := w.mem[op.loc := Patch(w.mem[op.loc], 0, cn.inp[cn.taken..cn.taken + op.len])])
  {
    MoveIs(c, w, r, fd);
    acts', w' := Extend(c, acts, w, Transfer(r, w.reqs[r].sqe.op.len), fd, inp);
  }

  lemma MoveIs(c: Config, w: World, r: Rid, fd: int)
    requires w.exit == Running && r in w.reqs && w.reqs[r].sqe.op.Recv? && w.reqs[r].sqe.op.fd == fd
    requires w.reqs[r].st == Started(0)
    requires var op := w.reqs[r].sqe.op;
             && fd in w.conns && op.loc in w.mem && op.len <= |w.mem[op.loc]|
             && w.conns[fd].taken + op.len <= |w.conns[fd].inp|
    ensures var op := w.reqs[r].sqe.op; var cn := w.conns[fd];
            && Can(c, w, Transfer(r, op.len))
            && Apply(c, w, Transfer(r, op.len)) ==
                 w.(reqs := w.reqs[r := Req(w.reqs[r].sqe, Started(op.len))],
                    conns := w.conns[fd := cn.(taken := cn.taken + op.len)],
                    mem := w.mem[op.loc := Patch(w.mem[op.loc], 0, cn.inp[cn.taken..cn.taken + op.len])])
  {
  }

  lemma TurnKeepsHeader(c: Config, w: World, fd: int, w': World)
    requires MsgSize(c.msgSize) && HeaderPending(c, w, fd) && w'.reqs == Submit(w.reqs) && w'.mem == w.mem
    ensures HeaderPending(c, w', fd) && w'.reqs[1].st == Started(0)
  {
  }

  lemma CompleteStage(c: Config, acts: seq<Action>, w: World, r: Rid, fd: int, inp: seq<byte>)
    returns (acts': seq<Action>, w': World)
    requires MsgSize(c.msgSize) && Reached(c, acts, w, fd, inp) && w.exit == Running && !w.inBatch && r in w.reqs
    requires !w.reqs[r].sqe.op.Accept? && !w.reqs[r].sqe.link && w.reqs[r].st == Started(w.reqs[r].sqe.op.len)
    ensures Reached(c, acts', w', fd, inp)
    ensures w' == w.(reqs := w.reqs[r := Req(w.reqs[r].sqe, Posted(w.reqs[r].sqe.op.len))], cq := w.cq + [r],
                     inBatch := true)
  {
    acts', w' := Extend(c, acts, w, Complete(r, w.reqs[r].sqe.op.len), fd, inp);
    acts', w' := Extend(c, acts', w', Wake, fd, inp);
  }

  lemma GreetingStage(c: Config, fd: int, inp: seq<byte>, junk: seq<byte>) returns (acts: seq<Action>, w: World)
    requires MsgSize(c.msgSize) && fd >= 0 && fd != c.listenFd && |junk| == BUF_SIZE && |inp| >= 2
    ensures Reached(c, acts, w, fd, inp) && HeaderPending(c, w, fd)
    ensures Ready(w, fd, RECEIVED_MSG, Heap(0), Conn(inp, 2, [], [], []))
    ensures w.next == 5 && 4 in w.reqs && 3 !in w.reqs
    ensures w.reqs[4] == Req(Sqe(Recv(fd, Heap(0), c.msgSize), Some(0), false), Queued)
    ensures Heap(0) in w.mem && |w.mem[Heap(0)]| == BUF_SIZE
  {
    acts, w := AcceptStage(c, fd, inp, junk);
    acts, w := ReceiveStage(c, acts, w, 3, RECEIVED_HEADER, Null, fd, inp);
    acts, w := Extend(c, acts, w, Handle(junk), fd, inp);
  }

  lemma MessageStage(c: Config, fd: int, inp: seq<byte>, junk: seq<byte>) returns (acts: seq<Action>, w: World)
    requires MsgSize(c.msgSize) && fd >= 0 && fd != c.listenFd && |junk| == BUF_SIZE && |inp| >= 2 + c.msgSize
    ensures Reached(c, acts, w, fd, inp) && HeaderPending(c, w, fd)
    ensures Ready(w, fd, RECEIVED_MSG, Heap(0), Conn(inp, 2 + c.msgSize, [], [], []))
    ensures 5 in w.reqs && w.reqs[5] == Req(Sqe(Send(fd, Heap(0), c.msgSize), None, true), Queued) && 4 !in w.reqs
    ensures Heap(0) in w.mem && |w.mem[Heap(0)]| == BUF_SIZE && w.mem[Heap(0)][..c.msgSize] == inp[2..2 + c.msgSize]
  {
    acts, w := GreetingStage(c, fd, inp, junk);
    acts, w := ReceiveStage(c, acts, w, 4, RECEIVED_MSG, Heap(0), fd, inp);
    acts, w := Extend(c, acts, w, Handle(junk), fd, inp);
  }

  /** For every client that completes a message before it was sent the size, there is a run in which the
      first `k` bytes of its echo are on the wire before the header, which then follows. */
  lemma EchoBeforeHeader(c: Config, fd: int, inp: seq<byte>, k: nat) returns (acts: seq<Action>)
    requires MsgSize(c.msgSize) && fd >= 0 && fd != c.listenFd && |inp| >= 2 + c.msgSize && k <= c.msgSize
    ensures Run(c, acts).Some? && SaysWithin(c, acts, fd, inp) && fd in Run(c, acts).value.conns
    ensures var cn := Run(c, acts).value.conns[fd];
            cn.inp == inp && cn.wire == inp[2..2 + k] + Header(c.msgSize)
  {
    var w;
    acts, w := MessageStage(c, fd, inp, seq(BUF_SIZE, _ => 0));
    ghost var w0 := w;
    acts, w := Extend(c, acts, w0, Turn, fd, inp);
    assert w.reqs[5].st == Started(0);
    TurnKeepsHeader(c, w0, fd, w);
    acts := OvertakeStage(c, acts, w, fd, inp, k);
  }

  lemma OvertakeStage(c: Config, acts: seq<Action>, w: World, fd: int, inp: seq<byte>, k: nat)
    returns (acts': seq<Action>)
    requires MsgSize(c.msgSize) && Reached(c, acts, w, fd, inp) && |inp| >= 2 + c.msgSize && k <= c.msgSize
    requires w.exit == Running && HeaderPending(c, w, fd) && w.reqs[1].st == Started(0)
    requires 5 in w.reqs && w.reqs[5] == Req(Sqe(Send(fd, Heap(0), c.msgSize), None, true), Started(0))
    requires fd in w.conns && w.conns[fd] == Conn(inp, 2 + c.msgSize, [], [], [])
    requires Heap(0) in w.mem && |w.mem[Heap(0)]| == BUF_SIZE && w.mem[Heap(0)][..c.msgSize] == inp[2..2 + c.msgSize]
    ensures Run(c, acts').Some? && SaysWithin(c, acts', fd, inp) && fd in Run(c, acts').value.conns
    ensures var cn := Run(c, acts').value.conns[fd];
            cn.inp == inp && cn.wire == inp[2..2 + k] + Header(c.msgSize)
  {
    EchoFirst(c, w, fd, inp, k);
    var w1;
    acts', w1 := Extend(c, acts, w, Transfer(5, k), fd, inp);
    HeaderThen(c, w1, fd);
    ghost var w2;
    acts', w2 := Extend(c, acts', w1, Transfer(1, 4), fd, inp);
  }

  lemma EchoFirst(c: Config, w: World, fd: int, inp: seq<byte>, k: nat)
    requires MsgSize(c.msgSize) && |inp| >= 2 + c.msgSize && k <= c.msgSize
    requires w.exit == Running && HeaderPending(c, w, fd) && w.reqs[1].st == Started(0)
    requires 5 in w.reqs && w.reqs[5] == Req(Sqe(Send(fd, Heap(0), c.msgSize), None, true), Started(0))
    requires fd in w.conns && w.conns[fd] == Conn(inp, 2 + c.msgSize, [], [], [])
    requires Heap(0) in w.mem && |w.mem[Heap(0)]| == BUF_SIZE && w.mem[Heap(0)][..c.msgSize] == inp[2..2 + c.msgSize]
    ensures Can(c, w, Transfer(5, k))
    ensures var w' := Apply(c, w, Transfer(5, k));
            && w'.exit == Running && HeaderPending(c, w', fd) && w'.reqs[1].st == Started(0)
            && fd in w'.conns && w'.conns[fd] == Conn(inp, 2 + c.msgSize, [], inp[2..2 + k], inp[2..2 + k])
  {
    SliceOfSlice(w.mem[Heap(0)], 0, c.msgSize, 0, k);
    SliceOfSlice(inp, 2, 2 + c.msgSize, 0, k);
  }

  lemma HeaderThen(c: Config, w: World, fd: int)
    requires MsgSize(c.msgSize) && w.exit == Running && HeaderPending(c, w, fd) && w.reqs[1].st == Started(0)
    requires fd in w.conns
    ensures Can(c, w, Transfer(1, 4))
    ensures var w' := Apply(c, w, Transfer(1, 4));
            && fd in w'.conns && w'.conns[fd].inp == w.conns[fd].inp
            && w'.conns[fd].wire == w.conns[fd].wire + Header(c.msgSize)
  {
    assert Header(c.msgSize)[0..4] == Header(c.msgSize);
  }

  /** One byte before the header is enough to give the server away: no header is constant. */
  lemma ShiftedHeader(n: nat, b: byte, inp: seq<byte>)
    requires MsgSize(n)
    ensures !([b] + Header(n) <= Allowed(n, inp))
  {
    var h, w, all := Header(n), [b] + Header(n), Allowed(n, inp);
    assert all[2] == h[2] && all[3] == h[3] && w[2] == h[1] && w[3] == h[2];
    assert h[1] == 0 && (h[2] != 0 || h[3] != 0);
  }

  /** Whatever an eager client says, there is a run that no run of simple.c looks like. */
  lemma EagerClientCanTell(c: Config, fd: int, inp: seq<byte>) returns (acts: seq<Action>)
    requires MsgSize(c.msgSize) && fd >= 0 && fd != c.listenFd && |inp| >= 2 + c.msgSize
    ensures Run(c, acts).Some? && SaysWithin(c, acts, fd, inp) && !Sequential.IsTrace(c.msgSize, Observed(c, acts, fd))
  {
    acts := EchoBeforeHeader(c, fd, inp, 1);
    var tr := Observed(c, acts, fd);
    Sequential.LawfulIffTrace(c.msgSize, tr);
    assert acts[..|acts|] == acts;
    assert inp[2..3] == [inp[2]];
    ShiftedHeader(c.msgSize, inp[2], inp);
    assert !LawfulAt(c.msgSize, tr, |acts|);
  }

  lemma {:induction false} BriefIsPolite(c: Config, acts: seq<Action>, fd: int, inp: seq<byte>)
    requires MsgSize(c.msgSize) && Run(c, acts).Some? && SaysWithin(c, acts, fd, inp) && |inp| < 2 + c.msgSize
    ensures Polite(c, acts, fd)
    decreases acts
  {
    if acts != [] {
      BriefIsPolite(c, Front(acts), fd, inp);
      var w, a := Run(c, Front(acts)).value, Last(acts);
      assert Apply(c, w, a) == Run(c, acts).value;
    }
  }

  /** Clients that send a prefix of `inp` without waiting, at once or in instalments, can never tell the two
      servers apart exactly when `inp` is less than a greeting and a message. */
  lemma RefinementIff(c: Config, fd: int, inp: seq<byte>)
    requires MsgSize(c.msgSize) && fd >= 0 && fd != c.listenFd
    ensures (forall acts :: Run(c, acts).Some? && SaysWithin(c, acts, fd, inp) ==>
               Sequential.IsTrace(c.msgSize, Observed(c, acts, fd)))
            <==> |inp| < 2 + c.msgSize
  {
    if |inp| < 2 + c.msgSize {
      forall acts | Run(c, acts).Some? && SaysWithin(c, acts, fd, inp)
        ensures Sequential.IsTrace(c.msgSize, Observed(c, acts, fd))
      {
        BriefIsPolite(c, acts, fd, inp);
        RefinesSequential(c, acts, fd);
      }
    } else {
      var acts := EagerClientCanTell(c, fd, inp);
    }
  }
}
