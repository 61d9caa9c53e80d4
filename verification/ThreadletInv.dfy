/** The invariant of the threadlet machine, and its preservation by every action. */
module ThreadletInv {
  import opened Wrappers
  import opened Bytes
  import opened EchoSpec
  import opened Threadlets

  /** Bookkeeping beside a run: the current request of each threadlet (`tok`), the threadlet serving
      each connection (`own`), the request announcing the size on each connection (`hdr`), the
      threadlet waiting in accept (`acc`), and the threadlets that were dropped after a failure. */
  datatype Book = Book(tok: map<Ptr, Rid>, own: map<int, Ptr>, hdr: map<int, Rid>, acc: Ptr, dead: set<Ptr>)

  const INIT_BOOK := Book(map[0 := 0], map[], map[], 0, {})

  function NextBook(c: Config, w: World, b: Book, a: Action): Book
    requires Can(c, w, a)
  {
    match a
    case Accepted(r, fd, early) => b.(own := b.own[fd := b.acc])
    case Handle(junk) =>
      var w' := Apply(c, w, a);
      var q := w.reqs[w.cq[w.i]];
      if w'.exit != Running || q.sqe.data.None? then b
      else
        var p := q.sqe.data.value;
        if w'.next == w.next then b.(dead := b.dead + {p})
        else if w.heap[p].pc == ACCEPTED then
          b.(tok := b.tok[w.brk := w.next + 1][p := w.next + 2], hdr := b.hdr[q.st.res := w.next], acc := w.brk)
        else b.(tok := b.tok[p := w'.next - 1])
    case _ => b
  }

  // ---------- what one request is tied to ----------

  /** Everything the invariant says about a request depends on this much of the state: the requests
      before and after it, its threadlet, its connection, its buffer, and the bookkeeping about it. */
  datatype View = View(
    q: Req, prev: Option<Req>, nxt: Option<Req>,
    t: Option<Threadlet>, cn: Option<Conn>, buf: Option<seq<byte>>,
    isTok: bool, isAcc: bool, isOwn: bool, hdr: Option<Rid>)

  function Lookup<K, V>(m: map<K, V>, k: K): Option<V> {
    if k in m then Some(m[k]) else None
  }

  /** The connection a request is about; for a completed accept, the new connection. */
  function FdOf(q: Req): int {
    if q.sqe.op.Accept? && q.st.Posted? then q.st.res else q.sqe.op.fd
  }

  function ViewOf(w: World, b: Book, r: Rid): View
    requires r in w.reqs
  {
    var q := w.reqs[r];
    View(q, if r > 0 then Lookup(w.reqs, r - 1) else None, Lookup(w.reqs, r + 1),
         if q.sqe.data.Some? then Lookup(w.heap, q.sqe.data.value) else None,
         Lookup(w.conns, FdOf(q)),
         if q.sqe.op.Accept? then None else Lookup(w.mem, q.sqe.op.loc),
         q.sqe.data.Some? && Lookup(b.tok, q.sqe.data.value) == Some(r),
         q.sqe.data == Some(b.acc),
         q.sqe.data.Some? && Lookup(b.own, FdOf(q)) == q.sqe.data,
         Lookup(b.hdr, FdOf(q)))
  }

  /** The request before this one is a linked send that is not finished. */
  ghost predicate HasSend(v: View) {
    && v.prev.Some? && v.prev.value.sqe.link && v.prev.value.sqe.op.Send?
    && (v.prev.value.st.Queued? || v.prev.value.st.Started?)
  }

  ghost function Done(st: Status): nat {
    if st.Started? then st.done else 0
  }

  ghost predicate AcceptOk(c: Config, v: View) {
    && v.q.sqe.op.fd == c.listenFd && !v.q.sqe.link && v.isAcc && v.isTok
    && (v.q.st == Queued || v.q.st == Started(0) || v.q.st.Posted?)
    && (v.q.st.Posted? && v.q.st.res >= 0 ==>
          v.isOwn && v.hdr.None? && v.cn.Some?
          && v.cn.value.taken == 0 && v.cn.value.hdr == [] && v.cn.value.echoed == [])
  }

  ghost predicate SendOk(c: Config, r: Rid, v: View)
    requires MsgSize(c.msgSize) && v.q.sqe.op.Send?
  {
    var op := v.q.sqe.op;
    && v.q.sqe.data.None? && v.cn.Some? && !v.q.st.Waiting? && !v.q.st.Cancelled?
    && Done(v.q.st) <= op.len
    && if op.loc == MsgSizeConv then
         && op.len == 4 && !v.q.sqe.link && v.hdr == Some(r)
         && (v.q.st.Queued? || v.q.st.Started? ==> v.cn.value.hdr == Header(c.msgSize)[..Done(v.q.st)])
       else
         && op.loc.Heap? && op.len == c.msgSize && v.q.sqe.link
         && (v.q.st.Queued? || v.q.st.Started? ==>
               && v.nxt.Some? && v.nxt.value.sqe.op == Recv(op.fd, op.loc, op.len)
               && v.nxt.value.st == (if v.q.st.Queued? then Queued else Waiting))
  }

  ghost predicate GreetingOk(c: Config, v: View)
    requires v.q.sqe.op.Recv? && v.cn.Some? && v.t.Some?
  {
    && v.q.sqe.op.len == 2 && v.t.value.pc == RECEIVED_HEADER && !v.q.st.Waiting? && !v.q.st.Cancelled?
    && |v.cn.value.echoed| == 0
    && (v.q.st.Queued? || v.q.st.Started? ==> v.cn.value.taken == Done(v.q.st))
    && (v.q.st.Posted? && v.q.st.res >= 2 ==> v.cn.value.taken == 2)
  }

  ghost predicate MessageOk(c: Config, v: View)
    requires MsgSize(c.msgSize) && v.q.sqe.op.Recv? && v.cn.Some? && v.t.Some? && v.q.sqe.data.Some?
  {
    var op := v.q.sqe.op;
    && op == Recv(op.fd, Heap(v.q.sqe.data.value), c.msgSize)
    && v.t.value == Threadlet(RECEIVED_MSG, op.fd, op.loc)
    && v.buf.Some? && |v.buf.value| == BUF_SIZE
    && (v.q.st.Waiting? ==> HasSend(v))
    && if (v.q.st.Queued? || v.q.st.Waiting?) && HasSend(v) then
         Replying(c, v.cn.value, v.buf.value, Done(v.prev.value.st))
       else if v.q.st.Queued? || v.q.st.Started? then
         Receiving(c, v.cn.value, v.buf.value, Done(v.q.st))
       else
         v.q.st.Posted? && v.q.st.res >= c.msgSize ==> Receiving(c, v.cn.value, v.buf.value, c.msgSize)
  }

  ghost predicate RecvOk(c: Config, v: View)
    requires MsgSize(c.msgSize) && v.q.sqe.op.Recv?
  {
    && !v.q.sqe.link && v.q.sqe.data.Some? && v.t.Some? && v.cn.Some?
    && v.isTok && !v.isAcc && v.isOwn && v.t.value.fd == v.q.sqe.op.fd
    && Done(v.q.st) <= v.q.sqe.op.len
    && if v.q.sqe.op.loc == HeaderBuf then GreetingOk(c, v) else MessageOk(c, v)
  }

  /** All earlier messages are echoed; `d` bytes of the next one are in the buffer. */
  ghost predicate Receiving(c: Config, cn: Conn, buf: seq<byte>, d: nat)
    requires MsgSize(c.msgSize)
  {
    var e := |cn.echoed|;
    && Aligned(e, c.msgSize) && d <= c.msgSize <= |buf| && cn.taken == 2 + e + d && cn.taken <= |cn.inp|
    && buf[..d] == cn.inp[2 + e..cn.taken]
  }

  /** The buffer holds a whole message, of which `d` bytes are echoed. */
  ghost predicate Replying(c: Config, cn: Conn, buf: seq<byte>, d: nat)
    requires MsgSize(c.msgSize)
  {
    var e := |cn.echoed| - d;
    && Aligned(e, c.msgSize) && d <= c.msgSize <= |buf| && cn.taken == 2 + e + c.msgSize && cn.taken <= |cn.inp|
    && buf[..c.msgSize] == cn.inp[2 + e..cn.taken]
  }

  ghost predicate ReqOk(c: Config, r: Rid, v: View)
    requires MsgSize(c.msgSize)
  {
    match v.q.sqe.op
    case Accept(_) => AcceptOk(c, v)
    case Send(_, _, _) => SendOk(c, r, v)
    case Recv(_, _, _) => RecvOk(c, v)
  }

  // ---------- the invariant ----------

  ghost predicate ConnOk(c: Config, w: World, b: Book, fd: int)
    requires MsgSize(c.msgSize) && fd in w.conns
  {
    var cn := w.conns[fd];
    && fd in b.own && b.own[fd] in w.heap
    && cn.taken <= |cn.inp| && cn.echoed <= Echoable(c.msgSize, cn.inp) && cn.hdr <= Header(c.msgSize)
  }

  ghost predicate ThreadletOk(w: World, b: Book, p: Ptr)
    requires p in w.heap
  {
    && p < w.brk && p in b.tok && b.tok[p] < w.next
    && (w.heap[p].pc == ACCEPTED <==> p == b.acc)
    && (p !in b.dead ==> b.tok[p] in w.reqs && w.reqs[b.tok[p]].sqe.data == Some(p))
    && (p in b.dead ==> b.tok[p] !in w.reqs)
  }

  ghost predicate CqOk(w: World) {
    && w.i <= |w.cq|
    && (forall j :: w.i <= j < |w.cq| ==> w.cq[j] in w.reqs && w.reqs[w.cq[j]].st.Posted?)
    && (forall j, k :: w.i <= j < k < |w.cq| ==> w.cq[j] != w.cq[k])
    && (forall r :: r in w.reqs && w.reqs[r].st.Queued? ==> w.inBatch)
    && (!w.inBatch ==> w.i == 0)
  }

  ghost predicate Keys(c: Config, w: World, b: Book)
    requires MsgSize(c.msgSize)
  {
    && b.acc in w.heap && b.acc !in b.dead && b.dead <= w.heap.Keys
    && (forall r :: r in w.reqs ==> r < w.next)
    && (forall fd :: fd in b.hdr ==> b.hdr[fd] < w.next && fd in w.conns)
    && MsgSizeConv in w.mem && w.mem[MsgSizeConv] == Header(c.msgSize)
    && HeaderBuf in w.mem && |w.mem[HeaderBuf]| == 2
  }

  ghost predicate ReqsOk(c: Config, w: World, b: Book)
    requires MsgSize(c.msgSize)
  {
    forall r :: r in w.reqs ==> ReqOk(c, r, ViewOf(w, b, r))
  }

  ghost predicate ConnsOk(c: Config, w: World, b: Book)
    requires MsgSize(c.msgSize)
  {
    forall fd :: fd in w.conns ==> ConnOk(c, w, b, fd)
  }

  ghost predicate ThreadletsOk(w: World, b: Book) {
    forall p :: p in w.heap ==> ThreadletOk(w, b, p)
  }

  ghost predicate Inv(c: Config, w: World, b: Book)
    requires MsgSize(c.msgSize)
  {
    Keys(c, w, b) && CqOk(w) && ThreadletsOk(w, b) && ConnsOk(c, w, b) && ReqsOk(c, w, b)
  }

  lemma InitInv(c: Config)
    requires MsgSize(c.msgSize)
    ensures Inv(c, Init(c), INIT_BOOK)
  {
  }

  /** Two views that differ only in what does not matter for the request. */
  ghost predicate Similar(v: View, v': View) {
    && v' == v.(prev := v'.prev, nxt := v'.nxt, cn := v'.cn, buf := v'.buf, hdr := v'.hdr)
    && (v'.hdr == v.hdr || v.q.sqe.op.Recv? || (v.q.sqe.op.Send? && v.q.sqe.link)
        || (v.q.sqe.op.Accept? && !v.q.st.Posted?))
    && (v.q.sqe.op.Accept? && v.q.st.Posted? && v.q.st.res >= 0 ==> v'.cn == v.cn)
    && (v.q.sqe.op.Send? && v.cn.Some? ==> v'.cn.Some? && v'.cn.value.hdr == v.cn.value.hdr)
    && (v.q.sqe.op.Send? && v.q.sqe.link && !v.q.st.Posted? ==> v'.nxt == v.nxt)
    && (v.q.sqe.op.Recv? && v.cn.Some? ==>
          v'.cn.Some? && v'.cn.value.(hdr := v.cn.value.hdr, wire := v.cn.value.wire) == v.cn.value)
    && (v.q.sqe.op.Recv? && v.q.sqe.op.loc != HeaderBuf ==> v'.buf == v.buf)
    && (v.q.sqe.op.Recv? ==> (HasSend(v) <==> HasSend(v')) && (HasSend(v) ==> v'.prev.value.st == v.prev.value.st))
  }

  lemma SimilarOk(c: Config, r: Rid, v: View, v': View)
    requires MsgSize(c.msgSize) && ReqOk(c, r, v) && Similar(v, v')
    ensures ReqOk(c, r, v')
  {
  }

  // ---------- Turn ----------

  /** Submission seen from one request; a queued request waits exactly behind a queued linked one. */
  lemma TurnReq(c: Config, w: World, b: Book, w': World, r: Rid)
    requires MsgSize(c.msgSize) && Can(c, w, Turn) && r in w.reqs && w' == Apply(c, w, Turn)
    requires ReqOk(c, r, ViewOf(w, b, r))
    requires r > 0 && r - 1 in w.reqs ==> ReqOk(c, r - 1, ViewOf(w, b, r - 1))
    requires r > 1 && r - 2 in w.reqs ==> ReqOk(c, r - 2, ViewOf(w, b, r - 2))
    ensures ReqOk(c, r, ViewOf(w', b, r))
  {
    var v, v' := ViewOf(w, b, r), ViewOf(w', b, r);
    assert v' == v.(q := v'.q, prev := v'.prev, nxt := v'.nxt);
  }

  lemma TurnReqs(c: Config, w: World, b: Book, w': World)
    requires MsgSize(c.msgSize) && ReqsOk(c, w, b) && Can(c, w, Turn) && w' == Apply(c, w, Turn)
    ensures ReqsOk(c, w', b)
  {
    forall r | r in w'.reqs
      ensures ReqOk(c, r, ViewOf(w', b, r))
    {
      TurnReq(c, w, b, w', r);
    }
  }

  lemma TurnRest(c: Config, w: World, b: Book, w': World)
    requires MsgSize(c.msgSize) && Can(c, w, Turn) && w' == Apply(c, w, Turn)
    requires Keys(c, w, b) && CqOk(w) && ThreadletsOk(w, b) && ConnsOk(c, w, b)
    ensures Keys(c, w', b) && CqOk(w') && ThreadletsOk(w', b) && ConnsOk(c, w', b)
  {
  }

  lemma TurnInv(c: Config, w: World, b: Book, w': World)
    requires MsgSize(c.msgSize) && Inv(c, w, b) && Can(c, w, Turn) && w' == Apply(c, w, Turn)
    ensures Inv(c, w', b)
  {
    TurnReqs(c, w, b, w');
    TurnRest(c, w, b, w');
  }

  // ---------- ClientSend ----------

  lemma MoreInput(c: Config, r: Rid, v: View, bytes: seq<byte>)
    requires MsgSize(c.msgSize) && ReqOk(c, r, v) && v.cn.Some? && v.cn.value.taken <= |v.cn.value.inp|
    ensures ReqOk(c, r, v.(cn := Some(v.cn.value.(inp := v.cn.value.inp + bytes))))
  {
    if v.q.sqe.op.Recv? && v.q.sqe.op.loc != HeaderBuf {
      MoreInputMessage(c, v, bytes);
    }
  }

  lemma MoreInputMessage(c: Config, v: View, bytes: seq<byte>)
    requires MsgSize(c.msgSize) && v.q.sqe.op.Recv? && v.q.sqe.op.loc != HeaderBuf && RecvOk(c, v)
    ensures RecvOk(c, v.(cn := Some(v.cn.value.(inp := v.cn.value.inp + bytes))))
  {
    var cn := v.cn.value;
    if cn.taken <= |cn.inp| && 2 + |cn.echoed| <= cn.taken {
      SliceOfPrefix(cn.inp, bytes, 2 + |cn.echoed|, cn.taken);
    }
    if (v.q.st.Queued? || v.q.st.Waiting?) && HasSend(v) {
      SliceOfPrefix(cn.inp, bytes, 2 + |cn.echoed| - Done(v.prev.value.st), cn.taken);
    }
  }

  lemma ClientSendReq(c: Config, w: World, b: Book, fd: int, bytes: seq<byte>, w': World, r: Rid)
    requires MsgSize(c.msgSize) && Can(c, w, ClientSend(fd, bytes)) && r in w.reqs
    requires w' == Apply(c, w, ClientSend(fd, bytes)) && w.conns[fd].taken <= |w.conns[fd].inp|
    requires ReqOk(c, r, ViewOf(w, b, r))
    ensures ReqOk(c, r, ViewOf(w', b, r))
  {
    var v, v' := ViewOf(w, b, r), ViewOf(w', b, r);
    if FdOf(v.q) == fd {
      MoreInput(c, r, v, bytes);
      assert v' == v.(cn := Some(v.cn.value.(inp := v.cn.value.inp + bytes)));
    } else {
      assert v' == v;
    }
  }

  lemma ClientSendReqs(c: Config, w: World, b: Book, fd: int, bytes: seq<byte>, w': World)
    requires MsgSize(c.msgSize) && ReqsOk(c, w, b) && Can(c, w, ClientSend(fd, bytes))
    requires w' == Apply(c, w, ClientSend(fd, bytes)) && w.conns[fd].taken <= |w.conns[fd].inp|
    ensures ReqsOk(c, w', b)
  {
    forall r | r in w'.reqs
      ensures ReqOk(c, r, ViewOf(w', b, r))
    {
      ClientSendReq(c, w, b, fd, bytes, w', r);
    }
  }

  lemma ClientSendRest(c: Config, w: World, b: Book, fd: int, bytes: seq<byte>, w': World)
    requires MsgSize(c.msgSize) && Can(c, w, ClientSend(fd, bytes)) && w' == Apply(c, w, ClientSend(fd, bytes))
    requires Keys(c, w, b) && CqOk(w) && ThreadletsOk(w, b) && ConnsOk(c, w, b)
    ensures Keys(c, w', b) && CqOk(w') && ThreadletsOk(w', b) && ConnsOk(c, w', b)
  {
    EchoableMonotone(c.msgSize, w.conns[fd].inp, w'.conns[fd].inp);
    forall f | f in w'.conns ensures ConnOk(c, w', b, f) {
      assert ConnOk(c, w, b, f);
    }
  }

  lemma ClientSendInv(c: Config, w: World, b: Book, fd: int, bytes: seq<byte>, w': World)
    requires MsgSize(c.msgSize) && Inv(c, w, b) && Can(c, w, ClientSend(fd, bytes))
    requires w' == Apply(c, w, ClientSend(fd, bytes))
    ensures Inv(c, w', b)
  {
    assert ConnOk(c, w, b, fd);
    ClientSendReqs(c, w, b, fd, bytes, w');
    ClientSendRest(c, w, b, fd, bytes, w');
  }

  // ---------- Transfer ----------

  /** The connection after a request has moved `k` more bytes. */
  function Moved(w: World, r: Rid, k: nat): Conn
    requires CanTransfer(w, r, k)
  {
    ApplyTransfer(w, r, k).conns[w.reqs[r].sqe.op.fd]
  }

  ghost predicate CanReceive(v: View, k: nat) {
    && v.q.sqe.op.Recv? && v.q.st.Started? && v.q.st.done + k <= v.q.sqe.op.len
    && v.cn.Some? && v.cn.value.taken + k <= |v.cn.value.inp|
    && v.buf.Some? && v.q.sqe.op.len <= |v.buf.value|
  }

  ghost function Received(v: View, k: nat): View
    requires CanReceive(v, k)
  {
    var d, cn := v.q.st.done, v.cn.value;
    v.(q := Req(v.q.sqe, Started(d + k)), cn := Some(cn.(taken := cn.taken + k)),
       buf := Some(Patch(v.buf.value, d, cn.inp[cn.taken..cn.taken + k])))
  }

  lemma MoreReceived(c: Config, r: Rid, v: View, k: nat)
    requires MsgSize(c.msgSize) && CanReceive(v, k) && ReqOk(c, r, v)
    ensures ReqOk(c, r, Received(v, k))
  {
    if v.q.sqe.op.loc != HeaderBuf {
      ReceivingMore(c, v.cn.value, v.buf.value, v.q.st.done, k);
    }
  }

  lemma ReceivingMore(c: Config, cn: Conn, buf: seq<byte>, d: nat, k: nat)
    requires MsgSize(c.msgSize) && Receiving(c, cn, buf, d) && d + k <= c.msgSize && cn.taken + k <= |cn.inp|
    ensures Receiving(c, cn.(taken := cn.taken + k), Patch(buf, d, cn.inp[cn.taken..cn.taken + k]), d + k)
  {
    PatchExtends(buf, d, cn.inp[cn.taken..cn.taken + k]);
    SliceJoin(cn.inp, 2 + |cn.echoed|, cn.taken, cn.taken + k);
  }

  lemma TransferRecvView(w: World, b: Book, r: Rid, k: nat, w': World)
    requires CanTransfer(w, r, k) && w' == ApplyTransfer(w, r, k) && w.reqs[r].sqe.op.Recv?
    ensures CanReceive(ViewOf(w, b, r), k) && ViewOf(w', b, r) == Received(ViewOf(w, b, r), k)
  {
  }

  /** Two requests that receive on the same connection, or one that does and a fresh accept, are one. */
  lemma SameOwner(c: Config, w: World, b: Book, r: Rid, r': Rid)
    requires MsgSize(c.msgSize) && r in w.reqs && r' in w.reqs
    requires ReqOk(c, r, ViewOf(w, b, r)) && ReqOk(c, r', ViewOf(w, b, r'))
    requires w.reqs[r].sqe.op.Recv? && FdOf(w.reqs[r]) == FdOf(w.reqs[r'])
    ensures w.reqs[r'].sqe.op.Recv? ==> r == r'
    ensures !(w.reqs[r'].sqe.op.Accept? && w.reqs[r'].st.Posted? && w.reqs[r'].st.res >= 0)
  {
  }

  lemma TransferRecvSelf(c: Config, w: World, b: Book, r: Rid, k: nat, w': World)
    requires MsgSize(c.msgSize) && CanTransfer(w, r, k) && w' == ApplyTransfer(w, r, k)
    requires w.reqs[r].sqe.op.Recv? && ReqOk(c, r, ViewOf(w, b, r))
    ensures ReqOk(c, r, ViewOf(w', b, r))
  {
    TransferRecvView(w, b, r, k, w');
    MoreReceived(c, r, ViewOf(w, b, r), k);
  }

  lemma TransferRecvReq(c: Config, w: World, b: Book, r0: Rid, k: nat, w': World, r: Rid)
    requires MsgSize(c.msgSize) && CanTransfer(w, r0, k) && w' == ApplyTransfer(w, r0, k) && r in w.reqs
    requires w.reqs[r0].sqe.op.Recv? && r != r0
    requires ReqOk(c, r0, ViewOf(w, b, r0)) && ReqOk(c, r, ViewOf(w, b, r))
    ensures ReqOk(c, r, ViewOf(w', b, r))
  {
    if FdOf(w.reqs[r]) == FdOf(w.reqs[r0]) { SameOwner(c, w, b, r0, r); }
    SimilarOk(c, r, ViewOf(w, b, r), ViewOf(w', b, r));
  }

  lemma TransferHeaderReq(c: Config, w: World, b: Book, r0: Rid, k: nat, w': World, r: Rid)
    requires MsgSize(c.msgSize) && CanTransfer(w, r0, k) && w' == ApplyTransfer(w, r0, k) && r in w.reqs
    requires w.reqs[r0].sqe.op.Send? && w.reqs[r0].sqe.op.loc == MsgSizeConv
    requires w.mem[MsgSizeConv] == Header(c.msgSize)
    requires ReqOk(c, r0, ViewOf(w, b, r0)) && ReqOk(c, r, ViewOf(w, b, r))
    ensures ReqOk(c, r, ViewOf(w', b, r))
  {
    var v, v' := ViewOf(w, b, r), ViewOf(w', b, r);
    if r == r0 {
      var h, d := Header(c.msgSize), v.q.st.done;
      assert v' == v.(q := Req(v.q.sqe, Started(d + k)), cn := Some(Moved(w, r0, k)));
      assert h[..d] + h[d..d + k] == h[..d + k];
    } else if w.reqs[r].sqe.op.Send? && w.reqs[r].sqe.op.loc == MsgSizeConv {
      assert FdOf(w.reqs[r]) != FdOf(w.reqs[r0]);
      SimilarOk(c, r, v, v');
    } else if w.reqs[r].sqe.op.Send? {
      assert v' == v.(prev := v'.prev, nxt := v'.nxt, cn := v'.cn);
    } else {
      SimilarOk(c, r, v, v');
    }
  }

  /** A started send of a message buffer, and the receive linked behind it. */
  ghost predicate Pair(c: Config, w: World, b: Book, r: Rid)
    requires MsgSize(c.msgSize)
  {
    && r in w.reqs && r + 1 in w.reqs
    && w.reqs[r].sqe.op.Send? && w.reqs[r].sqe.op.loc != MsgSizeConv
    && ReqOk(c, r, ViewOf(w, b, r)) && ReqOk(c, r + 1, ViewOf(w, b, r + 1))
  }

  lemma MoreReplied(c: Config, w: World, b: Book, r: Rid, k: nat)
    requires MsgSize(c.msgSize) && CanTransfer(w, r, k) && Pair(c, w, b, r)
    ensures w.reqs[r + 1].sqe.op == Recv(w.reqs[r].sqe.op.fd, w.reqs[r].sqe.op.loc, c.msgSize)
    ensures Replying(c, Moved(w, r, k), w.mem[w.reqs[r].sqe.op.loc], w.reqs[r].st.done + k)
    ensures Moved(w, r, k).echoed == w.conns[w.reqs[r].sqe.op.fd].echoed
                                     + w.mem[w.reqs[r].sqe.op.loc][w.reqs[r].st.done..w.reqs[r].st.done + k]
  {
    var v := ViewOf(w, b, r + 1);
    assert HasSend(v);
  }

  lemma TransferEchoReq(c: Config, w: World, b: Book, r0: Rid, k: nat, w': World, r: Rid)
    requires MsgSize(c.msgSize) && CanTransfer(w, r0, k) && w' == ApplyTransfer(w, r0, k) && r in w.reqs
    requires Pair(c, w, b, r0) && ReqOk(c, r, ViewOf(w, b, r))
    ensures ReqOk(c, r, ViewOf(w', b, r))
  {
    if r == r0 + 1 {
      TransferEchoNext(c, w, b, r0, k, w');
    } else {
      TransferEchoOther(c, w, b, r0, k, w', r);
    }
  }

  /** The receive that waits for the echo. */
  lemma TransferEchoNext(c: Config, w: World, b: Book, r0: Rid, k: nat, w': World)
    requires MsgSize(c.msgSize) && CanTransfer(w, r0, k) && w' == ApplyTransfer(w, r0, k) && Pair(c, w, b, r0)
    ensures ReqOk(c, r0 + 1, ViewOf(w', b, r0 + 1))
  {
    var v, v' := ViewOf(w, b, r0 + 1), ViewOf(w', b, r0 + 1);
    MoreReplied(c, w, b, r0, k);
    assert v' == v.(prev := v'.prev, nxt := v'.nxt, cn := Some(Moved(w, r0, k)));
    assert HasSend(v');
  }

  lemma TransferEchoOther(c: Config, w: World, b: Book, r0: Rid, k: nat, w': World, r: Rid)
    requires MsgSize(c.msgSize) && CanTransfer(w, r0, k) && w' == ApplyTransfer(w, r0, k) && r in w.reqs
    requires Pair(c, w, b, r0) && ReqOk(c, r, ViewOf(w, b, r)) && r != r0 + 1
    ensures ReqOk(c, r, ViewOf(w', b, r))
  {
    var v, v' := ViewOf(w, b, r), ViewOf(w', b, r);
    if FdOf(w.reqs[r]) == FdOf(w.reqs[r0]) { SameOwner(c, w, b, r0 + 1, r); }
    assert v' == v.(q := v'.q, prev := v'.prev, nxt := v'.nxt, cn := v'.cn);
  }

  lemma TransferReqs(c: Config, w: World, b: Book, r0: Rid, k: nat, w': World)
    requires MsgSize(c.msgSize) && ReqsOk(c, w, b) && CanTransfer(w, r0, k) && w' == ApplyTransfer(w, r0, k)
    requires MsgSizeConv in w.mem && w.mem[MsgSizeConv] == Header(c.msgSize)
    ensures ReqsOk(c, w', b)
  {
    assert ReqOk(c, r0, ViewOf(w, b, r0));
    var op := w.reqs[r0].sqe.op;
    forall r | r in w'.reqs
      ensures ReqOk(c, r, ViewOf(w', b, r))
    {
      assert r in w.reqs;
      if op.Recv? {
        if r == r0 {
          TransferRecvSelf(c, w, b, r, k, w');
        } else {
          TransferRecvReq(c, w, b, r0, k, w', r);
        }
      } else if op.loc == MsgSizeConv {
        TransferHeaderReq(c, w, b, r0, k, w', r);
      } else {
        TransferEchoReq(c, w, b, r0, k, w', r);
      }
    }
  }

  /** What an echo has put on the wire is what the client may already be sent. */
  lemma EchoIsDue(c: Config, w: World, b: Book, r: Rid, k: nat)
    requires MsgSize(c.msgSize) && CanTransfer(w, r, k) && Pair(c, w, b, r)
    requires var cn := w.conns[w.reqs[r].sqe.op.fd]; cn.echoed <= Echoable(c.msgSize, cn.inp)
    ensures Moved(w, r, k).echoed <= Echoable(c.msgSize, Moved(w, r, k).inp)
  {
    var v := ViewOf(w, b, r + 1);
    assert HasSend(v);
    var cn, d, buf := w.conns[w.reqs[r].sqe.op.fd], w.reqs[r].st.done, w.mem[w.reqs[r].sqe.op.loc];
    EchoContinues(c, cn, buf, d, k);
  }

  lemma EchoContinues(c: Config, cn: Conn, buf: seq<byte>, d: nat, k: nat)
    requires MsgSize(c.msgSize) && Replying(c, cn, buf, d) && d + k <= c.msgSize
    requires cn.echoed <= Echoable(c.msgSize, cn.inp)
    ensures cn.echoed + buf[d..d + k] <= Echoable(c.msgSize, cn.inp)
  {
    var base := |cn.echoed| - d;
    SliceOfSlice(buf, 0, c.msgSize, d, d + k);
    SliceOfSlice(cn.inp, 2 + base, cn.taken, d, d + k);
    PrefixGrows(c.msgSize, cn.inp, cn.echoed, base, d, k);
  }

  lemma PrefixGrows(n: nat, inp: seq<byte>, echoed: seq<byte>, base: nat, d: nat, k: nat)
    requires MsgSize(n) && Aligned(base, n) && d + k <= n && 2 + base + n <= |inp| && |echoed| == base + d
    requires echoed <= Echoable(n, inp)
    ensures echoed + inp[2 + base + d..2 + base + d + k] <= Echoable(n, inp)
  {
    EchoableReaches(n, inp, base, d + k);
    var e := inp[2..2 + base + d + k];
    assert echoed == Echoable(n, inp)[..base + d] == e[..base + d];
    assert e[..base + d] + inp[2 + base + d..2 + base + d + k] == e;
  }

  lemma TransferConn(c: Config, w: World, b: Book, r: Rid, k: nat)
    requires MsgSize(c.msgSize) && ReqsOk(c, w, b) && CanTransfer(w, r, k) && Keys(c, w, b)
    requires ConnOk(c, w, b, w.reqs[r].sqe.op.fd)
    ensures ConnOk(c, ApplyTransfer(w, r, k), b, w.reqs[r].sqe.op.fd)
  {
    var op := w.reqs[r].sqe.op;
    assert ReqOk(c, r, ViewOf(w, b, r));
    if op.Send? {
      if op.loc == MsgSizeConv {
        var d := w.reqs[r].st.done;
        assert Header(c.msgSize)[..d] + Header(c.msgSize)[d..d + k] == Header(c.msgSize)[..d + k];
      } else {
        assert ReqOk(c, r + 1, ViewOf(w, b, r + 1));
        EchoIsDue(c, w, b, r, k);
      }
    }
  }

  lemma TransferRest(c: Config, w: World, b: Book, r: Rid, k: nat, w': World)
    requires MsgSize(c.msgSize) && CanTransfer(w, r, k) && w' == ApplyTransfer(w, r, k)
    requires Keys(c, w, b) && CqOk(w) && ThreadletsOk(w, b) && ConnsOk(c, w, b)
    requires w.reqs[r].sqe.op.Recv? ==> w.reqs[r].sqe.op.loc != MsgSizeConv
    requires ConnOk(c, w', b, w.reqs[r].sqe.op.fd)
    ensures Keys(c, w', b) && CqOk(w') && ThreadletsOk(w', b) && ConnsOk(c, w', b)
  {
    assert w'.reqs.Keys == w.reqs.Keys && w'.heap == w.heap;
    TransferConns(c, w, b, r, k, w');
  }

  lemma TransferConns(c: Config, w: World, b: Book, r: Rid, k: nat, w': World)
    requires MsgSize(c.msgSize) && CanTransfer(w, r, k) && w' == ApplyTransfer(w, r, k)
    requires ConnsOk(c, w, b) && ConnOk(c, w', b, w.reqs[r].sqe.op.fd)
    ensures ConnsOk(c, w', b)
  {
    forall f | f in w'.conns ensures ConnOk(c, w', b, f) {
      assert ConnOk(c, w, b, f);
    }
  }

  lemma TransferInv(c: Config, w: World, b: Book, r: Rid, k: nat, w': World)
    requires MsgSize(c.msgSize) && Inv(c, w, b) && CanTransfer(w, r, k) && w' == ApplyTransfer(w, r, k)
    ensures Inv(c, w', b)
  {
    TransferReqs(c, w, b, r, k, w');
    assert ConnOk(c, w, b, w.reqs[r].sqe.op.fd);
    TransferConn(c, w, b, r, k);
    assert ReqOk(c, r, ViewOf(w, b, r));
    TransferRest(c, w, b, r, k, w');
  }

  // ---------- completions ----------

  /** A completion of `r0` leaves the rest of the state alone, as far as request `r` can see. */
  ghost predicate PostedSeenBy(w: World, b: Book, r0: Rid, res: int, full: bool, w': World, b': Book, r: Rid)
    requires r0 in w.reqs && r in w.reqs
  {
    && w'.reqs == Post(w.reqs, r0, res, full) && w'.heap == w.heap && w'.mem == w.mem
    && b'.tok == b.tok && b'.acc == b.acc && b'.hdr == b.hdr
    && Lookup(w'.conns, FdOf(w.reqs[r])) == Lookup(w.conns, FdOf(w.reqs[r]))
    && Lookup(b'.own, FdOf(w.reqs[r])) == Lookup(b.own, FdOf(w.reqs[r]))
  }

  predicate Releases(w: World, r0: Rid, r: Rid)
    requires r0 in w.reqs && r in w.reqs
  {
    r == r0 + 1 && w.reqs[r0].sqe.link && w.reqs[r].st.Waiting?
  }

  lemma PostSimilar(c: Config, w: World, b: Book, r0: Rid, res: int, full: bool, w': World, b': Book, r: Rid)
    requires MsgSize(c.msgSize) && r0 in w.reqs && r in w.reqs && r != r0 && !Releases(w, r0, r)
    requires w.reqs[r0].st.Started? || w.reqs[r0].st.Cancelled?
    requires ReqOk(c, r0, ViewOf(w, b, r0)) && ReqOk(c, r, ViewOf(w, b, r))
    requires PostedSeenBy(w, b, r0, res, full, w', b', r)
    requires r > 1 && r - 1 in w.reqs ==> ReqOk(c, r - 1, ViewOf(w, b, r - 1))
    ensures Similar(ViewOf(w, b, r), ViewOf(w', b', r))
  {
    var v, v' := ViewOf(w, b, r), ViewOf(w', b', r);
    assert w'.reqs[r] == w.reqs[r];
    PostBefore(c, w, b, r0, res, full, w', b', r);
    PostAfter(c, w, b, r0, res, full, w', b', r);
    assert v' == v.(prev := v'.prev, nxt := v'.nxt, cn := v'.cn);
  }

  /** The request before this one is no linked send that was unfinished, or it is still what it was. */
  lemma PostBefore(c: Config, w: World, b: Book, r0: Rid, res: int, full: bool, w': World, b': Book, r: Rid)
    requires MsgSize(c.msgSize) && r0 in w.reqs && r in w.reqs && r != r0 && !Releases(w, r0, r)
    requires w.reqs[r0].st.Started? || w.reqs[r0].st.Cancelled?
    requires ReqOk(c, r0, ViewOf(w, b, r0)) && ReqOk(c, r, ViewOf(w, b, r))
    requires PostedSeenBy(w, b, r0, res, full, w', b', r)
    requires r > 1 && r - 1 in w.reqs ==> ReqOk(c, r - 1, ViewOf(w, b, r - 1))
    ensures r in w'.reqs && w'.reqs[r] == w.reqs[r]
    ensures var v, v' := ViewOf(w, b, r), ViewOf(w', b', r);
            || v'.prev == v.prev
            || (!HasSend(v) && !HasSend(v'))
  {
    var v, v' := ViewOf(w, b, r), ViewOf(w', b', r);
    if r == r0 + 1 {
      assert !HasSend(v) && !HasSend(v');
    } else if r > 1 && r - 1 in w.reqs && w.reqs[r - 1] != w'.reqs[r - 1] {
      assert !HasSend(v) && !HasSend(v');
    }
  }

  /** What an unfinished linked send knows about the request after it does not change. */
  lemma PostAfter(c: Config, w: World, b: Book, r0: Rid, res: int, full: bool, w': World, b': Book, r: Rid)
    requires MsgSize(c.msgSize) && r0 in w.reqs && r in w.reqs && r != r0 && !Releases(w, r0, r)
    requires w.reqs[r0].st.Started? || w.reqs[r0].st.Cancelled?
    requires ReqOk(c, r0, ViewOf(w, b, r0)) && ReqOk(c, r, ViewOf(w, b, r))
    requires PostedSeenBy(w, b, r0, res, full, w', b', r)
    ensures r in w'.reqs && w'.reqs[r] == w.reqs[r]
    ensures var v, v' := ViewOf(w, b, r), ViewOf(w', b', r);
            v.q.sqe.op.Send? && v.q.sqe.link && !v.q.st.Posted? ==> v'.nxt == v.nxt
  {
  }

  lemma PostOther(c: Config, w: World, b: Book, r0: Rid, res: int, full: bool, w': World, b': Book, r: Rid)
    requires MsgSize(c.msgSize) && r0 in w.reqs && r in w.reqs && r != r0 && !Releases(w, r0, r)
    requires w.reqs[r0].st.Started? || w.reqs[r0].st.Cancelled?
    requires ReqOk(c, r0, ViewOf(w, b, r0)) && ReqOk(c, r, ViewOf(w, b, r))
    requires PostedSeenBy(w, b, r0, res, full, w', b', r)
    requires r > 1 && r - 1 in w.reqs ==> ReqOk(c, r - 1, ViewOf(w, b, r - 1))
    ensures ReqOk(c, r, ViewOf(w', b', r))
  {
    PostSimilar(c, w, b, r0, res, full, w', b', r);
    SimilarOk(c, r, ViewOf(w, b, r), ViewOf(w', b', r));
  }

  lemma PostReleased(c: Config, w: World, b: Book, r0: Rid, res: int, w': World, r: Rid)
    requires MsgSize(c.msgSize) && r0 in w.reqs && r in w.reqs && Releases(w, r0, r)
    requires w.reqs[r0].st.Started? && !w.reqs[r0].sqe.op.Accept? && (res == w.reqs[r0].st.done || res < 0)
    requires ReqOk(c, r0, ViewOf(w, b, r0)) && ReqOk(c, r, ViewOf(w, b, r))
    requires PostedSeenBy(w, b, r0, res, res == w.reqs[r0].sqe.op.len, w', b, r)
    ensures ReqOk(c, r, ViewOf(w', b, r))
  {
    var v, v' := ViewOf(w, b, r), ViewOf(w', b, r);
    assert HasSend(v) && !HasSend(v');
    assert v' == v.(q := v'.q, prev := v'.prev);
  }

  lemma PostSelf(c: Config, w: World, b: Book, r: Rid, res: int, w': World)
    requires MsgSize(c.msgSize) && r in w.reqs && ReqOk(c, r, ViewOf(w, b, r))
    requires w.reqs[r].st.Started? && !w.reqs[r].sqe.op.Accept? && (res == w.reqs[r].st.done || res < 0)
    requires PostedSeenBy(w, b, r, res, res == w.reqs[r].sqe.op.len, w', b, r)
    ensures ReqOk(c, r, ViewOf(w', b, r))
  {
    var v, v' := ViewOf(w, b, r), ViewOf(w', b, r);
    assert v' == v.(q := v'.q, nxt := v'.nxt);
  }

  lemma CompleteReqs(c: Config, w: World, b: Book, r0: Rid, res: int, w': World)
    requires MsgSize(c.msgSize) && ReqsOk(c, w, b) && Can(c, w, Complete(r0, res))
    requires w' == Apply(c, w, Complete(r0, res))
    ensures ReqsOk(c, w', b)
  {
    forall r | r in w'.reqs
      ensures ReqOk(c, r, ViewOf(w', b, r))
    {
      assert r in w.reqs;
      if r == r0 {
        PostSelf(c, w, b, r, res, w');
      } else if Releases(w, r0, r) {
        PostReleased(c, w, b, r0, res, w', r);
      } else {
        PostOther(c, w, b, r0, res, res == w.reqs[r0].sqe.op.len, w', b, r);
      }
    }
  }

  /** What any completion keeps: it appends a request that was not in the completion queue before. */
  lemma PostRest(c: Config, w: World, b: Book, r0: Rid, res: int, full: bool, w': World)
    requires MsgSize(c.msgSize) && r0 in w.reqs && !w.reqs[r0].st.Posted?
    requires w' == w.(reqs := Post(w.reqs, r0, res, full), cq := w.cq + [r0], conns := w'.conns)
    requires w.conns.Keys <= w'.conns.Keys && Keys(c, w, b) && CqOk(w) && ThreadletsOk(w, b)
    ensures Keys(c, w', b) && CqOk(w') && ThreadletsOk(w', b)
  {
    forall j, k | w'.i <= j < k < |w'.cq| ensures w'.cq[j] != w'.cq[k] {
      assert w'.cq[j] == w.cq[j];
    }
  }

  lemma CompleteInv(c: Config, w: World, b: Book, r: Rid, res: int, w': World)
    requires MsgSize(c.msgSize) && Inv(c, w, b) && Can(c, w, Complete(r, res))
    requires w' == Apply(c, w, Complete(r, res))
    ensures Inv(c, w', b)
  {
    CompleteReqs(c, w, b, r, res, w');
    PostRest(c, w, b, r, res, res == w.reqs[r].sqe.op.len, w');
    ConnsSame(c, w, b, w');
  }

  lemma ConnsSame(c: Config, w: World, b: Book, w': World)
    requires MsgSize(c.msgSize) && ConnsOk(c, w, b) && w'.conns == w.conns && w.heap.Keys <= w'.heap.Keys
    ensures ConnsOk(c, w', b)
  {
    forall f | f in w'.conns ensures ConnOk(c, w', b, f) {
      assert ConnOk(c, w, b, f);
      assert b.own[f] in w.heap.Keys;
    }
  }

  lemma CancelReqs(c: Config, w: World, b: Book, r0: Rid, w': World)
    requires MsgSize(c.msgSize) && ReqsOk(c, w, b) && Can(c, w, Cancel(r0)) && w' == Apply(c, w, Cancel(r0))
    ensures ReqsOk(c, w', b)
  {
    assert ReqOk(c, r0, ViewOf(w, b, r0));
    forall r | r in w'.reqs
      ensures ReqOk(c, r, ViewOf(w', b, r))
    {
      assert r in w.reqs;
      if r == r0 {
        var v, v' := ViewOf(w, b, r), ViewOf(w', b, r);
        assert v' == v.(q := v'.q);
      } else {
        PostOther(c, w, b, r0, -ECANCELED, false, w', b, r);
      }
    }
  }

  lemma CancelInv(c: Config, w: World, b: Book, r: Rid, w': World)
    requires MsgSize(c.msgSize) && Inv(c, w, b) && Can(c, w, Cancel(r)) && w' == Apply(c, w, Cancel(r))
    ensures Inv(c, w', b)
  {
    CancelReqs(c, w, b, r, w');
    PostRest(c, w, b, r, -ECANCELED, false, w');
    ConnsSame(c, w, b, w');
  }

  // ---------- accept ----------

  lemma AcceptFailedReqs(c: Config, w: World, b: Book, r0: Rid, res: int, w': World)
    requires MsgSize(c.msgSize) && ReqsOk(c, w, b) && Can(c, w, AcceptFailed(r0, res))
    requires w' == Apply(c, w, AcceptFailed(r0, res))
    ensures ReqsOk(c, w', b)
  {
    assert ReqOk(c, r0, ViewOf(w, b, r0));
    forall r | r in w'.reqs
      ensures ReqOk(c, r, ViewOf(w', b, r))
    {
      assert r in w.reqs;
      if r != r0 {
        PostOther(c, w, b, r0, res, false, w', b, r);
      }
    }
  }

  lemma AcceptFailedInv(c: Config, w: World, b: Book, r: Rid, res: int, w': World)
    requires MsgSize(c.msgSize) && Inv(c, w, b) && Can(c, w, AcceptFailed(r, res))
    requires w' == Apply(c, w, AcceptFailed(r, res))
    ensures Inv(c, w', b)
  {
    AcceptFailedReqs(c, w, b, r, res, w');
    PostRest(c, w, b, r, res, false, w');
    ConnsSame(c, w, b, w');
  }

  lemma AcceptedReqs(c: Config, w: World, b: Book, r0: Rid, fd: int, early: seq<byte>, w': World, b': Book)
    requires MsgSize(c.msgSize) && ReqsOk(c, w, b) && Can(c, w, Accepted(r0, fd, early))
    requires w' == Apply(c, w, Accepted(r0, fd, early)) && b' == b.(own := b.own[fd := b.acc])
    requires fd !in b.hdr
    ensures ReqsOk(c, w', b')
  {
    assert ReqOk(c, r0, ViewOf(w, b, r0));
    forall r | r in w'.reqs
      ensures ReqOk(c, r, ViewOf(w', b', r))
    {
      assert r in w.reqs;
      assert ReqOk(c, r, ViewOf(w, b, r));
      if r != r0 {
        PostOther(c, w, b, r0, fd, true, w', b', r);
      }
    }
  }

  lemma AcceptedInv(c: Config, w: World, b: Book, r: Rid, fd: int, early: seq<byte>, w': World, b': Book)
    requires MsgSize(c.msgSize) && Inv(c, w, b) && Can(c, w, Accepted(r, fd, early))
    requires w' == Apply(c, w, Accepted(r, fd, early)) && b' == b.(own := b.own[fd := b.acc])
    ensures Inv(c, w', b')
  {
    AcceptedReqs(c, w, b, r, fd, early, w', b');
    PostRest(c, w, b, r, fd, true, w');
    AcceptedConns(c, w, b, r, fd, early, w', b');
  }

  lemma AcceptedConns(c: Config, w: World, b: Book, r: Rid, fd: int, early: seq<byte>, w': World, b': Book)
    requires MsgSize(c.msgSize) && ConnsOk(c, w, b) && b.acc in w.heap && Can(c, w, Accepted(r, fd, early))
    requires w' == Apply(c, w, Accepted(r, fd, early)) && b' == b.(own := b.own[fd := b.acc])
    ensures ConnsOk(c, w', b')
  {
    forall f | f in w'.conns ensures ConnOk(c, w', b', f) {
      if f != fd { assert ConnOk(c, w, b, f); }
    }
  }

  // ---------- Handle ----------

  function Handled(w: World): Rid
    requires w.i < |w.cq|
  {
    w.cq[w.i]
  }

  /** Handling one completion leaves the rest of the state alone, as far as request `r` can see. */
  ghost predicate HandledSeenBy(w: World, b: Book, w': World, b': Book, r: Rid)
    requires w.i < |w.cq| && r in w.reqs
  {
    var q := w.reqs[r];
    && r in w'.reqs && w'.reqs[r] == q
    && (r > 0 && r - 1 != Handled(w) ==> Lookup(w'.reqs, r - 1) == Lookup(w.reqs, r - 1))
    && (r > 0 && r - 1 == Handled(w) ==> Lookup(w'.reqs, r - 1) == None)
    && (r + 1 != Handled(w) && r + 1 in w.reqs ==> Lookup(w'.reqs, r + 1) == Lookup(w.reqs, r + 1))
    && w'.conns == w.conns && b'.own == b.own
    && (q.sqe.data.Some? ==>
          && Lookup(w'.heap, q.sqe.data.value) == Lookup(w.heap, q.sqe.data.value)
          && Lookup(b'.tok, q.sqe.data.value) == Lookup(b.tok, q.sqe.data.value)
          && (q.sqe.data.value == b'.acc <==> q.sqe.data.value == b.acc))
    && (q.sqe.op.Recv? ==> Lookup(w'.mem, q.sqe.op.loc) == Lookup(w.mem, q.sqe.op.loc))
    && (q.sqe.op.Recv? || Lookup(b'.hdr, FdOf(q)) == Lookup(b.hdr, FdOf(q))
        || (q.sqe.op.Send? && q.sqe.link) || (q.sqe.op.Accept? && !q.st.Posted?))
  }

  lemma HandleOther(c: Config, w: World, b: Book, w': World, b': Book, r: Rid)
    requires MsgSize(c.msgSize) && w.i < |w.cq| && Handled(w) in w.reqs && w.reqs[Handled(w)].st.Posted?
    requires r in w.reqs && HandledSeenBy(w, b, w', b', r) && ReqOk(c, r, ViewOf(w, b, r))
    ensures ReqOk(c, r, ViewOf(w', b', r))
  {
    SimilarOk(c, r, ViewOf(w, b, r), ViewOf(w', b', r));
  }

  /** What the ring looks like to the requests that stay in it. */
  lemma EnqueueLookup(reqs: map<Rid, Req>, r0: Rid, next: Rid, sqes: seq<Sqe>, r: Rid)
    requires forall r :: r in reqs ==> r < next
    ensures r < next && r != r0 ==> Lookup(Enqueue(reqs - {r0}, next, sqes), r) == Lookup(reqs, r)
    ensures r0 < next ==> Lookup(Enqueue(reqs - {r0}, next, sqes), r0) == None
    ensures next <= r < next + |sqes| ==>
              Lookup(Enqueue(reqs - {r0}, next, sqes), r) == Some(Req(sqes[r - next], Queued))
    ensures next + |sqes| <= r ==> Lookup(Enqueue(reqs - {r0}, next, sqes), r) == None
  {
  }

  // The state after handling, case by case.

  ghost function Dequeued(w: World, heap: map<Ptr, Threadlet>, brk: Ptr, mem: map<Loc, seq<byte>>, sqes: seq<Sqe>)
    : World
    requires w.i < |w.cq|
  {
    w.(heap := heap, brk := brk, reqs := Enqueue(w.reqs - {Handled(w)}, w.next, sqes), next := w.next + |sqes|,
       queued := w.queued + |sqes|, i := w.i + 1, mem := mem)
  }

  ghost predicate HandledAccept(c: Config, w: World, b: Book, w': World, b': Book, p: Ptr, fd: int)
    requires w.i < |w.cq| && p in w.heap
  {
    && w' == Dequeued(w, w.heap[w.brk := Threadlet(ACCEPTED, c.listenFd, Null)]
                               [p := Threadlet(RECEIVED_HEADER, fd, w.heap[p].buf)], w.brk + 1, w.mem,
                      [Sqe(Send(fd, MsgSizeConv, 4), None, false), AcceptSqe(c, w.brk),
                       Sqe(Recv(fd, HeaderBuf, 2), Some(p), false)])
    && b' == b.(tok := b.tok[w.brk := w.next + 1][p := w.next + 2], hdr := b.hdr[fd := w.next], acc := w.brk)
  }

  ghost predicate HandledGreeting(c: Config, w: World, b: Book, junk: seq<byte>, w': World, b': Book, p: Ptr)
    requires w.i < |w.cq| && p in w.heap
  {
    && w' == Dequeued(w, w.heap[p := Threadlet(RECEIVED_MSG, w.heap[p].fd, Heap(p))], w.brk, w.mem[Heap(p) := junk],
                      [Sqe(Recv(w.heap[p].fd, Heap(p), c.msgSize), Some(p), false)])
    && b' == b.(tok := b.tok[p := w.next])
  }

  ghost predicate HandledMessage(c: Config, w: World, b: Book, w': World, b': Book, p: Ptr)
    requires w.i < |w.cq| && p in w.heap
  {
    var r := w.heap[p];
    && w' == Dequeued(w, w.heap, w.brk, w.mem,
                      [Sqe(Send(r.fd, r.buf, c.msgSize), None, true),
                       Sqe(Recv(r.fd, r.buf, c.msgSize), Some(p), false)])
    && b' == b.(tok := b.tok[p := w.next + 1])
  }

  ghost predicate Dropped(w: World, b: Book, w': World, b': Book)
    requires w.i < |w.cq| && Handled(w) in w.reqs
  {
    && w' == Dequeued(w, w.heap, w.brk, w.mem, [])
    && b' == (if w.reqs[Handled(w)].sqe.data.Some? then b.(dead := b.dead + {w.reqs[Handled(w)].sqe.data.value}) else b)
  }

  /** `w'` and `b'` are the state and the bookkeeping after the loop got through one completion. */
  ghost predicate Handles(c: Config, w: World, b: Book, junk: seq<byte>, w': World, b': Book) {
    && Can(c, w, Handle(junk)) && w' == ApplyHandle(c, w, junk) && w'.exit == Running
    && b' == NextBook(c, w, b, Handle(junk))
  }

  lemma AcceptCase(c: Config, w: World, b: Book, junk: seq<byte>, w': World, b': Book, p: Ptr)
    requires Handles(c, w, b, junk, w', b')
    requires w.reqs[Handled(w)].sqe.data == Some(p) && w.heap[p].pc == ACCEPTED
    ensures w.reqs[Handled(w)].st.res >= 0 && HandledAccept(c, w, b, w', b', p, w.reqs[Handled(w)].st.res)
  {
  }

  lemma GreetingCase(c: Config, w: World, b: Book, junk: seq<byte>, w': World, b': Book, p: Ptr)
    requires Handles(c, w, b, junk, w', b')
    requires w.reqs[Handled(w)].sqe.data == Some(p) && w.heap[p].pc == RECEIVED_HEADER
    requires w.reqs[Handled(w)].st.res >= 2
    ensures HandledGreeting(c, w, b, junk, w', b', p)
  {
  }

  lemma MessageCase(c: Config, w: World, b: Book, junk: seq<byte>, w': World, b': Book, p: Ptr)
    requires Handles(c, w, b, junk, w', b')
    requires w.reqs[Handled(w)].sqe.data == Some(p) && w.heap[p].pc == RECEIVED_MSG
    requires w.reqs[Handled(w)].st.res >= c.msgSize
    ensures HandledMessage(c, w, b, w', b', p)
  {
  }

  ghost predicate Fails(c: Config, w: World)
    requires w.i < |w.cq| && Handled(w) in w.reqs && w.reqs[Handled(w)].st.Posted?
    requires w.reqs[Handled(w)].sqe.data.Some? ==> w.reqs[Handled(w)].sqe.data.value in w.heap
  {
    var q := w.reqs[Handled(w)];
    || q.sqe.data.None?
    || (w.heap[q.sqe.data.value].pc == RECEIVED_HEADER && q.st.res < 2)
    || (w.heap[q.sqe.data.value].pc == RECEIVED_MSG && q.st.res < c.msgSize)
  }

  lemma DroppedCase(c: Config, w: World, b: Book, junk: seq<byte>, w': World, b': Book)
    requires Handles(c, w, b, junk, w', b') && Fails(c, w)
    ensures Dropped(w, b, w', b')
  {
    NothingToDo(c, w);
    assert Enqueue(w.reqs - {Handled(w)}, w.next, []) == w.reqs - {Handled(w)};
  }

  lemma NothingToDo(c: Config, w: World)
    requires w.i < |w.cq| && Handled(w) in w.reqs && w.reqs[Handled(w)].st.Posted?
    requires w.reqs[Handled(w)].sqe.data.Some? ==> w.reqs[Handled(w)].sqe.data.value in w.heap
    requires Fails(c, w)
    ensures var q := w.reqs[Handled(w)];
            Dispatch(c, w.heap, w.brk, q.sqe.data, q.st.res) == Effect(w.heap, w.brk, [], None, false)
  {
  }

  /** The loop is about to handle the completion `Posted(res)` of threadlet `p`'s request. */
  ghost predicate Handling(c: Config, w: World, b: Book, p: Ptr, res: int)
    requires MsgSize(c.msgSize)
  {
    && w.i < |w.cq| && Handled(w) in w.reqs && w.reqs[Handled(w)].st == Posted(res)
    && w.reqs[Handled(w)].sqe.data == Some(p) && p in w.heap
    && ReqOk(c, Handled(w), ViewOf(w, b, Handled(w)))
    && w.brk !in w.heap && b.acc in w.heap && (w.heap[p].pc == ACCEPTED <==> p == b.acc)
    && (forall r :: r in w.reqs ==> r < w.next)
  }

  lemma AcceptOld(c: Config, w: World, b: Book, w': World, b': Book, p: Ptr, fd: int, r: Rid)
    requires MsgSize(c.msgSize) && Handling(c, w, b, p, fd) && HandledAccept(c, w, b, w', b', p, fd)
    requires w.heap[p].pc == ACCEPTED && fd >= 0
    requires r in w.reqs && r != Handled(w) && ReqOk(c, r, ViewOf(w, b, r))
    ensures HandledSeenBy(w, b, w', b', r)
  {
    NeighboursStay(w, AcceptSqes(c, w, p, fd), r);
  }

  function AcceptSqes(c: Config, w: World, p: Ptr, fd: int): seq<Sqe> {
    [Sqe(Send(fd, MsgSizeConv, 4), None, false), AcceptSqe(c, w.brk), Sqe(Recv(fd, HeaderBuf, 2), Some(p), false)]
  }

  lemma NewHeader(c: Config, w: World, b: Book, w': World, b': Book, p: Ptr, fd: int, r: Rid)
    requires MsgSize(c.msgSize) && Handling(c, w, b, p, fd) && HandledAccept(c, w, b, w', b', p, fd)
    requires w.heap[p].pc == ACCEPTED && fd >= 0 && r == w.next
    ensures r in w'.reqs && ReqOk(c, r, ViewOf(w', b', r))
  {
    EnqueueLookup(w.reqs, Handled(w), w.next, AcceptSqes(c, w, p, fd), r);
  }

  lemma NewAccept(c: Config, w: World, b: Book, w': World, b': Book, p: Ptr, fd: int, r: Rid)
    requires MsgSize(c.msgSize) && Handling(c, w, b, p, fd) && HandledAccept(c, w, b, w', b', p, fd)
    requires w.heap[p].pc == ACCEPTED && fd >= 0 && r == w.next + 1
    ensures r in w'.reqs && ReqOk(c, r, ViewOf(w', b', r))
  {
    EnqueueLookup(w.reqs, Handled(w), w.next, AcceptSqes(c, w, p, fd), r);
  }

  lemma NewGreeting(c: Config, w: World, b: Book, w': World, b': Book, p: Ptr, fd: int, r: Rid)
    requires MsgSize(c.msgSize) && Handling(c, w, b, p, fd) && HandledAccept(c, w, b, w', b', p, fd)
    requires w.heap[p].pc == ACCEPTED && fd >= 0 && r == w.next + 2
    ensures r in w'.reqs && ReqOk(c, r, ViewOf(w', b', r))
  {
    EnqueueLookup(w.reqs, Handled(w), w.next, AcceptSqes(c, w, p, fd), r);
  }

  /** No other request carries the handled threadlet or uses its buffer. */
  lemma OtherToken(c: Config, w: World, b: Book, p: Ptr, res: int, r: Rid)
    requires MsgSize(c.msgSize) && Handling(c, w, b, p, res)
    requires r in w.reqs && r != Handled(w) && ReqOk(c, r, ViewOf(w, b, r))
    ensures w.reqs[r].sqe.data != Some(p)
    ensures w.reqs[r].sqe.op.Recv? ==> w.reqs[r].sqe.op.loc != Heap(p)
  {
  }

  lemma GreetingOld(c: Config, w: World, b: Book, junk: seq<byte>, w': World, b': Book, p: Ptr, res: int, r: Rid)
    requires MsgSize(c.msgSize) && Handling(c, w, b, p, res) && HandledGreeting(c, w, b, junk, w', b', p)
    requires r in w.reqs && r != Handled(w) && ReqOk(c, r, ViewOf(w, b, r))
    ensures HandledSeenBy(w, b, w', b', r)
  {
    OtherToken(c, w, b, p, res, r);
    NeighboursStay(w, [Sqe(Recv(w.heap[p].fd, Heap(p), c.msgSize), Some(p), false)], r);
  }

  /** The ring around a request that is not the handled one. */
  lemma NeighboursStay(w: World, sqes: seq<Sqe>, r: Rid)
    requires w.i < |w.cq| && r in w.reqs && r != Handled(w) && (forall r :: r in w.reqs ==> r < w.next)
    ensures var reqs' := Enqueue(w.reqs - {Handled(w)}, w.next, sqes);
            && Lookup(reqs', r) == Some(w.reqs[r])
            && (r > 0 && r - 1 != Handled(w) ==> Lookup(reqs', r - 1) == Lookup(w.reqs, r - 1))
            && (r > 0 && r - 1 == Handled(w) ==> Lookup(reqs', r - 1) == None)
            && (r + 1 != Handled(w) && r + 1 in w.reqs ==> Lookup(reqs', r + 1) == Lookup(w.reqs, r + 1))
  {
    EnqueueLookup(w.reqs, Handled(w), w.next, sqes, r);
    EnqueueLookup(w.reqs, Handled(w), w.next, sqes, r + 1);
    if r > 0 { EnqueueLookup(w.reqs, Handled(w), w.next, sqes, r - 1); }
  }

  lemma GreetingNew(c: Config, w: World, b: Book, junk: seq<byte>, w': World, b': Book, p: Ptr, res: int,
                    r: Rid)
    requires MsgSize(c.msgSize) && Handling(c, w, b, p, res) && HandledGreeting(c, w, b, junk, w', b', p)
    requires w.heap[p].pc == RECEIVED_HEADER && res >= 2 && |junk| == BUF_SIZE && r == w.next
    requires w.next > 0 && w.next - 1 in w.reqs ==> ReqOk(c, w.next - 1, ViewOf(w, b, w.next - 1))
    requires var cn := Lookup(w.conns, w.heap[p].fd); cn.Some? ==> cn.value.taken <= |cn.value.inp|
    ensures r in w'.reqs && ReqOk(c, r, ViewOf(w', b', r))
  {
    var sqes := [Sqe(Recv(w.heap[p].fd, Heap(p), c.msgSize), Some(p), false)];
    EnqueueLookup(w.reqs, Handled(w), w.next, sqes, r);
    if r > 0 { EnqueueLookup(w.reqs, Handled(w), w.next, sqes, r - 1); }
    assert !HasSend(ViewOf(w', b', r));
  }

  lemma MessageOld(c: Config, w: World, b: Book, w': World, b': Book, p: Ptr, res: int, r: Rid)
    requires MsgSize(c.msgSize) && Handling(c, w, b, p, res) && HandledMessage(c, w, b, w', b', p)
    requires r in w.reqs && r != Handled(w) && ReqOk(c, r, ViewOf(w, b, r))
    ensures HandledSeenBy(w, b, w', b', r)
  {
    var t := w.heap[p];
    OtherToken(c, w, b, p, res, r);
    NeighboursStay(w, [Sqe(Send(t.fd, t.buf, c.msgSize), None, true),
                       Sqe(Recv(t.fd, t.buf, c.msgSize), Some(p), false)], r);
  }

  lemma MessageNew(c: Config, w: World, b: Book, w': World, b': Book, p: Ptr, res: int, r: Rid)
    requires MsgSize(c.msgSize) && Handling(c, w, b, p, res) && HandledMessage(c, w, b, w', b', p)
    requires w.heap[p].pc == RECEIVED_MSG && res >= c.msgSize && w.next <= r < w.next + 2
    ensures r in w'.reqs && ReqOk(c, r, ViewOf(w', b', r))
  {
    var t := w.heap[p];
    var sqes := [Sqe(Send(t.fd, t.buf, c.msgSize), None, true), Sqe(Recv(t.fd, t.buf, c.msgSize), Some(p), false)];
    EnqueueLookup(w.reqs, Handled(w), w.next, sqes, w.next);
    EnqueueLookup(w.reqs, Handled(w), w.next, sqes, w.next + 1);
    if r == w.next + 1 { assert HasSend(ViewOf(w', b', r)); }
  }

  lemma DroppedOld(w: World, b: Book, w': World, b': Book, r: Rid)
    requires w.i < |w.cq| && Handled(w) in w.reqs && Dropped(w, b, w', b')
    requires forall r :: r in w.reqs ==> r < w.next
    requires r in w.reqs && r != Handled(w)
    ensures HandledSeenBy(w, b, w', b', r)
  {
    EnqueueLookup(w.reqs, Handled(w), w.next, [], r);
    EnqueueLookup(w.reqs, Handled(w), w.next, [], r + 1);
    if r > 0 { EnqueueLookup(w.reqs, Handled(w), w.next, [], r - 1); }
  }

  // The rest of the invariant, for any way of handling.

  lemma HandleCq(w: World, w': World, heap: map<Ptr, Threadlet>, brk: Ptr, mem: map<Loc, seq<byte>>, sqes: seq<Sqe>)
    requires CqOk(w) && w.inBatch && w.i < |w.cq| && w' == Dequeued(w, heap, brk, mem, sqes)
    requires forall r :: r in w.reqs ==> r < w.next
    ensures CqOk(w')
    ensures forall r :: r in w'.reqs ==> r < w'.next
  {
    forall j | w'.i <= j < |w'.cq| ensures w'.cq[j] in w'.reqs && w'.reqs[w'.cq[j]].st.Posted? {
      EnqueueLookup(w.reqs, Handled(w), w.next, sqes, w.cq[j]);
    }
    forall r | r in w'.reqs ensures r < w'.next {
      EnqueueLookup(w.reqs, Handled(w), w.next, sqes, r);
    }
  }

  /** A threadlet whose request is not the one handled keeps it. */
  lemma KeepsToken(w: World, b: Book, sqes: seq<Sqe>, p: Ptr, q: Ptr)
    requires w.i < |w.cq| && Handled(w) in w.reqs && w.reqs[Handled(w)].sqe.data == Some(p) && p != q
    requires q in w.heap && ThreadletOk(w, b, q)
    requires forall r :: r in w.reqs ==> r < w.next
    ensures Lookup(Enqueue(w.reqs - {Handled(w)}, w.next, sqes), b.tok[q]) == Lookup(w.reqs, b.tok[q])
  {
    EnqueueLookup(w.reqs, Handled(w), w.next, sqes, b.tok[q]);
  }

  lemma AcceptRest(c: Config, w: World, b: Book, w': World, b': Book, p: Ptr, fd: int)
    requires MsgSize(c.msgSize) && Handling(c, w, b, p, fd) && HandledAccept(c, w, b, w', b', p, fd)
    requires w.heap[p].pc == ACCEPTED && fd in w.conns && Keys(c, w, b) && ThreadletsOk(w, b)
    ensures Keys(c, w', b') && ThreadletsOk(w', b')
  {
    var sqes := [Sqe(Send(fd, MsgSizeConv, 4), None, false), AcceptSqe(c, w.brk),
                 Sqe(Recv(fd, HeaderBuf, 2), Some(p), false)];
    forall q | q in w'.heap ensures ThreadletOk(w', b', q) {
      if q != p && q != w.brk {
        KeepsToken(w, b, sqes, p, q);
      } else {
        EnqueueLookup(w.reqs, Handled(w), w.next, sqes, b'.tok[q]);
      }
    }
    forall r | r in w'.reqs ensures r < w'.next {
      EnqueueLookup(w.reqs, Handled(w), w.next, sqes, r);
    }
  }

  lemma GreetingRest(c: Config, w: World, b: Book, junk: seq<byte>, w': World, b': Book, p: Ptr, res: int)
    requires MsgSize(c.msgSize) && Handling(c, w, b, p, res) && HandledGreeting(c, w, b, junk, w', b', p)
    requires w.heap[p].pc == RECEIVED_HEADER && Keys(c, w, b) && ThreadletsOk(w, b)
    ensures Keys(c, w', b') && ThreadletsOk(w', b')
  {
    var sqes := [Sqe(Recv(w.heap[p].fd, Heap(p), c.msgSize), Some(p), false)];
    forall q | q in w'.heap ensures ThreadletOk(w', b', q) {
      if q != p {
        KeepsToken(w, b, sqes, p, q);
      } else {
        EnqueueLookup(w.reqs, Handled(w), w.next, sqes, b'.tok[q]);
      }
    }
    forall r | r in w'.reqs ensures r < w'.next {
      EnqueueLookup(w.reqs, Handled(w), w.next, sqes, r);
    }
  }

  lemma MessageRest(c: Config, w: World, b: Book, w': World, b': Book, p: Ptr, res: int)
    requires MsgSize(c.msgSize) && Handling(c, w, b, p, res) && HandledMessage(c, w, b, w', b', p)
    requires Keys(c, w, b) && ThreadletsOk(w, b)
    ensures Keys(c, w', b') && ThreadletsOk(w', b')
  {
    var t := w.heap[p];
    var sqes := [Sqe(Send(t.fd, t.buf, c.msgSize), None, true), Sqe(Recv(t.fd, t.buf, c.msgSize), Some(p), false)];
    forall q | q in w'.heap ensures ThreadletOk(w', b', q) {
      if q != p {
        KeepsToken(w, b, sqes, p, q);
      } else {
        EnqueueLookup(w.reqs, Handled(w), w.next, sqes, b'.tok[q]);
      }
    }
    forall r | r in w'.reqs ensures r < w'.next {
      EnqueueLookup(w.reqs, Handled(w), w.next, sqes, r);
    }
  }

  lemma DroppedRest(c: Config, w: World, b: Book, w': World, b': Book)
    requires MsgSize(c.msgSize) && w.i < |w.cq| && Handled(w) in w.reqs && Dropped(w, b, w', b')
    requires w.reqs[Handled(w)].st.Posted? && Keys(c, w, b) && ThreadletsOk(w, b)
    requires w.reqs[Handled(w)].sqe.data.Some? ==> w.reqs[Handled(w)].sqe.data.value in w.heap
    requires Fails(c, w)
    requires w.reqs[Handled(w)].sqe.data.Some? ==> ReqOk(c, Handled(w), ViewOf(w, b, Handled(w)))
    ensures Keys(c, w', b') && ThreadletsOk(w', b')
  {
    forall q | q in w'.heap ensures ThreadletOk(w', b', q) {
      assert ThreadletOk(w, b, q);
      EnqueueLookup(w.reqs, Handled(w), w.next, [], b.tok[q]);
    }
    forall r | r in w'.reqs ensures r < w'.next {
      EnqueueLookup(w.reqs, Handled(w), w.next, [], r);
    }
  }

  lemma AcceptHandled(c: Config, w: World, b: Book, w': World, b': Book, p: Ptr, fd: int)
    requires MsgSize(c.msgSize) && Inv(c, w, b) && w.inBatch && Handling(c, w, b, p, fd)
    requires w.heap[p].pc == ACCEPTED && fd >= 0 && HandledAccept(c, w, b, w', b', p, fd)
    ensures Inv(c, w', b')
  {
    var sqes := [Sqe(Send(fd, MsgSizeConv, 4), None, false), AcceptSqe(c, w.brk),
                 Sqe(Recv(fd, HeaderBuf, 2), Some(p), false)];
    HandleCq(w, w', w'.heap, w'.brk, w.mem, sqes);
    AcceptRest(c, w, b, w', b', p, fd);
    ConnsSame(c, w, b, w');
    AcceptReqs(c, w, b, w', b', p, fd);
  }

  lemma AcceptReqs(c: Config, w: World, b: Book, w': World, b': Book, p: Ptr, fd: int)
    requires MsgSize(c.msgSize) && ReqsOk(c, w, b) && Handling(c, w, b, p, fd)
    requires HandledAccept(c, w, b, w', b', p, fd) && w.heap[p].pc == ACCEPTED && fd >= 0
    ensures ReqsOk(c, w', b')
  {
    forall r | r in w'.reqs ensures ReqOk(c, r, ViewOf(w', b', r)) {
      EnqueueLookup(w.reqs, Handled(w), w.next, AcceptSqes(c, w, p, fd), r);
      if r < w.next {
        AcceptKeeps(c, w, b, w', b', p, fd, r);
      } else if r == w.next {
        NewHeader(c, w, b, w', b', p, fd, r);
      } else if r == w.next + 1 {
        NewAccept(c, w, b, w', b', p, fd, r);
      } else {
        NewGreeting(c, w, b, w', b', p, fd, r);
      }
    }
  }

  lemma AcceptKeeps(c: Config, w: World, b: Book, w': World, b': Book, p: Ptr, fd: int, r: Rid)
    requires MsgSize(c.msgSize) && ReqsOk(c, w, b) && Handling(c, w, b, p, fd)
    requires HandledAccept(c, w, b, w', b', p, fd) && w.heap[p].pc == ACCEPTED && fd >= 0
    requires r in w.reqs && r != Handled(w)
    ensures r in w'.reqs && ReqOk(c, r, ViewOf(w', b', r))
  {
    assert ReqOk(c, r, ViewOf(w, b, r));
    AcceptOld(c, w, b, w', b', p, fd, r);
    HandleOther(c, w, b, w', b', r);
  }

  lemma GreetingReqs(c: Config, w: World, b: Book, junk: seq<byte>, w': World, b': Book, p: Ptr, res: int)
    requires MsgSize(c.msgSize) && ReqsOk(c, w, b) && Handling(c, w, b, p, res)
    requires w.heap[p].pc == RECEIVED_HEADER && res >= 2 && |junk| == BUF_SIZE
    requires HandledGreeting(c, w, b, junk, w', b', p)
    requires var cn := Lookup(w.conns, w.heap[p].fd); cn.Some? ==> cn.value.taken <= |cn.value.inp|
    ensures ReqsOk(c, w', b')
  {
    var sqes := [Sqe(Recv(w.heap[p].fd, Heap(p), c.msgSize), Some(p), false)];
    forall r | r in w'.reqs ensures ReqOk(c, r, ViewOf(w', b', r)) {
      EnqueueLookup(w.reqs, Handled(w), w.next, sqes, r);
      if r < w.next {
        GreetingKeeps(c, w, b, junk, w', b', p, res, r);
      } else {
        GreetingNew(c, w, b, junk, w', b', p, res, r);
      }
    }
  }

  lemma GreetingKeeps(c: Config, w: World, b: Book, junk: seq<byte>, w': World, b': Book, p: Ptr, res: int, r: Rid)
    requires MsgSize(c.msgSize) && ReqsOk(c, w, b) && Handling(c, w, b, p, res)
    requires HandledGreeting(c, w, b, junk, w', b', p) && r in w.reqs && r != Handled(w)
    ensures r in w'.reqs && ReqOk(c, r, ViewOf(w', b', r))
  {
    assert ReqOk(c, r, ViewOf(w, b, r));
    GreetingOld(c, w, b, junk, w', b', p, res, r);
    HandleOther(c, w, b, w', b', r);
  }

  lemma GreetingHandled(c: Config, w: World, b: Book, junk: seq<byte>, w': World, b': Book, p: Ptr, res: int)
    requires MsgSize(c.msgSize) && Inv(c, w, b) && w.inBatch && Handling(c, w, b, p, res)
    requires w.heap[p].pc == RECEIVED_HEADER && res >= 2 && |junk| == BUF_SIZE
    requires HandledGreeting(c, w, b, junk, w', b', p)
    ensures Inv(c, w', b')
  {
    if w.heap[p].fd in w.conns { assert ConnOk(c, w, b, w.heap[p].fd); }
    HandleCq(w, w', w'.heap, w'.brk, w'.mem, [Sqe(Recv(w.heap[p].fd, Heap(p), c.msgSize), Some(p), false)]);
    GreetingRest(c, w, b, junk, w', b', p, res);
    ConnsSame(c, w, b, w');
    GreetingReqs(c, w, b, junk, w', b', p, res);
  }

  lemma MessageHandled(c: Config, w: World, b: Book, w': World, b': Book, p: Ptr, res: int)
    requires MsgSize(c.msgSize) && Inv(c, w, b) && w.inBatch && Handling(c, w, b, p, res)
    requires w.heap[p].pc == RECEIVED_MSG && res >= c.msgSize && HandledMessage(c, w, b, w', b', p)
    ensures Inv(c, w', b')
  {
    var t := w.heap[p];
    var sqes := [Sqe(Send(t.fd, t.buf, c.msgSize), None, true), Sqe(Recv(t.fd, t.buf, c.msgSize), Some(p), false)];
    HandleCq(w, w', w'.heap, w'.brk, w'.mem, sqes);
    MessageRest(c, w, b, w', b', p, res);
    ConnsSame(c, w, b, w');
    forall r | r in w'.reqs ensures ReqOk(c, r, ViewOf(w', b', r)) {
      EnqueueLookup(w.reqs, Handled(w), w.next, sqes, r);
      if r < w.next {
        MessageOld(c, w, b, w', b', p, res, r);
        HandleOther(c, w, b, w', b', r);
      } else {
        MessageNew(c, w, b, w', b', p, res, r);
      }
    }
  }

  lemma DroppedHandled(c: Config, w: World, b: Book, w': World, b': Book)
    requires MsgSize(c.msgSize) && Inv(c, w, b) && w.inBatch && w.i < |w.cq| && Handled(w) in w.reqs
    requires w.reqs[Handled(w)].st.Posted?
    requires w.reqs[Handled(w)].sqe.data.Some? ==> w.reqs[Handled(w)].sqe.data.value in w.heap
    requires Fails(c, w) && Dropped(w, b, w', b')
    ensures Inv(c, w', b')
  {
    HandleCq(w, w', w'.heap, w'.brk, w'.mem, []);
    DroppedRest(c, w, b, w', b');
    ConnsSame(c, w, b, w');
    forall r | r in w'.reqs ensures ReqOk(c, r, ViewOf(w', b', r)) {
      EnqueueLookup(w.reqs, Handled(w), w.next, [], r);
      DroppedOld(w, b, w', b', r);
      HandleOther(c, w, b, w', b', r);
    }
  }

  lemma HandleInv(c: Config, w: World, b: Book, junk: seq<byte>, w': World, b': Book)
    requires MsgSize(c.msgSize) && Inv(c, w, b) && Handles(c, w, b, junk, w', b')
    ensures Inv(c, w', b')
  {
    var q := w.reqs[Handled(w)];
    if Fails(c, w) {
      DroppedCase(c, w, b, junk, w', b');
      DroppedHandled(c, w, b, w', b');
    } else {
      var p := q.sqe.data.value;
      assert ReqOk(c, Handled(w), ViewOf(w, b, Handled(w))) && ThreadletOk(w, b, p);
      assert w.brk in w.heap ==> ThreadletOk(w, b, w.brk);
      assert Handling(c, w, b, p, q.st.res);
      if w.heap[p].pc == ACCEPTED {
        AcceptCase(c, w, b, junk, w', b', p);
        AcceptHandled(c, w, b, w', b', p, q.st.res);
      } else if w.heap[p].pc == RECEIVED_HEADER {
        GreetingCase(c, w, b, junk, w', b', p);
        GreetingHandled(c, w, b, junk, w', b', p, q.st.res);
      } else {
        MessageCase(c, w, b, junk, w', b', p);
        MessageHandled(c, w, b, w', b', p, q.st.res);
      }
    }
  }

  // ---------- every action, every run ----------

  /** Waking up and exiting change neither the ring nor the streams. */
  lemma SameInv(c: Config, w: World, b: Book, w': World)
    requires MsgSize(c.msgSize) && Inv(c, w, b) && w' == w.(exit := w'.exit, inBatch := w'.inBatch)
    requires w.inBatch ==> w'.inBatch
    ensures Inv(c, w', b)
  {
    forall r | r in w'.reqs ensures ReqOk(c, r, ViewOf(w', b, r)) {
      assert ViewOf(w', b, r) == ViewOf(w, b, r);
    }
    ConnsSame(c, w, b, w');
  }

  lemma ApplyInv(c: Config, w: World, b: Book, a: Action)
    requires MsgSize(c.msgSize) && Inv(c, w, b) && Can(c, w, a)
    ensures Inv(c, Apply(c, w, a), NextBook(c, w, b, a))
  {
    if a.Turn? || a.Wake? || a.Handle? {
      LoopInv(c, w, b, a);
    } else {
      KernelInv(c, w, b, a);
    }
  }

  lemma LoopInv(c: Config, w: World, b: Book, a: Action)
    requires MsgSize(c.msgSize) && Inv(c, w, b) && Can(c, w, a) && (a.Turn? || a.Wake? || a.Handle?)
    ensures Inv(c, Apply(c, w, a), NextBook(c, w, b, a))
  {
    var w', b' := Apply(c, w, a), NextBook(c, w, b, a);
    match a
    case Turn => TurnInv(c, w, b, w');
    case Wake => SameInv(c, w, b, w');
    case Handle(junk) =>
      if w'.exit == Running {
        HandleInv(c, w, b, junk, w', b');
      } else {
        SameInv(c, w, b, w');
      }
  }

  lemma KernelInv(c: Config, w: World, b: Book, a: Action)
    requires MsgSize(c.msgSize) && Inv(c, w, b) && Can(c, w, a) && !a.Turn? && !a.Wake? && !a.Handle?
    ensures Inv(c, Apply(c, w, a), NextBook(c, w, b, a))
  {
    var w', b' := Apply(c, w, a), NextBook(c, w, b, a);
    match a
    case Transfer(r, k) => TransferInv(c, w, b, r, k, w');
    case Complete(r, res) => CompleteInv(c, w, b, r, res, w');
    case Accepted(r, fd, early) => AcceptedInv(c, w, b, r, fd, early, w', b');
    case AcceptFailed(r, res) => AcceptFailedInv(c, w, b, r, res, w');
    case Cancel(r) => CancelInv(c, w, b, r, w');
    case ClientSend(fd, bytes) => ClientSendInv(c, w, b, fd, bytes, w');
  }

  function RunBook(c: Config, acts: seq<Action>): Book
    requires MsgSize(c.msgSize) && Run(c, acts).Some?
    decreases acts
  {
    if acts == [] then INIT_BOOK
    else
      var front := acts[..|acts| - 1];
      NextBook(c, Run(c, front).value, RunBook(c, front), acts[|acts| - 1])
  }

  lemma {:induction false} RunInv(c: Config, acts: seq<Action>)
    requires MsgSize(c.msgSize) && Run(c, acts).Some?
    ensures Inv(c, Run(c, acts).value, RunBook(c, acts))
    decreases acts
  {
    if acts == [] {
      InitInv(c);
    } else {
      var front := acts[..|acts| - 1];
      RunInv(c, front);
      ApplyInv(c, Run(c, front).value, RunBook(c, front), acts[|acts| - 1]);
    }
  }
}
