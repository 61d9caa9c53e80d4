/**
  The io_uring threadlet server (io_uring_sharded.c) together with an adversarial kernel.

  A run is a list of actions. The loop's own actions are `Turn` (end of the for-each: advance the
  completion queue, submit), `Wake` (`io_uring_wait_cqe` returns) and `Handle` (one iteration of the
  for-each). All others belong to the kernel and the clients, and may come at any moment, in any order:
  a started request moves any number of bytes, completes in full, short or with an error; a linked
  request starts only after its predecessor completed in full and is otherwise cancelled.
*/
module Threadlets {
  import opened Wrappers
  import opened Bytes
  import opened EchoSpec

  type Ptr = nat   // the address of a malloc'd threadlet
  type Rid = nat   // requests are numbered in the order they were prepared

  const RING_ENTRIES: nat := 4096
  const ECANCELED: int := 125

  datatype Pc = ACCEPTED | RECEIVED_HEADER | RECEIVED_MSG

  /** Memory a request may touch; `Heap(p)` is the block malloc'd for threadlet `p`'s `buf`. */
  datatype Loc = MsgSizeConv | HeaderBuf | Heap(owner: Ptr) | Null

  datatype Threadlet = Threadlet(pc: Pc, fd: int, buf: Loc)

  datatype Op =
    | Accept(fd: int)
    | Send(fd: int, loc: Loc, len: nat)
    | Recv(fd: int, loc: Loc, len: nat)

  /** A submission queue entry: `data` is its user data, `link` is IOSQE_IO_LINK. */
  datatype Sqe = Sqe(op: Op, data: Option<Ptr>, link: bool)

  datatype Config = Config(msgSize: nat, listenFd: int)

  // ---------- one iteration of the for-each ----------

  /** What handling one completion does: new threadlets, entries queued, memory allocated, exit. */
  datatype Effect = Effect(heap: map<Ptr, Threadlet>, brk: Ptr, sqes: seq<Sqe>, malloc: Option<Loc>, exits: bool)

  function AcceptSqe(c: Config, p: Ptr): Sqe {
    Sqe(Accept(c.listenFd), Some(p), false)
  }

  function Dispatch(c: Config, heap: map<Ptr, Threadlet>, brk: Ptr, data: Option<Ptr>, res: int): Effect
    requires data.Some? ==> data.value in heap
  {
    if data.None? then
      Effect(heap, brk, [], None, false)
    else
      var p := data.value;
      var r := heap[p];
      match r.pc
      case ACCEPTED =>
        if res < 0 then Effect(heap, brk, [], None, true)
        else
          Effect(heap[brk := Threadlet(ACCEPTED, c.listenFd, Null)][p := Threadlet(RECEIVED_HEADER, res, r.buf)],
                 brk + 1,
                 [Sqe(Send(res, MsgSizeConv, 4), None, false),
                  AcceptSqe(c, brk),
                  Sqe(Recv(res, HeaderBuf, 2), Some(p), false)],
                 None, false)
      case RECEIVED_HEADER =>
        if res < 2 then Effect(heap, brk, [], None, false)
        else
          Effect(heap[p := Threadlet(RECEIVED_MSG, r.fd, Heap(p))],
                 brk,
                 [Sqe(Recv(r.fd, Heap(p), c.msgSize), Some(p), false)],
                 Some(Heap(p)), false)
      case RECEIVED_MSG =>
        if res < c.msgSize then Effect(heap, brk, [], None, false)
        else
          Effect(heap,
                 brk,
                 [Sqe(Send(r.fd, r.buf, c.msgSize), None, true),
                  Sqe(Recv(r.fd, r.buf, c.msgSize), Some(p), false)],
                 None, false)
  }

  // ---------- the whole machine ----------

  datatype Status =
    | Queued               // in the submission queue, not yet submitted
    | Waiting              // submitted, linked behind a request that has not completed
    | Started(done: nat)   // the kernel has moved `done` bytes
    | Cancelled            // its predecessor did not complete in full
    | Posted(res: int)     // its completion is in the completion queue

  datatype Req = Req(sqe: Sqe, st: Status)

  /** A connection. `inp` is all the client has sent, `taken` how much of it was received, `wire` all
      that was sent to the client; `hdr` and `echoed` are the parts of `wire` that came from
      `msg_size_conv` and from message buffers. */
  datatype Conn = Conn(inp: seq<byte>, taken: nat, hdr: seq<byte>, echoed: seq<byte>, wire: seq<byte>)

  datatype Exit = Running | AcceptError | SqFull

  datatype World = World(
    heap: map<Ptr, Threadlet>, brk: Ptr,
    reqs: map<Rid, Req>, next: Rid, queued: nat,
    cq: seq<Rid>, i: nat, inBatch: bool,
    mem: map<Loc, seq<byte>>, conns: map<int, Conn>, exit: Exit)

  datatype Action =
    | Turn
    | Wake
    | Handle(junk: seq<byte>)                  // `junk` is what a fresh malloc'd buffer contains
    | Transfer(r: Rid, k: nat)
    | Complete(r: Rid, res: int)
    | Accepted(r: Rid, fd: int, early: seq<byte>)
    | AcceptFailed(r: Rid, res: int)
    | Cancel(r: Rid)
    | ClientSend(fd: int, bytes: seq<byte>)

  /** Before the first `io_uring_submit`: one accept is queued. */
  function Init(c: Config): World
    requires MsgSize(c.msgSize)
  {
    World(map[0 := Threadlet(ACCEPTED, c.listenFd, Null)], 1,
          map[0 := Req(AcceptSqe(c, 0), Queued)], 1, 1,
          [], 0, true,
          map[MsgSizeConv := Header(c.msgSize), HeaderBuf := [0, 0]], map[], Running)
  }

  function Enqueue(reqs: map<Rid, Req>, next: Rid, sqes: seq<Sqe>): map<Rid, Req> {
    reqs + map r: Rid | next <= r < next + |sqes| :: NewReq(next, sqes, r)
  }

  function NewReq(next: Rid, sqes: seq<Sqe>, r: Rid): Req
    requires next <= r < next + |sqes|
  {
    Req(sqes[r - next], Queued)
  }

  function SubmitStatus(reqs: map<Rid, Req>, r: Rid): Status
    requires r in reqs
  {
    if !reqs[r].st.Queued? then reqs[r].st
    else if r > 0 && r - 1 in reqs && reqs[r - 1].st.Queued? && reqs[r - 1].sqe.link then Waiting
    else Started(0)
  }

  function Submit(reqs: map<Rid, Req>): map<Rid, Req> {
    map r | r in reqs :: Req(reqs[r].sqe, SubmitStatus(reqs, r))
  }

  /** Requests after `r` completed with `res`, `full` saying whether that breaks a link. */
  function Post(reqs: map<Rid, Req>, r: Rid, res: int, full: bool): map<Rid, Req>
    requires r in reqs
  {
    var q := reqs[r := Req(reqs[r].sqe, Posted(res))];
    if reqs[r].sqe.link && r + 1 in reqs && reqs[r + 1].st.Waiting? then
      q[r + 1 := Req(reqs[r + 1].sqe, if full then Started(0) else Cancelled)]
    else q
  }

  predicate CanTransfer(w: World, r: Rid, k: nat) {
    && r in w.reqs && w.reqs[r].st.Started? && !w.reqs[r].sqe.op.Accept?
    && var op := w.reqs[r].sqe.op;
       && op.fd in w.conns && op.loc in w.mem
       && w.reqs[r].st.done + k <= op.len <= |w.mem[op.loc]|
       && (op.Recv? ==> w.conns[op.fd].taken + k <= |w.conns[op.fd].inp|)
  }

  predicate Can(c: Config, w: World, a: Action) {
    && w.exit == Running
    && match a
       case Turn => w.inBatch && w.i == |w.cq|
       case Wake => !w.inBatch && |w.cq| > 0
       case Handle(junk) =>
         && w.inBatch && w.i < |w.cq| && |junk| == BUF_SIZE
         && w.cq[w.i] in w.reqs && w.reqs[w.cq[w.i]].st.Posted?
         && (var data := w.reqs[w.cq[w.i]].sqe.data; data.Some? ==> data.value in w.heap)
       case Transfer(r, k) => CanTransfer(w, r, k)
       case Complete(r, res) =>
         && r in w.reqs && w.reqs[r].st.Started? && !w.reqs[r].sqe.op.Accept?
         && (res == w.reqs[r].st.done || res < 0)
       case Accepted(r, fd, early) =>
         && r in w.reqs && w.reqs[r].st.Started? && w.reqs[r].sqe.op.Accept?
         && fd >= 0 && fd != c.listenFd && fd !in w.conns
       case AcceptFailed(r, res) =>
         && r in w.reqs && w.reqs[r].st.Started? && w.reqs[r].sqe.op.Accept? && res < 0
       case Cancel(r) => r in w.reqs && w.reqs[r].st.Cancelled?
       case ClientSend(fd, bytes) => fd in w.conns
  }

  function ApplyHandle(c: Config, w: World, junk: seq<byte>): World
    requires Can(c, w, Handle(junk))
  {
    var r := w.cq[w.i];
    var eff := Dispatch(c, w.heap, w.brk, w.reqs[r].sqe.data, w.reqs[r].st.res);
    if eff.exits then w.(exit := AcceptError)
    else if w.queued + |eff.sqes| > RING_ENTRIES then w.(exit := SqFull)
    else
      w.(heap := eff.heap, brk := eff.brk,
         reqs := Enqueue(w.reqs - {r}, w.next, eff.sqes), next := w.next + |eff.sqes|,
         queued := w.queued + |eff.sqes|, i := w.i + 1,
         mem := if eff.malloc.Some? then w.mem[eff.malloc.value := junk] else w.mem)
  }

  function ApplyTransfer(w: World, r: Rid, k: nat): World
    requires CanTransfer(w, r, k)
  {
    var q := w.reqs[r];
    var op, d := q.sqe.op, q.st.done;
    var cn := w.conns[op.fd];
    var w1 := w.(reqs := w.reqs[r := Req(q.sqe, Started(d + k))]);
    if op.Recv? then
      w1.(conns := w.conns[op.fd := cn.(taken := cn.taken + k)],
          mem := w.mem[op.loc := Patch(w.mem[op.loc], d, cn.inp[cn.taken..cn.taken + k])])
    else
      var chunk := w.mem[op.loc][d..d + k];
      w1.(conns := w.conns[op.fd :=
            cn.(wire := cn.wire + chunk,
                hdr := if op.loc == MsgSizeConv then cn.hdr + chunk else cn.hdr,
                echoed := if op.loc == MsgSizeConv then cn.echoed else cn.echoed + chunk)])
  }

  function Apply(c: Config, w: World, a: Action): World
    requires Can(c, w, a)
  {
    match a
    case Turn => w.(reqs := Submit(w.reqs), queued := 0, cq := w.cq[w.i..], i := 0, inBatch := false)
    case Wake => w.(inBatch := true)
    case Handle(junk) => ApplyHandle(c, w, junk)
    case Transfer(r, k) => ApplyTransfer(w, r, k)
    case Complete(r, res) =>
      w.(reqs := Post(w.reqs, r, res, res == w.reqs[r].sqe.op.len), cq := w.cq + [r])
    case Accepted(r, fd, early) =>
      w.(reqs := Post(w.reqs, r, fd, true), cq := w.cq + [r],
         conns := w.conns[fd := Conn(early, 0, [], [], [])])
    case AcceptFailed(r, res) =>
      w.(reqs := Post(w.reqs, r, res, false), cq := w.cq + [r])
    case Cancel(r) =>
      w.(reqs := Post(w.reqs, r, -ECANCELED, false), cq := w.cq + [r])
    case ClientSend(fd, bytes) =>
      w.(conns := w.conns[fd := w.conns[fd].(inp := w.conns[fd].inp + bytes)])
  }

  /** The state after a list of actions, if each of them was possible. */
  function Run(c: Config, acts: seq<Action>): Option<World>
    requires MsgSize(c.msgSize)
    decreases acts
  {
    if acts == [] then Some(Init(c))
    else
      var m := |acts| - 1;
      var w := Run(c, acts[..m]);
      if w.Some? && Can(c, w.value, acts[m]) then Some(Apply(c, w.value, acts[m])) else None
  }
}
