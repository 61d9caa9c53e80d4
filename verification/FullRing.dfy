/**
  The bounds of `RingCapacity` are exact: a run that serves 2047 connections, in which all of them complete
  a message and one more connection arrives in the same batch, stops with "sq is full".
*/
module FullRing {
  import opened Wrappers
  import opened Bytes
  import opened EchoSpec
  import opened Threadlets
  import opened ThreadletInv
  import opened ThreadletTheorems
  import opened OneBatch
  import opened RingCapacity

  const LIVE: nat := 2047

  /** A run that never began a batch with more than 2047 served connections. */
  ghost predicate Reached(c: Config, acts: seq<Action>, w: World)
    requires MsgSize(c.msgSize)
  {
    Run(c, acts) == Some(w) && Load(c, acts, LIVE)
  }

  lemma Extend(c: Config, acts: seq<Action>, w: World, a: Action) returns (acts': seq<Action>)
    requires MsgSize(c.msgSize) && Reached(c, acts, w) && Can(c, w, a)
    requires a == Wake ==> |Receives(w)| <= LIVE
    ensures Reached(c, acts', Apply(c, w, a))
  {
    acts' := acts + [a];
    RunExtend(c, acts, w, a);
  }

  lemma WakeUp(c: Config, acts: seq<Action>, w: World) returns (acts': seq<Action>)
    requires MsgSize(c.msgSize) && Reached(c, acts, w) && Can(c, w, Wake) && |w.conns| <= LIVE
    ensures Reached(c, acts', Apply(c, w, Wake))
  {
    ReceivesAreConnections(c, acts);
    acts' := Extend(c, acts, w, Wake);
  }

  // ---------- serving one more connection ----------

  /** Request `r` receives a message of threadlet `p` on a connection that has one more message to give. */
  ghost predicate Serving(c: Config, w: World, r: Rid) {
    && r in w.reqs && w.reqs[r].sqe.op.Recv? && w.reqs[r].sqe.data.Some? && !w.reqs[r].sqe.link
    && var p, fd := w.reqs[r].sqe.data.value, w.reqs[r].sqe.op.fd;
       && w.reqs[r].sqe.op == Recv(fd, Heap(p), c.msgSize)
       && p in w.heap && w.heap[p] == Threadlet(RECEIVED_MSG, fd, Heap(p))
       && fd in w.conns && Heap(p) in w.mem && |w.mem[Heap(p)]| == BUF_SIZE
  }

  /** A served connection whose next message is there, and whose receive has just been started. */
  ghost predicate Waiting(c: Config, w: World, r: Rid) {
    && Serving(c, w, r) && w.reqs[r].st == Started(0)
    && var cn := w.conns[w.reqs[r].sqe.op.fd]; cn.taken + c.msgSize <= |cn.inp|
  }

  ghost predicate Distinct(rs: seq<Rid>) {
    forall i, j :: 0 <= i < j < |rs| ==> rs[i] != rs[j]
  }

  /** The accept that is under way. */
  ghost predicate Accepting(c: Config, w: World, acc: Rid) {
    && acc in w.reqs && w.reqs[acc].sqe.data.Some? && w.reqs[acc].sqe == AcceptSqe(c, w.reqs[acc].sqe.data.value)
    && w.reqs[acc].sqe.data.value in w.heap && w.heap[w.reqs[acc].sqe.data.value].pc == ACCEPTED
    && w.reqs[acc].sqe.data.value < w.brk
  }

  /** Nothing is queued; descriptors and addresses from `top` and `brk` on are free. */
  ghost predicate Quiet(c: Config, w: World, top: int) {
    && w.exit == Running && w.i == 0 && w.queued == 0
    && (forall r :: r in w.reqs ==>
          r < w.next && !w.reqs[r].st.Queued? && !w.reqs[r].st.Waiting? && !w.reqs[r].sqe.link)
    && (forall p :: p in w.heap ==> p < w.brk)
    && top >= 0 && top > c.listenFd && (forall fd :: fd in w.conns ==> fd < top)
    && HeaderBuf in w.mem && |w.mem[HeaderBuf]| == 2
  }

  /** Receives for each of `rs` are under way. */
  ghost predicate AllWaiting(c: Config, w: World, rs: seq<Rid>) {
    Distinct(rs) && forall j :: 0 <= j < |rs| ==> Waiting(c, w, rs[j])
  }

  /** What a step must leave alone for receive `r` to stay as it is. */
  ghost predicate Untouched(w: World, w': World, r: Rid)
    requires r in w.reqs && !w.reqs[r].sqe.op.Accept? && w.reqs[r].sqe.data.Some?
  {
    var op, p := w.reqs[r].sqe.op, w.reqs[r].sqe.data.value;
    && Lookup(w'.reqs, r) == Some(w.reqs[r])
    && Lookup(w'.heap, p) == Lookup(w.heap, p)
    && Lookup(w'.conns, op.fd) == Lookup(w.conns, op.fd)
    && Lookup(w'.mem, op.loc) == Lookup(w.mem, op.loc)
  }

  lemma StaysWaiting(c: Config, w: World, w': World, r: Rid)
    requires Waiting(c, w, r) && Untouched(w, w', r)
    ensures Waiting(c, w', r)
  {
  }

  /** The loop waits, with one accept and a receive for each of `rs` under way. */
  ghost predicate Idle(c: Config, w: World, acc: Rid, rs: seq<Rid>, top: int) {
    && Quiet(c, w, top) && !w.inBatch && w.cq == [] && AllWaiting(c, w, rs) && |w.conns| == |rs|
    && Accepting(c, w, acc) && w.reqs[acc].st == Started(0)
  }

  /** The loop is about to handle the completion of `r` only. */
  ghost predicate OneCompletion(c: Config, w: World, r: Rid, res: int, rs: seq<Rid>, top: int) {
    && Quiet(c, w, top) && w.inBatch && w.cq == [r] && AllWaiting(c, w, rs) && |w.conns| == |rs| + 1
    && r in w.reqs && w.reqs[r].st == Posted(res)
  }

  /** A greeting and a message. */
  function Say(c: Config): (s: seq<byte>)
    ensures |s| == 2 + c.msgSize
  {
    seq(2 + c.msgSize, _ => 0)
  }

  /** A connection with a greeting and a message arrives. */
  lemma Arrive(c: Config, acts: seq<Action>, w: World, acc: Rid, rs: seq<Rid>, top: int)
    returns (acts': seq<Action>, w': World)
    requires MsgSize(c.msgSize) && Reached(c, acts, w) && Idle(c, w, acc, rs, top) && |rs| < LIVE
    ensures Reached(c, acts', w') && OneCompletion(c, w', acc, top, rs, top + 1) && Accepting(c, w', acc)
    ensures top in w'.conns && w'.conns[top] == Conn(Say(c), 0, [], [], [])
  {
    var w1 := Apply(c, w, Accepted(acc, top, Say(c)));
    var acts1 := Extend(c, acts, w, Accepted(acc, top, Say(c)));
    assert w1.conns.Keys == w.conns.Keys + {top};
    forall j | 0 <= j < |rs| ensures Waiting(c, w1, rs[j]) { StaysWaiting(c, w, w1, rs[j]); }
    acts' := WakeUp(c, acts1, w1);
    w' := Apply(c, w1, Wake);
    forall j | 0 <= j < |rs| ensures Waiting(c, w', rs[j]) { StaysWaiting(c, w1, w', rs[j]); }
  }

  /** Threadlet `p` waits for the greeting of connection `top - 1`. */
  ghost predicate Greeting(c: Config, w: World, g: Rid, p: Ptr, top: int) {
    && g in w.reqs && w.reqs[g].sqe == Sqe(Recv(top - 1, HeaderBuf, 2), Some(p), false)
    && p in w.heap && w.heap[p].pc == RECEIVED_HEADER && w.heap[p].fd == top - 1
    && top - 1 in w.conns && w.conns[top - 1].inp == Say(c)
  }

  /** Handling the only completion and submitting what it has queued. */
  lemma HandleAndSubmit(c: Config, acts: seq<Action>, w: World, r: Rid, res: int, rs: seq<Rid>, top: int, eff: Effect)
    returns (acts': seq<Action>, w': World)
    requires MsgSize(c.msgSize) && Reached(c, acts, w) && OneCompletion(c, w, r, res, rs, top)
    requires w.reqs[r].sqe.data.Some? && w.reqs[r].sqe.data.value in w.heap
    requires eff == Dispatch(c, w.heap, w.brk, w.reqs[r].sqe.data, res) && !eff.exits && |eff.sqes| <= 3
    requires forall k :: 0 <= k < |eff.sqes| ==> !eff.sqes[k].link
    ensures Reached(c, acts', w')
    ensures Submitted(w, r, eff, w')
  {
    var w1;
    w1, w' := HandleThenTurn(c, w, r, eff);
    var acts1 := Extend(c, acts, w, Handle(Junk()));
    acts' := Extend(c, acts1, w1, Turn);
  }

  /** The new connection is told the size and asked for its greeting, and the next accept is under way. */
  lemma Welcome(c: Config, acts: seq<Action>, w: World, acc: Rid, rs: seq<Rid>, top: int)
    returns (acts': seq<Action>, w': World, acc': Rid, g: Rid, p: Ptr)
    requires MsgSize(c.msgSize) && Reached(c, acts, w) && OneCompletion(c, w, acc, top - 1, rs, top)
    requires Accepting(c, w, acc) && top > 0 && top - 1 in w.conns && w.conns[top - 1] == Conn(Say(c), 0, [], [], [])
    ensures Reached(c, acts', w') && Quiet(c, w', top) && !w'.inBatch && w'.cq == [] && w'.conns == w.conns
    ensures Accepting(c, w', acc') && w'.reqs[acc'].st == Started(0) && acc' != g
    ensures Greeting(c, w', g, p, top) && w'.reqs[g].st == Started(0) && AllWaiting(c, w', rs)
  {
    p := w.reqs[acc].sqe.data.value;
    var eff := Dispatch(c, w.heap, w.brk, Some(p), top - 1);
    acts', w' := HandleAndSubmit(c, acts, w, acc, top - 1, rs, top, eff);
    acc', g := w.next + 1, w.next + 2;
    StillQuiet(c, w, acc, eff, w', top);
    assert Lookup(w'.reqs, acc') == After(w, acc, eff.sqes, acc') && Lookup(w'.reqs, g) == After(w, acc, eff.sqes, g);
    forall j | 0 <= j < |rs| ensures Waiting(c, w', rs[j]) {
      assert Lookup(w'.reqs, rs[j]) == After(w, acc, eff.sqes, rs[j]);
      StaysWaiting(c, w, w', rs[j]);
    }
  }

  lemma StillQuiet(c: Config, w: World, r: Rid, eff: Effect, w': World, top: int)
    requires Quiet(c, w, top) && Submitted(w, r, eff, w') && forall k :: 0 <= k < |eff.sqes| ==> !eff.sqes[k].link
    requires (forall p :: p in eff.heap ==> p < eff.brk) && eff.malloc != Some(HeaderBuf)
    ensures Quiet(c, w', top)
  {
    forall k | k in w'.reqs
      ensures k < w'.next && !w'.reqs[k].st.Queued? && !w'.reqs[k].st.Waiting? && !w'.reqs[k].sqe.link
    {
      assert Lookup(w'.reqs, k) == After(w, r, eff.sqes, k);
    }
  }

  /** Other receives are on other connections. */
  lemma OtherFd(c: Config, acts: seq<Action>, w: World, r: Rid, r': Rid)
    requires MsgSize(c.msgSize) && Run(c, acts) == Some(w) && r in Receives(w) && r' in Receives(w) && r != r'
    ensures w.reqs[r].sqe.op.fd != w.reqs[r'].sqe.op.fd
  {
    ReceivesAreConnections(c, acts);
  }

  /** A receive is carried out in full; others do not notice. */
  lemma ReceiveAll(c: Config, acts: seq<Action>, w: World, r: Rid, fd: int, loc: Loc, len: nat, top: int)
    returns (acts': seq<Action>, w': World)
    requires MsgSize(c.msgSize) && Reached(c, acts, w) && Quiet(c, w, top) && !w.inBatch
    requires r in w.reqs && w.reqs[r].sqe.op == Recv(fd, loc, len) && w.reqs[r].st == Started(0)
    requires fd in w.conns && w.conns[fd].taken + len <= |w.conns[fd].inp| && loc in w.mem && len <= |w.mem[loc]|
    ensures Reached(c, acts', w') && Quiet(c, w', top) && loc in w'.mem && |w'.mem[loc]| == |w.mem[loc]|
    ensures w'.conns.Keys == w.conns.Keys
    ensures w' == w.(reqs := w.reqs[r := Req(w.reqs[r].sqe, Posted(len))], cq := w.cq + [r],
                     conns := w.conns[fd := w.conns[fd].(taken := w.conns[fd].taken + len)],
                     mem := w.mem[loc := w'.mem[loc]])
  {
    var w1 := Apply(c, w, Transfer(r, len));
    var acts1 := Extend(c, acts, w, Transfer(r, len));
    MoveAll(c, w, r, fd, loc, len, top, w1);
    w' := Apply(c, w1, Complete(r, len));
    acts' := Extend(c, acts1, w1, Complete(r, len));
  }

  lemma MoveAll(c: Config, w: World, r: Rid, fd: int, loc: Loc, len: nat, top: int, w1: World)
    requires Quiet(c, w, top) && r in w.reqs && w.reqs[r].sqe.op == Recv(fd, loc, len) && w.reqs[r].st == Started(0)
    requires fd in w.conns && w.conns[fd].taken + len <= |w.conns[fd].inp| && loc in w.mem && len <= |w.mem[loc]|
    requires Can(c, w, Transfer(r, len)) && w1 == Apply(c, w, Transfer(r, len))
    ensures Quiet(c, w1, top) && loc in w1.mem && |w1.mem[loc]| == |w.mem[loc]| && w1.conns.Keys == w.conns.Keys
    ensures w1 == w.(reqs := w.reqs[r := Req(w.reqs[r].sqe, Started(len))],
                     conns := w.conns[fd := w.conns[fd].(taken := w.conns[fd].taken + len)],
                     mem := w.mem[loc := w1.mem[loc]])
    ensures Post(w1.reqs, r, len, true) == w.reqs[r := Req(w.reqs[r].sqe, Posted(len))]
  {
  }

  /** The new connection's greeting arrives. */
  lemma Greet(c: Config, acts: seq<Action>, w: World, acc: Rid, g: Rid, p: Ptr, rs: seq<Rid>, top: int)
    returns (acts': seq<Action>, w': World)
    requires MsgSize(c.msgSize) && Reached(c, acts, w) && Quiet(c, w, top) && !w.inBatch && w.cq == [] && acc != g
    requires Accepting(c, w, acc) && w.reqs[acc].st == Started(0) && AllWaiting(c, w, rs)
    requires |w.conns| == |rs| + 1 <= LIVE
    requires Greeting(c, w, g, p, top) && w.reqs[g].st == Started(0) && w.conns[top - 1].taken == 0
    ensures Reached(c, acts', w') && OneCompletion(c, w', g, 2, rs, top)
    ensures Accepting(c, w', acc) && w'.reqs[acc].st == Started(0)
    ensures Greeting(c, w', g, p, top) && w'.conns[top - 1].taken == 2
  {
    var acts1, w1 := ReceiveAll(c, acts, w, g, top - 1, HeaderBuf, 2, top);
    forall j | 0 <= j < |rs| ensures Waiting(c, w1, rs[j]) {
      OtherFd(c, acts, w, rs[j], g);
      StaysWaiting(c, w, w1, rs[j]);
    }
    SameSize(w.conns, w1.conns);
    w' := Apply(c, w1, Wake);
    acts' := WakeUp(c, acts1, w1);
    forall j | 0 <= j < |rs| ensures Waiting(c, w', rs[j]) { StaysWaiting(c, w1, w', rs[j]); }
  }

  lemma SameSize(a: map<int, Conn>, b: map<int, Conn>)
    requires a.Keys == b.Keys
    ensures |a| == |b|
  {
    KeysCard(a, b);
  }

  /** The new connection's first message is asked for. */
  lemma FirstMessage(c: Config, acts: seq<Action>, w: World, acc: Rid, g: Rid, p: Ptr, rs: seq<Rid>, top: int)
    returns (acts': seq<Action>, w': World, r: Rid)
    requires MsgSize(c.msgSize) && Reached(c, acts, w) && OneCompletion(c, w, g, 2, rs, top) && acc != g
    requires Accepting(c, w, acc) && w.reqs[acc].st == Started(0)
    requires Greeting(c, w, g, p, top) && w.conns[top - 1].taken == 2
    ensures Reached(c, acts', w') && Idle(c, w', acc, rs + [r], top)
  {
    var eff := Dispatch(c, w.heap, w.brk, Some(p), 2);
    acts', w' := HandleAndSubmit(c, acts, w, g, 2, rs, top, eff);
    r := w.next;
    StillQuiet(c, w, g, eff, w', top);
    assert Lookup(w'.reqs, acc) == After(w, g, eff.sqes, acc) && Lookup(w'.reqs, r) == After(w, g, eff.sqes, r);
    assert Waiting(c, w', r);
    forall j | 0 <= j < |rs| ensures Waiting(c, w', rs[j]) {
      assert Lookup(w'.reqs, rs[j]) == After(w, g, eff.sqes, rs[j]);
      StaysWaiting(c, w, w', rs[j]);
    }
  }

  /** One more connection is served. */
  lemma ServeOne(c: Config, acts: seq<Action>, w: World, acc: Rid, rs: seq<Rid>, top: int)
    returns (acts': seq<Action>, w': World, acc': Rid, r: Rid)
    requires MsgSize(c.msgSize) && Reached(c, acts, w) && Idle(c, w, acc, rs, top) && |rs| < LIVE
    ensures Reached(c, acts', w') && Idle(c, w', acc', rs + [r], top + 1)
  {
    acts', w' := Arrive(c, acts, w, acc, rs, top);
    var g, p;
    acts', w', acc', g, p := Welcome(c, acts', w', acc, rs, top + 1);
    acts', w' := Greet(c, acts', w', acc', g, p, rs, top + 1);
    acts', w', r := FirstMessage(c, acts', w', acc', g, p, rs, top + 1);
  }

  lemma {:induction false} Serve(c: Config, k: nat)
    returns (acts: seq<Action>, w: World, acc: Rid, rs: seq<Rid>, top: int)
    requires MsgSize(c.msgSize) && k <= LIVE
    ensures Reached(c, acts, w) && Idle(c, w, acc, rs, top) && |rs| == k
    decreases k
  {
    if k == 0 {
      acts := Extend(c, [], Init(c), Turn);
      w, acc, rs := Apply(c, Init(c), Turn), 0, [];
      top := if c.listenFd < 0 then 0 else c.listenFd + 1;
    } else {
      acts, w, acc, rs, top := Serve(c, k - 1);
      var r;
      acts, w, acc, r := ServeOne(c, acts, w, acc, rs, top);
      rs, top := rs + [r], top + 1;
    }
  }

  // ---------- everything completes at once ----------

  /** The first `k` of the receives are complete and in the completion queue, in order. */
  ghost predicate Completed(c: Config, w: World, acc: Rid, rs: seq<Rid>, k: nat, top: int)
    requires k <= |rs|
  {
    && Quiet(c, w, top) && !w.inBatch && w.cq == rs[..k] && Distinct(rs) && |w.conns| == |rs|
    && Accepting(c, w, acc) && w.reqs[acc].st == Started(0)
    && (forall j :: 0 <= j < k ==> Serving(c, w, rs[j]) && w.reqs[rs[j]].st == Posted(c.msgSize))
    && (forall j :: k <= j < |rs| ==> Waiting(c, w, rs[j]))
  }

  lemma CompleteOne(c: Config, acts: seq<Action>, w: World, acc: Rid, rs: seq<Rid>, k: nat, top: int)
    returns (acts': seq<Action>, w': World)
    requires MsgSize(c.msgSize) && Reached(c, acts, w) && k < |rs| && Completed(c, w, acc, rs, k, top)
    ensures Reached(c, acts', w') && Completed(c, w', acc, rs, k + 1, top)
  {
    var r := rs[k];
    var op := w.reqs[r].sqe.op;
    acts', w' := ReceiveAll(c, acts, w, r, op.fd, op.loc, op.len, top);
    SameSize(w.conns, w'.conns);
    forall j | 0 <= j < |rs| && j != k
      ensures Serving(c, w', rs[j]) && w'.reqs[rs[j]] == w.reqs[rs[j]]
      ensures j > k ==> Waiting(c, w', rs[j])
    {
      OtherFd(c, acts, w, rs[j], r);
    }
  }

  lemma {:induction false} CompleteAll(c: Config, acts: seq<Action>, w: World, acc: Rid, rs: seq<Rid>, k: nat, top: int)
    returns (acts': seq<Action>, w': World)
    requires MsgSize(c.msgSize) && Reached(c, acts, w) && k <= |rs| && Completed(c, w, acc, rs, k, top)
    ensures Reached(c, acts', w') && Completed(c, w', acc, rs, |rs|, top)
    decreases |rs| - k
  {
    if k == |rs| {
      acts', w' := acts, w;
    } else {
      acts', w' := CompleteOne(c, acts, w, acc, rs, k, top);
      acts', w' := CompleteAll(c, acts', w', acc, rs, k + 1, top);
    }
  }

  /** The batch: the loop has handled the first `i` of the messages, and the new connection comes last. */
  ghost predicate Batch(c: Config, w: World, acc: Rid, rs: seq<Rid>, i: nat) {
    && w.exit == Running && w.inBatch && w.cq == rs + [acc] && w.i == i <= |rs| && w.queued == 2 * i
    && (forall r :: r in w.reqs ==> r < w.next)
    && Distinct(rs) && acc !in rs && Accepting(c, w, acc) && w.reqs[acc].st.Posted? && w.reqs[acc].st.res >= 0
    && (forall j :: i <= j < |rs| ==> Serving(c, w, rs[j]) && w.reqs[rs[j]].st == Posted(c.msgSize))
  }

  lemma OneMoreArrives(c: Config, acts: seq<Action>, w: World, acc: Rid, rs: seq<Rid>, top: int)
    returns (acts': seq<Action>, w': World)
    requires MsgSize(c.msgSize) && Reached(c, acts, w) && Completed(c, w, acc, rs, |rs|, top) && |rs| <= LIVE
    ensures Reached(c, acts', w') && Batch(c, w', acc, rs, 0) && |w'.conns| == |rs| + 1
  {
    ReceivesAreConnections(c, acts);
    var a := Accepted(acc, top, []);
    var w1 := Apply(c, w, a);
    var acts1 := Extend(c, acts, w, a);
    KernelBudget(c, w, a);
    assert w1.conns.Keys == w.conns.Keys + {top};
    acts' := Extend(c, acts1, w1, Wake);
    w' := Apply(c, w1, Wake);
    assert rs[..|rs|] == rs;
    forall j | 0 <= j < |rs| ensures Serving(c, w', rs[j]) && w'.reqs[rs[j]].st == Posted(c.msgSize) {
      assert w'.reqs[rs[j]] == w.reqs[rs[j]];
    }
  }

  lemma HandleMessage(c: Config, acts: seq<Action>, w: World, acc: Rid, rs: seq<Rid>, i: nat)
    returns (acts': seq<Action>, w': World)
    requires MsgSize(c.msgSize) && Reached(c, acts, w) && Batch(c, w, acc, rs, i) && i < |rs| <= LIVE
    ensures Reached(c, acts', w') && Batch(c, w', acc, rs, i + 1) && w'.conns == w.conns
  {
    var r := rs[i];
    assert w.cq[w.i] == r;
    var eff := Dispatch(c, w.heap, w.brk, w.reqs[r].sqe.data, c.msgSize);
    assert |eff.sqes| == 2 && eff.heap == w.heap && eff.brk == w.brk && !eff.exits && eff.malloc == None;
    acts' := Extend(c, acts, w, Handle(Junk()));
    w' := Apply(c, w, Handle(Junk()));
    forall k: Rid ensures Lookup(w'.reqs, k) == Lookup(Enqueue(w.reqs - {r}, w.next, eff.sqes), k) {
    }
    EnqueueLookup(w.reqs, r, w.next, eff.sqes, acc);
    forall j | i < j < |rs| ensures Serving(c, w', rs[j]) && w'.reqs[rs[j]] == w.reqs[rs[j]] {
      EnqueueLookup(w.reqs, r, w.next, eff.sqes, rs[j]);
    }
    forall k | k in w'.reqs ensures k < w'.next {
      EnqueueLookup(w.reqs, r, w.next, eff.sqes, k);
    }
  }

  lemma {:induction false} HandleMessages(c: Config, acts: seq<Action>, w: World, acc: Rid, rs: seq<Rid>, i: nat)
    returns (acts': seq<Action>, w': World)
    requires MsgSize(c.msgSize) && Reached(c, acts, w) && Batch(c, w, acc, rs, i) && |rs| <= LIVE
    ensures Reached(c, acts', w') && Batch(c, w', acc, rs, |rs|) && w'.conns == w.conns
    decreases |rs| - i
  {
    if i == |rs| {
      acts', w' := acts, w;
    } else {
      acts', w' := HandleMessage(c, acts, w, acc, rs, i);
      acts', w' := HandleMessages(c, acts', w', acc, rs, i + 1);
    }
  }

  /** 2047 served connections and one that arrives are too many for one batch, so the bounds of
      `QueueNeverFull` and of `ManyConnections` cannot be raised. */
  lemma QueueCanFill(c: Config) returns (acts: seq<Action>)
    requires MsgSize(c.msgSize)
    ensures Run(c, acts).Some? && Load(c, acts, LIVE)
    ensures Run(c, acts).value.exit == SqFull && |Run(c, acts).value.conns| == LIVE + 1
  {
    var w, acc, rs, top;
    acts, w, acc, rs, top := Serve(c, LIVE);
    acts, w := CompleteAll(c, acts, w, acc, rs, 0, top);
    acts, w := OneMoreArrives(c, acts, w, acc, rs, top);
    acts, w := HandleMessages(c, acts, w, acc, rs, 0);
    acts := Extend(c, acts, w, Handle(Junk()));
  }

  /** All runs with at most `m` connections keep clear of a full submission queue exactly when m <= 2047. */
  lemma CapacityIff(c: Config, m: nat)
    requires MsgSize(c.msgSize)
    ensures (forall acts :: Run(c, acts).Some? && |Run(c, acts).value.conns| <= m ==> Run(c, acts).value.exit != SqFull)
            <==> m <= LIVE
  {
    if m <= LIVE {
      forall acts | Run(c, acts).Some? && |Run(c, acts).value.conns| <= m ensures Run(c, acts).value.exit != SqFull {
        ManyConnections(c, acts);
      }
    } else {
      var acts := QueueCanFill(c);
    }
  }

  /** The same for served connections at the beginning of batches, the exact bound being 2046. */
  lemma LoadIff(c: Config, live: nat)
    requires MsgSize(c.msgSize)
    ensures (forall acts :: Run(c, acts).Some? && Load(c, acts, live) ==> Run(c, acts).value.exit != SqFull)
            <==> live <= 2046
  {
    if live <= 2046 {
      forall acts | Run(c, acts).Some? && Load(c, acts, live) ensures Run(c, acts).value.exit != SqFull {
        QueueNeverFull(c, acts, live);
      }
    } else {
      var acts := QueueCanFill(c);
      LoadMonotone(c, acts, LIVE, live);
    }
  }

  lemma {:induction false} LoadMonotone(c: Config, acts: seq<Action>, a: nat, b: nat)
    requires MsgSize(c.msgSize) && Run(c, acts).Some? && Load(c, acts, a) && a <= b
    ensures Load(c, acts, b)
    decreases acts
  {
    if acts != [] { LoadMonotone(c, Front(acts), a, b); }
  }
}
