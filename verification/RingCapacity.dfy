/** How many entries one batch of completions can queue, and when the submission queue is full. */
module RingCapacity {
  import opened Wrappers
  import opened Bytes
  import opened EchoSpec
  import opened Threadlets
  import opened ThreadletInv
  import opened ThreadletTheorems

  /** Receives, and accepts, that are submitted and not yet handled; there is one receive for every
      connection that is still served. */
  ghost function Receives(w: World): set<Rid> {
    set r | r in w.reqs && !w.reqs[r].st.Queued? && w.reqs[r].sqe.op.Recv?
  }

  ghost function Accepts(w: World): set<Rid> {
    set r | r in w.reqs && !w.reqs[r].st.Queued? && w.reqs[r].sqe.op.Accept?
  }

  /** Every receive still to be handled in this batch queues at most two entries, an accept three. */
  ghost predicate Budget(w: World, total: nat) {
    && (w.inBatch ==> w.queued + 2 * |Receives(w)| + 3 * |Accepts(w)| <= total)
    && (!w.inBatch ==> w.queued == 0)
    && w.exit != SqFull
  }

  lemma KernelBudget(c: Config, w: World, a: Action)
    requires Can(c, w, a) && !a.Turn? && !a.Wake? && !a.Handle?
    ensures Receives(Apply(c, w, a)) == Receives(w) && Accepts(Apply(c, w, a)) == Accepts(w)
  {
  }

  /** What handling a completion costs: accepts queue three entries, receives at most two. */
  lemma HandleCost(c: Config, w: World, b: Book, junk: seq<byte>)
    requires MsgSize(c.msgSize) && Can(c, w, Handle(junk)) && ReqOk(c, w.cq[w.i], ViewOf(w, b, w.cq[w.i]))
    requires b.acc in w.heap && (forall p :: p in w.heap ==> (w.heap[p].pc == ACCEPTED <==> p == b.acc))
    ensures var q := w.reqs[w.cq[w.i]];
            |Dispatch(c, w.heap, w.brk, q.sqe.data, q.st.res).sqes|
              <= if q.sqe.op.Recv? then 2 else if q.sqe.op.Accept? then 3 else 0
  {
  }

  lemma HandleSets(c: Config, w: World, junk: seq<byte>)
    requires Can(c, w, Handle(junk)) && ApplyHandle(c, w, junk).exit == Running
    requires forall r :: r in w.reqs ==> r < w.next
    ensures Receives(ApplyHandle(c, w, junk)) == Receives(w) - {w.cq[w.i]}
    ensures Accepts(ApplyHandle(c, w, junk)) == Accepts(w) - {w.cq[w.i]}
  {
    var q := w.reqs[w.cq[w.i]];
    var eff := Dispatch(c, w.heap, w.brk, q.sqe.data, q.st.res);
    var w' := ApplyHandle(c, w, junk);
    forall r
      ensures r in w'.reqs && !w'.reqs[r].st.Queued? <==> r in w.reqs && !w.reqs[r].st.Queued? && r != w.cq[w.i]
      ensures r in w'.reqs && !w'.reqs[r].st.Queued? ==> w'.reqs[r] == w.reqs[r]
    {
      EnqueueLookup(w.reqs, w.cq[w.i], w.next, eff.sqes, r);
    }
  }

  lemma HandleBudget(c: Config, w: World, b: Book, junk: seq<byte>, total: nat)
    requires MsgSize(c.msgSize) && Can(c, w, Handle(junk)) && ReqOk(c, w.cq[w.i], ViewOf(w, b, w.cq[w.i]))
    requires b.acc in w.heap && (forall p :: p in w.heap ==> (w.heap[p].pc == ACCEPTED <==> p == b.acc))
    requires forall r :: r in w.reqs ==> r < w.next
    requires Budget(w, total) && total <= RING_ENTRIES
    ensures Budget(ApplyHandle(c, w, junk), total)
  {
    var r := w.cq[w.i];
    HandleCost(c, w, b, junk);
    assert w.reqs[r].sqe.op.Recv? ==> r in Receives(w);
    assert w.reqs[r].sqe.op.Accept? ==> r in Accepts(w);
    if ApplyHandle(c, w, junk).exit == Running {
      HandleSets(c, w, junk);
    }
  }

  lemma SingletonBound(s: set<Rid>, x: Rid)
    requires forall y :: y in s ==> y == x
    ensures |s| <= 1
  {
    assert s <= {x};
    SubsetCard(s, {x});
  }

  lemma {:induction false} SubsetCard<T>(a: set<T>, b: set<T>)
    requires a <= b
    ensures |a| <= |b|
    decreases b
  {
    if a != {} {
      var x :| x in a;
      SubsetCard(a - {x}, b - {x});
    }
  }

  lemma AtMostOneAccept(c: Config, acts: seq<Action>)
    requires MsgSize(c.msgSize) && Run(c, acts).Some?
    ensures |Accepts(Run(c, acts).value)| <= 1
  {
    var w, b := Run(c, acts).value, RunBook(c, acts);
    AcceptAlive(c, acts);
    RunThreadlet(c, acts, b.acc);
    forall r | r in Accepts(w) ensures r == b.tok[b.acc] {
      RunReq(c, acts, r);
    }
    SingletonBound(Accepts(w), b.tok[b.acc]);
  }

  /** No batch of the run begins with more than `live` connections being served. */
  ghost predicate Load(c: Config, acts: seq<Action>, live: nat)
    requires MsgSize(c.msgSize) && Run(c, acts).Some?
    decreases acts
  {
    acts == [] || (Load(c, Front(acts), live)
                   && (Last(acts) == Wake ==> |Receives(Run(c, Front(acts)).value)| <= live))
  }

  lemma {:induction false} RunBudget(c: Config, acts: seq<Action>, live: nat)
    requires MsgSize(c.msgSize) && Run(c, acts).Some? && Load(c, acts, live) && 3 + 2 * live <= RING_ENTRIES
    ensures Budget(Run(c, acts).value, 3 + 2 * live)
    decreases acts
  {
    if acts == [] {
      assert Receives(Init(c)) == {} && Accepts(Init(c)) == {};
    } else {
      var front, a := Front(acts), Last(acts);
      RunBudget(c, front, live);
      var w, b := Run(c, front).value, RunBook(c, front);
      match a
      case Wake => 
        AtMostOneAccept(c, front);
        assert Receives(Apply(c, w, Wake)) == Receives(w) && Accepts(Apply(c, w, Wake)) == Accepts(w);
      case Turn =>
      case Handle(junk) =>
        RunKeys(c, front);
        AcceptAlive(c, front);
        RunReq(c, front, w.cq[w.i]);
        forall p | p in w.heap ensures w.heap[p].pc == ACCEPTED <==> p == b.acc { RunThreadlet(c, front, p); }
        HandleBudget(c, w, b, junk, 3 + 2 * live);
      case _ =>
        KernelBudget(c, w, a);
    }
  }

  /** With at most 2046 served connections at the start of every batch, at most 3 + 2 * live entries are
      ever queued and the loop never stops with "sq is full". */
  lemma QueueNeverFull(c: Config, acts: seq<Action>, live: nat)
    requires MsgSize(c.msgSize) && Run(c, acts).Some? && Load(c, acts, live) && live <= 2046
    ensures Run(c, acts).value.queued <= 3 + 2 * live
    ensures Run(c, acts).value.exit != SqFull
  {
    RunBudget(c, acts, live);
  }

  // ---------- served connections are connections ----------

  lemma {:induction false} InjectionCard(s: set<Rid>, f: map<Rid, int>, t: set<int>)
    requires s <= f.Keys && (forall r :: r in s ==> f[r] in t)
    requires forall r, r' :: r in s && r' in s && f[r] == f[r'] ==> r == r'
    ensures |s| <= |t|
    decreases s
  {
    if s != {} {
      var x :| x in s;
      InjectionCard(s - {x}, f, t - {f[x]});
    }
  }

  /** Different receives are on different connections. */
  lemma ReceivesAreConnections(c: Config, acts: seq<Action>)
    requires MsgSize(c.msgSize) && Run(c, acts).Some?
    ensures var w := Run(c, acts).value;
            forall r, r' :: r in Receives(w) && r' in Receives(w) && w.reqs[r].sqe.op.fd == w.reqs[r'].sqe.op.fd ==>
              r == r'
    ensures |Receives(Run(c, acts).value)| <= |Run(c, acts).value.conns|
  {
    var w, b := Run(c, acts).value, RunBook(c, acts);
    var s := Receives(w);
    var f := map r | r in s :: w.reqs[r].sqe.op.fd;
    forall r | r in s ensures f[r] in w.conns.Keys {
      RunReq(c, acts, r);
    }
    forall r, r' | r in s && r' in s && f[r] == f[r'] ensures r == r' {
      RunReq(c, acts, r);
      RunReq(c, acts, r');
      SameOwner(c, w, b, r, r');
    }
    InjectionCard(s, f, w.conns.Keys);
  }

  lemma {:induction false} FewConnectionsLoad(c: Config, acts: seq<Action>, live: nat)
    requires MsgSize(c.msgSize) && Run(c, acts).Some? && |Run(c, acts).value.conns| <= live
    ensures Load(c, acts, live)
    decreases acts
  {
    if acts != [] {
      var w, w' := Run(c, Front(acts)).value, Run(c, acts).value;
      assert w.conns.Keys <= w'.conns.Keys;
      SubsetCard(w.conns.Keys, w'.conns.Keys);
      FewConnectionsLoad(c, Front(acts), live);
      ReceivesAreConnections(c, Front(acts));
    }
  }

  // ---------- how many connections always fit ----------

  /** Accepts that have delivered a connection and are not yet handled. */
  ghost function Arrivals(w: World): set<Rid> {
    set r | r in w.reqs && w.reqs[r].sqe.op.Accept? && w.reqs[r].st.Posted? && w.reqs[r].st.res >= 0
  }

  /** Two entries for every connection, one more for the only accept that a batch can handle. */
  ghost predicate Room(w: World) {
    && (w.exit == Running && w.inBatch ==>
          w.queued + 2 * |Receives(w)| + 2 * |Arrivals(w)| + |Accepts(w)| <= 2 * |w.conns| + 1)
    && (!w.inBatch ==> w.queued == 0)
    && w.exit != SqFull
  }

  /** Receives and arrivals are about different connections. */
  lemma ArrivalsAreConnections(c: Config, acts: seq<Action>)
    requires MsgSize(c.msgSize) && Run(c, acts).Some?
    ensures var w := Run(c, acts).value; |Receives(w)| + |Arrivals(w)| <= |w.conns|
  {
    var w, b := Run(c, acts).value, RunBook(c, acts);
    var s := Receives(w) + Arrivals(w);
    var f := map r | r in s :: FdOf(w.reqs[r]);
    forall r | r in s ensures f[r] in w.conns.Keys {
      RunReq(c, acts, r);
    }
    forall r, r' | r in s && r' in s && f[r] == f[r'] ensures r == r' {
      DifferentFds(c, acts, r, r');
    }
    InjectionCard(s, f, w.conns.Keys);
    assert Receives(w) !! Arrivals(w);
  }

  lemma DifferentFds(c: Config, acts: seq<Action>, r: Rid, r': Rid)
    requires MsgSize(c.msgSize) && Run(c, acts).Some?
    requires var w := Run(c, acts).value;
             && r in Receives(w) + Arrivals(w) && r' in Receives(w) + Arrivals(w)
             && FdOf(w.reqs[r]) == FdOf(w.reqs[r'])
    ensures r == r'
  {
    var w, b := Run(c, acts).value, RunBook(c, acts);
    RunReq(c, acts, r);
    RunReq(c, acts, r');
    if w.reqs[r].sqe.op.Recv? {
      SameOwner(c, w, b, r, r');
    } else if w.reqs[r'].sqe.op.Recv? {
      SameOwner(c, w, b, r', r);
    }
  }

  lemma KernelArrivals(c: Config, w: World, a: Action)
    requires Can(c, w, a) && !a.Turn? && !a.Wake? && !a.Handle?
    ensures Arrivals(Apply(c, w, a)) == if a.Accepted? then Arrivals(w) + {a.r} else Arrivals(w)
    ensures a.Accepted? ==> a.r !in Arrivals(w) && |Apply(c, w, a).conns| == |w.conns| + 1
    ensures !a.Accepted? ==> Apply(c, w, a).conns.Keys == w.conns.Keys
  {
    if a.Accepted? {
      assert Apply(c, w, a).conns.Keys == w.conns.Keys + {a.fd};
    }
  }

  lemma KeysCard<K, V>(a: map<K, V>, b: map<K, V>)
    requires a.Keys == b.Keys
    ensures |a| == |b|
  {
    assert |a| == |a.Keys| && |b| == |b.Keys|;
  }

  lemma KernelRoom(c: Config, w: World, a: Action)
    requires Can(c, w, a) && !a.Turn? && !a.Wake? && !a.Handle? && Room(w)
    ensures Room(Apply(c, w, a))
  {
    KernelBudget(c, w, a);
    KernelArrivals(c, w, a);
    if !a.Accepted? { KeysCard(w.conns, Apply(c, w, a).conns); }
  }

  lemma HandleArrivals(c: Config, w: World, junk: seq<byte>)
    requires Can(c, w, Handle(junk)) && ApplyHandle(c, w, junk).exit == Running
    requires forall r :: r in w.reqs ==> r < w.next
    ensures Arrivals(ApplyHandle(c, w, junk)) == Arrivals(w) - {w.cq[w.i]}
  {
    var q := w.reqs[w.cq[w.i]];
    var eff := Dispatch(c, w.heap, w.brk, q.sqe.data, q.st.res);
    var w' := ApplyHandle(c, w, junk);
    forall r
      ensures r in w'.reqs && w'.reqs[r].st.Posted? <==> r in w.reqs && w.reqs[r].st.Posted? && r != w.cq[w.i]
      ensures r in w'.reqs && w'.reqs[r].st.Posted? ==> w'.reqs[r] == w.reqs[r]
    {
      EnqueueLookup(w.reqs, w.cq[w.i], w.next, eff.sqes, r);
    }
  }

  lemma HandleRoom(c: Config, w: World, b: Book, junk: seq<byte>)
    requires MsgSize(c.msgSize) && Can(c, w, Handle(junk)) && ReqOk(c, w.cq[w.i], ViewOf(w, b, w.cq[w.i]))
    requires b.acc in w.heap && (forall p :: p in w.heap ==> (w.heap[p].pc == ACCEPTED <==> p == b.acc))
    requires (forall r :: r in w.reqs ==> r < w.next) && Room(w) && 2 * |w.conns| + 1 <= RING_ENTRIES
    ensures Room(ApplyHandle(c, w, junk))
  {
    var r := w.cq[w.i];
    HandleCost(c, w, b, junk);
    assert w.reqs[r].sqe.op.Recv? ==> r in Receives(w);
    assert w.reqs[r].sqe.op.Accept? ==> r in Accepts(w);
    assert w.reqs[r].sqe.op.Accept? && w.reqs[r].st.res >= 0 ==> r in Arrivals(w);
    if ApplyHandle(c, w, junk).exit == Running {
      HandleSets(c, w, junk);
      HandleArrivals(c, w, junk);
    }
  }

  lemma {:induction false} RunRoom(c: Config, acts: seq<Action>)
    requires MsgSize(c.msgSize) && Run(c, acts).Some? && 2 * |Run(c, acts).value.conns| + 1 <= RING_ENTRIES
    ensures Room(Run(c, acts).value)
    decreases acts
  {
    if acts == [] {
      assert Receives(Init(c)) == {} && Accepts(Init(c)) == {} && Arrivals(Init(c)) == {};
    } else {
      var front, a := Front(acts), Last(acts);
      var w, b := Run(c, front).value, RunBook(c, front);
      SubsetCard(w.conns.Keys, Run(c, acts).value.conns.Keys);
      RunRoom(c, front);
      match a
      case Wake =>
        AtMostOneAccept(c, front);
        ArrivalsAreConnections(c, front);
        var w' := Apply(c, w, Wake);
        assert Receives(w') == Receives(w) && Accepts(w') == Accepts(w) && Arrivals(w') == Arrivals(w);
      case Turn =>
      case Handle(junk) =>
        RunKeys(c, front);
        AcceptAlive(c, front);
        RunReq(c, front, w.cq[w.i]);
        forall p | p in w.heap ensures w.heap[p].pc == ACCEPTED <==> p == b.acc { RunThreadlet(c, front, p); }
        HandleRoom(c, w, b, junk);
      case _ =>
        KernelRoom(c, w, a);
    }
  }

  /** Up to 2047 connections can be accepted, whatever they and the kernel do, without the loop ever
      running out of submission queue entries. */
  lemma ManyConnections(c: Config, acts: seq<Action>)
    requires MsgSize(c.msgSize) && Run(c, acts).Some? && |Run(c, acts).value.conns| <= 2047
    ensures Run(c, acts).value.exit != SqFull
  {
    RunRoom(c, acts);
  }
}
