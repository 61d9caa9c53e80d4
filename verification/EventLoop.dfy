/** `main_loop` of io_uring_sharded.c as the program that it is: one object updated in place, a loop over
    a batch of completions with its counter `i`, and the checks for a full submission queue. */
module EventLoop {
  import opened Wrappers
  import opened Bytes
  import opened EchoSpec
  import opened Threadlets
  import opened ThreadletInv

  /** A completion as the loop reads it: user data and result. */
  datatype Cqe = Cqe(data: Option<Ptr>, res: int)

  datatype Loop = Loop(heap: map<Ptr, Threadlet>, brk: Ptr, sq: seq<Sqe>, exit: Exit)

  // ---------- specification ----------

  function LoopStep(c: Config, s: Loop, q: Cqe): (s': Loop)
    requires q.data.Some? ==> q.data.value in s.heap
    ensures s.heap.Keys <= s'.heap.Keys
  {
    var eff := Dispatch(c, s.heap, s.brk, q.data, q.res);
    if s.exit != Running then s
    else if eff.exits then s.(exit := AcceptError)
    else if |s.sq| + |eff.sqes| > RING_ENTRIES then s.(exit := SqFull)
    else Loop(eff.heap, eff.brk, s.sq + eff.sqes, Running)
  }

  ghost predicate Known(heap: map<Ptr, Threadlet>, cqes: seq<Cqe>) {
    forall k :: 0 <= k < |cqes| && cqes[k].data.Some? ==> cqes[k].data.value in heap
  }

  /** The loop's state after a batch of completions, in order. */
  ghost function Batch(c: Config, s: Loop, cqes: seq<Cqe>): (s': Loop)
    requires Known(s.heap, cqes)
    ensures s.heap.Keys <= s'.heap.Keys
    decreases cqes
  {
    if cqes == [] then s
    else
      var m := |cqes| - 1;
      assert Known(s.heap, cqes[..m]);
      var s1 := Batch(c, s, cqes[..m]);
      assert cqes[m].data.Some? ==> cqes[m].data.value in s.heap.Keys;
      LoopStep(c, s1, cqes[m])
  }

  lemma BatchNext(c: Config, s: Loop, cqes: seq<Cqe>, i: nat)
    requires Known(s.heap, cqes) && i < |cqes|
    ensures Known(s.heap, cqes[..i]) && Known(s.heap, cqes[..i + 1])
    ensures cqes[i].data.Some? ==> cqes[i].data.value in Batch(c, s, cqes[..i]).heap
    ensures Batch(c, s, cqes[..i + 1]) == LoopStep(c, Batch(c, s, cqes[..i]), cqes[i])
  {
    assert cqes[..i + 1][..i] == cqes[..i];
    assert cqes[i].data.Some? ==> cqes[i].data.value in s.heap.Keys;
  }

  // ---------- the program ----------

  class EventLoop {
    const c: Config
    var threadlets: map<Ptr, Threadlet>   // the heap: address to `threadlet_state_t`
    var brk: Ptr                          // the next address malloc returns
    var sq: seq<Sqe>                      // prepared, not yet submitted
    var exit: Exit

    ghost function State(): Loop
      reads this
    {
      Loop(threadlets, brk, sq, exit)
    }

    /** The set-up before the endless loop. */
    constructor (config: Config)
      requires MsgSize(config.msgSize)
      ensures c == config
      ensures State() == Loop(map[0 := Threadlet(ACCEPTED, config.listenFd, Null)], 1, [AcceptSqe(config, 0)], Running)
    {
      c, threadlets, brk, sq, exit := config, map[], 0, [], Running;
      new;
      AddAccept();
    }

    /** `io_uring_get_sqe` and the `prep` that fills the entry. */
    method Prepare(op: Op, data: Option<Ptr>, link: bool)
      requires exit == Running
      modifies this`sq, this`exit
      ensures |old(sq)| < RING_ENTRIES ==> sq == old(sq) + [Sqe(op, data, link)] && exit == Running
      ensures |old(sq)| >= RING_ENTRIES ==> sq == old(sq) && exit == SqFull
    {
      if |sq| >= RING_ENTRIES {
        exit := SqFull;
        return;
      }
      sq := sq + [Sqe(op, data, link)];
    }

    method AddAccept()
      requires exit == Running
      modifies this
      ensures |old(sq)| < RING_ENTRIES ==>
                State() == Loop(old(threadlets)[old(brk) := Threadlet(ACCEPTED, c.listenFd, Null)], old(brk) + 1,
                                old(sq) + [AcceptSqe(c, old(brk))], Running)
      ensures |old(sq)| >= RING_ENTRIES ==> exit == SqFull
    {
      var d := brk;
      Prepare(Accept(c.listenFd), Some(d), false);
      if exit != Running { return; }
      threadlets := threadlets[d := Threadlet(ACCEPTED, c.listenFd, Null)];
      brk := brk + 1;
    }

    /** The body of the for-each. */
    method HandleCqe(q: Cqe)
      requires exit == Running && |sq| <= RING_ENTRIES
      requires q.data.Some? ==> q.data.value in threadlets && q.data.value != brk
      modifies this
      ensures exit == LoopStep(c, old(State()), q).exit
      ensures exit == Running ==> State() == LoopStep(c, old(State()), q)
    {
      if q.data.None? {
        return;
      }
      var p := q.data.value;
      var r := threadlets[p];
      if r.pc == ACCEPTED {
        var connFd := q.res;
        if connFd < 0 {
          exit := AcceptError;
          return;
        }
        Prepare(Send(connFd, MsgSizeConv, 4), None, false);
        if exit != Running { return; }
        AddAccept();
        if exit != Running { return; }
        Prepare(Recv(connFd, HeaderBuf, 2), Some(p), false);
        if exit != Running { return; }
        threadlets := threadlets[p := r.(pc := RECEIVED_HEADER, fd := connFd)];
      } else if r.pc == RECEIVED_HEADER {
        if q.res < 2 {
          return;
        }
        r := r.(buf := Heap(p), pc := RECEIVED_MSG);
        Prepare(Recv(r.fd, r.buf, c.msgSize), Some(p), false);
        if exit != Running { return; }
        threadlets := threadlets[p := r];
      } else {
        if q.res < c.msgSize {
          return;
        }
        Prepare(Send(r.fd, r.buf, c.msgSize), None, true);
        if exit != Running { return; }
        Prepare(Recv(r.fd, r.buf, c.msgSize), Some(p), false);
      }
    }

    /** `io_uring_for_each_cqe` over a batch; `i` is what `io_uring_cq_advance` is given. */
    method ForEachCqe(cqes: seq<Cqe>) returns (i: nat)
      requires exit == Running && |sq| <= RING_ENTRIES && Known(threadlets, cqes)
      requires forall p :: p in threadlets ==> p < brk
      modifies this
      ensures exit == Batch(c, old(State()), cqes).exit
      ensures exit == Running ==> State() == Batch(c, old(State()), cqes) && i == |cqes|
    {
      ghost var s0 := State();
      i := 0;
      var head := 0;
      while head < |cqes|
        invariant i == head <= |cqes| && exit == Running && |sq| <= RING_ENTRIES
        invariant Known(s0.heap, cqes) && Known(s0.heap, cqes[..head]) && State() == Batch(c, s0, cqes[..head])
        invariant forall p :: p in threadlets ==> p < brk
      {
        BatchNext(c, s0, cqes, head);
        i := i + 1;
        HandleCqe(cqes[head]);
        if exit != Running {
          BatchStops(c, s0, cqes, head + 1);
          return;
        }
        head := head + 1;
      }
      assert cqes[..head] == cqes;
    }
  }

  /** After an exit nothing more happens. */
  lemma {:induction false} BatchStops(c: Config, s: Loop, cqes: seq<Cqe>, i: nat)
    requires Known(s.heap, cqes) && i <= |cqes| && Known(s.heap, cqes[..i]) && Batch(c, s, cqes[..i]).exit != Running
    ensures Batch(c, s, cqes).exit == Batch(c, s, cqes[..i]).exit
    decreases |cqes| - i
  {
    if i < |cqes| {
      BatchNext(c, s, cqes, i);
      BatchStops(c, s, cqes, i + 1);
    } else {
      assert cqes[..i] == cqes;
    }
  }

  // ---------- the program and the machine ----------

  /** The submission queue of the machine, in order. */
  ghost predicate Queue(w: World, sq: seq<Sqe>) {
    && w.queued == |sq| <= w.next
    && forall j :: 0 <= j < |sq| ==> Lookup(w.reqs, w.next - |sq| + j) == Some(Req(sq[j], Queued))
  }

  /** One iteration of the for-each is one `Handle` of the machine. */
  lemma StepIsHandle(c: Config, w: World, sq: seq<Sqe>, junk: seq<byte>)
    requires Can(c, w, Handle(junk)) && Queue(w, sq) && (forall r :: r in w.reqs ==> r < w.next)
    ensures var q := w.reqs[w.cq[w.i]];
            var s := LoopStep(c, Loop(w.heap, w.brk, sq, Running), Cqe(q.sqe.data, q.st.res));
            var w' := ApplyHandle(c, w, junk);
            w'.exit == s.exit && (s.exit == Running ==> w'.heap == s.heap && w'.brk == s.brk && Queue(w', s.sq))
  {
    var q := w.reqs[w.cq[w.i]];
    var eff := Dispatch(c, w.heap, w.brk, q.sqe.data, q.st.res);
    var s := LoopStep(c, Loop(w.heap, w.brk, sq, Running), Cqe(q.sqe.data, q.st.res));
    var w' := ApplyHandle(c, w, junk);
    if s.exit == Running {
      QueueGrows(w, sq, w.cq[w.i], eff.sqes, w');
    }
  }

  lemma QueueGrows(w: World, sq: seq<Sqe>, r: Rid, sqes: seq<Sqe>, w': World)
    requires Queue(w, sq) && r in w.reqs && !w.reqs[r].st.Queued? && (forall k :: k in w.reqs ==> k < w.next)
    requires w'.reqs == Enqueue(w.reqs - {r}, w.next, sqes)
    requires w'.next == w.next + |sqes| && w'.queued == w.queued + |sqes|
    ensures Queue(w', sq + sqes)
  {
    var all := sq + sqes;
    forall j | 0 <= j < |all| ensures Lookup(w'.reqs, w'.next - |all| + j) == Some(Req(all[j], Queued)) {
      EnqueueLookup(w.reqs, r, w.next, sqes, w.next - |sq| + j);
    }
  }

  // ---------- exactly when a batch fills the queue ----------

  /** The entries a completion queues, read off the state at the start of the batch. */
  function Cost(c: Config, heap: map<Ptr, Threadlet>, q: Cqe): nat
    requires q.data.Some? ==> q.data.value in heap
  {
    if q.data.None? then 0
    else match heap[q.data.value].pc
      case ACCEPTED => 3
      case RECEIVED_HEADER => if q.res < 2 then 0 else 1
      case RECEIVED_MSG => if q.res < c.msgSize then 0 else 2
  }

  ghost function TotalCost(c: Config, heap: map<Ptr, Threadlet>, cqes: seq<Cqe>): nat
    requires Known(heap, cqes)
    decreases cqes
  {
    if cqes == [] then 0
    else
      var m := |cqes| - 1;
      assert Known(heap, cqes[..m]);
      TotalCost(c, heap, cqes[..m]) + Cost(c, heap, cqes[m])
  }

  /** No threadlet completes twice in one batch, and no accept failed. */
  ghost predicate ProperBatch(heap: map<Ptr, Threadlet>, cqes: seq<Cqe>) {
    && Known(heap, cqes)
    && (forall j, k :: 0 <= j < k < |cqes| && cqes[j].data.Some? ==> cqes[j].data != cqes[k].data)
    && (forall k :: 0 <= k < |cqes| && cqes[k].data.Some? && heap[cqes[k].data.value].pc == ACCEPTED ==>
          cqes[k].res >= 0)
  }

  lemma ProperFront(heap: map<Ptr, Threadlet>, cqes: seq<Cqe>)
    requires ProperBatch(heap, cqes) && cqes != []
    ensures ProperBatch(heap, cqes[..|cqes| - 1])
  {
  }

  /** Until the queue overflows, its length is exactly the sum of the costs. */
  lemma {:induction false} BatchLength(c: Config, s: Loop, cqes: seq<Cqe>)
    requires ProperBatch(s.heap, cqes) && s.exit == Running && |s.sq| <= RING_ENTRIES
    requires forall p :: p in s.heap ==> p < s.brk
    ensures var s' := Batch(c, s, cqes);
            && s.brk <= s'.brk && (forall p :: p in s'.heap ==> p < s'.brk)
            && (forall p :: p in s.heap && (forall k :: 0 <= k < |cqes| ==> cqes[k].data != Some(p)) ==>
                  p in s'.heap && s'.heap[p] == s.heap[p])
            && s'.exit == (if |s.sq| + TotalCost(c, s.heap, cqes) > RING_ENTRIES then SqFull else Running)
            && (s'.exit == Running ==> |s'.sq| == |s.sq| + TotalCost(c, s.heap, cqes))
    decreases cqes
  {
    if cqes != [] {
      var m := |cqes| - 1;
      ProperFront(s.heap, cqes);
      BatchLength(c, s, cqes[..m]);
      if cqes[m].data.Some? {
        assert forall k :: 0 <= k < m ==> cqes[..m][k].data != cqes[m].data;
      }
      StepLength(c, s.heap, Batch(c, s, cqes[..m]), cqes[m]);
      forall p | p in s.heap && (forall k :: 0 <= k < |cqes| ==> cqes[k].data != Some(p))
        ensures p in Batch(c, s, cqes).heap && Batch(c, s, cqes).heap[p] == s.heap[p]
      {
        assert forall k :: 0 <= k < m ==> cqes[..m][k].data != Some(p);
        assert cqes[m].data != Some(p);
      }
    }
  }

  /** One more completion, whose threadlet the batch has not touched so far. */
  lemma StepLength(c: Config, heap: map<Ptr, Threadlet>, s: Loop, q: Cqe)
    requires q.data.Some? ==>
               && q.data.value in heap && q.data.value in s.heap
               && (s.exit == Running ==> s.heap[q.data.value] == heap[q.data.value])
               && (heap[q.data.value].pc == ACCEPTED ==> q.res >= 0)
    requires (forall p :: p in s.heap ==> p < s.brk) && (s.exit == Running ==> |s.sq| <= RING_ENTRIES)
    ensures var s' := LoopStep(c, s, q);
            && s.brk <= s'.brk && (forall p :: p in s'.heap ==> p < s'.brk)
            && (forall p :: p in s.heap && q.data != Some(p) ==> p in s'.heap && s'.heap[p] == s.heap[p])
            && (s.exit != Running ==> s' == s)
            && (s.exit == Running ==>
                  if |s.sq| + Cost(c, heap, q) > RING_ENTRIES then s'.exit == SqFull
                  else s'.exit == Running && |s'.sq| == |s.sq| + Cost(c, heap, q))
  {
  }

  /** The loop stops with "sq is full" in a batch exactly when the completions in it cost more entries
      than are left. */
  lemma OverflowIff(c: Config, s: Loop, cqes: seq<Cqe>)
    requires ProperBatch(s.heap, cqes) && s.exit == Running && |s.sq| <= RING_ENTRIES
    requires forall p :: p in s.heap ==> p < s.brk
    ensures Batch(c, s, cqes).exit == SqFull <==> |s.sq| + TotalCost(c, s.heap, cqes) > RING_ENTRIES
  {
    BatchLength(c, s, cqes);
  }
}
