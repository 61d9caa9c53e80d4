/**
  The program of `EventLoop` takes the steps of the machine of `Threadlets`: between two waits the machine
  does what the loop does to the completions of the batch, one after the other, whatever the kernel and the
  clients do in between.
*/
module LoopRefinement {
  import opened Wrappers
  import opened Bytes
  import opened EchoSpec
  import opened Threadlets
  import opened ThreadletInv
  import opened ThreadletTheorems
  import opened EventLoop

  /** Handling a completion, or something that the kernel or a client does. */
  predicate WithinBatch(a: Action) {
    !a.Turn? && !a.Wake?
  }

  /** The completions handled by a run from its action `m` on, as the loop reads them. */
  ghost function Completions(c: Config, acts: seq<Action>, m: nat): seq<Cqe>
    requires MsgSize(c.msgSize) && Run(c, acts).Some? && m <= |acts|
    decreases acts
  {
    if |acts| == m then []
    else
      var w, rest := Run(c, Front(acts)).value, Completions(c, Front(acts), m);
      if Last(acts).Handle? then rest + [CqeAt(w)] else rest
  }

  /** The completion at the head of the queue. */
  ghost function CqeAt(w: World): Cqe {
    if w.i < |w.cq| && w.cq[w.i] in w.reqs && w.reqs[w.cq[w.i]].st.Posted?
    then Cqe(w.reqs[w.cq[w.i]].sqe.data, w.reqs[w.cq[w.i]].st.res) else Cqe(None, 0)
  }

  /** Everything submitted belongs to a threadlet of this heap. */
  ghost predicate Submitted(w: World, heap: map<Ptr, Threadlet>) {
    forall r :: r in w.reqs && !w.reqs[r].st.Queued? && w.reqs[r].sqe.data.Some? ==> w.reqs[r].sqe.data.value in heap
  }

  /** Neither the kernel nor a client sees or changes what is not submitted. */
  lemma KernelKeepsQueue(c: Config, w: World, a: Action, sq: seq<Sqe>, heap: map<Ptr, Threadlet>)
    requires Can(c, w, a) && WithinBatch(a) && !a.Handle? && Queue(w, sq) && Submitted(w, heap)
    ensures var w' := Apply(c, w, a);
            && Queue(w', sq) && Submitted(w', heap)
            && w'.heap == w.heap && w'.brk == w.brk && w'.exit == w.exit && w'.i == w.i
  {
    forall j | 0 <= j < |sq|
      ensures Lookup(Apply(c, w, a).reqs, w.next - |sq| + j) == Some(Req(sq[j], Queued))
    {
      assert Lookup(w.reqs, w.next - |sq| + j) == Some(Req(sq[j], Queued));
    }
  }

  lemma HandleKeepsSubmitted(c: Config, w: World, junk: seq<byte>, heap: map<Ptr, Threadlet>)
    requires Can(c, w, Handle(junk)) && Submitted(w, heap) && (forall r :: r in w.reqs ==> r < w.next)
    requires ApplyHandle(c, w, junk).exit == Running
    ensures Submitted(ApplyHandle(c, w, junk), heap) && ApplyHandle(c, w, junk).i == w.i + 1
  {
    var q := w.reqs[w.cq[w.i]];
    var eff := Dispatch(c, w.heap, w.brk, q.sqe.data, q.st.res);
    var w' := ApplyHandle(c, w, junk);
    forall r | r in w'.reqs && !w'.reqs[r].st.Queued?
      ensures r in w.reqs && w.reqs[r] == w'.reqs[r]
    {
      EnqueueLookup(w.reqs, w.cq[w.i], w.next, eff.sqes, r);
    }
  }

  /** The loop's state `s` and the machine's state `w` agree. */
  ghost predicate Agree(w: World, s: Loop) {
    w.exit == s.exit && (s.exit == Running ==> w.heap == s.heap && w.brk == s.brk && Queue(w, s.sq))
  }

  /** One handled completion. */
  lemma HandleAgrees(c: Config, w: World, s0: Loop, cqes: seq<Cqe>, junk: seq<byte>)
    requires Can(c, w, Handle(junk)) && (forall r :: r in w.reqs ==> r < w.next) && Submitted(w, s0.heap)
    requires Known(s0.heap, cqes) && Agree(w, Batch(c, s0, cqes))
    ensures Known(s0.heap, cqes + [CqeAt(w)])
    ensures Agree(ApplyHandle(c, w, junk), Batch(c, s0, cqes + [CqeAt(w)]))
  {
    var s, all := Batch(c, s0, cqes), cqes + [CqeAt(w)];
    assert Known(s0.heap, all);
    StepIsHandle(c, w, s.sq, junk);
    assert all[..|all| - 1] == cqes;
    assert s == Loop(w.heap, w.brk, s.sq, Running);
  }

  /** What the machine does in a batch is what the loop does to its completions. */
  lemma {:induction false} BatchIsHandles(c: Config, acts: seq<Action>, m: nat, s0: Loop)
    requires MsgSize(c.msgSize) && Run(c, acts).Some? && m <= |acts| && Run(c, acts[..m]).Some?
    requires forall i :: m <= i < |acts| ==> WithinBatch(acts[i])
    requires s0.exit == Running && Agree(Run(c, acts[..m]).value, s0)
    ensures Known(s0.heap, Completions(c, acts, m))
    ensures Agree(Run(c, acts).value, Batch(c, s0, Completions(c, acts, m)))
    ensures Run(c, acts).value.exit == Running ==>
              && Submitted(Run(c, acts).value, s0.heap)
              && Run(c, acts).value.i == Run(c, acts[..m]).value.i + |Completions(c, acts, m)|
    decreases acts
  {
    if m == |acts| {
      assert acts[..m] == acts;
      AllSubmitted(c, acts);
    } else {
      var w, a := Run(c, Front(acts)).value, Last(acts);
      assert Front(acts)[..m] == acts[..m];
      assert forall i :: m <= i < |Front(acts)| ==> Front(acts)[i] == acts[i];
      BatchIsHandles(c, Front(acts), m, s0);
      RunKeys(c, Front(acts));
      var cqes := Completions(c, Front(acts), m);
      assert Run(c, acts) == Some(Apply(c, w, a));
      if a.Handle? {
        assert Completions(c, acts, m) == cqes + [CqeAt(w)];
        HandleAgrees(c, w, s0, cqes, a.junk);
        if Run(c, acts).value.exit == Running { HandleKeepsSubmitted(c, w, a.junk, s0.heap); }
      } else {
        assert Completions(c, acts, m) == cqes;
        KernelKeepsQueue(c, w, a, Batch(c, s0, cqes).sq, s0.heap);
      }
    }
  }

  lemma AllSubmitted(c: Config, acts: seq<Action>)
    requires MsgSize(c.msgSize) && Run(c, acts).Some?
    ensures Submitted(Run(c, acts).value, Run(c, acts).value.heap)
  {
    var w, b := Run(c, acts).value, RunBook(c, acts);
    AcceptAlive(c, acts);
    forall r | r in w.reqs && w.reqs[r].sqe.data.Some? ensures w.reqs[r].sqe.data.value in w.heap {
      RunReq(c, acts, r);
      HasThreadlet(c, w, b, r);
    }
  }

  lemma {:induction false} NothingQueuedInWait(c: Config, acts: seq<Action>)
    requires MsgSize(c.msgSize) && Run(c, acts).Some?
    ensures !Run(c, acts).value.inBatch ==> Run(c, acts).value.queued == 0
    decreases acts
  {
    if acts != [] { NothingQueuedInWait(c, Front(acts)); }
  }

  /** Every batch of every run: from the moment `io_uring_wait_cqe` returns, the machine goes through the same
      states as the for-each over its completions, starting with an empty submission queue, and has counted
      each of them in `i`. */
  lemma EveryBatch(c: Config, acts: seq<Action>, m: nat)
    requires MsgSize(c.msgSize) && Run(c, acts).Some? && 0 < m <= |acts| && acts[m - 1] == Wake
    requires Run(c, acts[..m]).Some? && forall i :: m <= i < |acts| ==> WithinBatch(acts[i])
    ensures var w0 := Run(c, acts[..m]).value;
            && Known(w0.heap, Completions(c, acts, m))
            && Agree(Run(c, acts).value, Batch(c, Loop(w0.heap, w0.brk, [], Running), Completions(c, acts, m)))
            && (Run(c, acts).value.exit == Running ==> Run(c, acts).value.i == |Completions(c, acts, m)|)
  {
    RunPrefix(c, acts, m - 1);
    NothingQueuedInWait(c, acts[..m - 1]);
    RunKeys(c, acts[..m - 1]);
    assert Front(acts[..m]) == acts[..m - 1];
    var w0 := Run(c, acts[..m]).value;
    BatchIsHandles(c, acts, m, Loop(w0.heap, w0.brk, [], Running));
  }

  /** The constructor leaves the program in the machine's first state. */
  lemma SetUpAgrees(c: Config)
    requires MsgSize(c.msgSize)
    ensures Agree(Init(c), Loop(map[0 := Threadlet(ACCEPTED, c.listenFd, Null)], 1, [AcceptSqe(c, 0)], Running))
  {
  }
}
