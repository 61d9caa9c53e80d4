/** One turn of the threadlet server's loop with a single completion: it is handled and all entries it queued
    are submitted. The constructions of runs use this. */
module OneBatch {
  import opened Wrappers
  import opened Bytes
  import opened EchoSpec
  import opened Threadlets
  import opened ThreadletInv

  /** What malloc returns. */
  function Junk(): (s: seq<byte>)
    ensures |s| == BUF_SIZE
  {
    seq(BUF_SIZE, _ => 0)
  }

  /** Everything that was queued has been submitted, and nothing of the batch has been handled. */
  ghost predicate Settled(w: World) {
    && w.exit == Running && w.i == 0 && w.queued == 0
    && (forall r :: r in w.reqs ==> r < w.next && !w.reqs[r].st.Queued?)
  }

  /** A request that was just submitted; it waits if it is linked to the one before it. */
  ghost function NewStatus(sqes: seq<Sqe>, j: nat): Status
    requires j < |sqes|
  {
    if j > 0 && sqes[j - 1].link then Waiting else Started(0)
  }

  /** Request `k` after the completion of `r` has been handled and the entries `sqes` have been submitted. */
  ghost function After(w: World, r: Rid, sqes: seq<Sqe>, k: Rid): Option<Req> {
    if k == r then None
    else if k < w.next then Lookup(w.reqs, k)
    else if k < w.next + |sqes| then Some(Req(sqes[k - w.next], NewStatus(sqes, k - w.next)))
    else None
  }

  ghost function MemAfter(w: World, eff: Effect): map<Loc, seq<byte>> {
    if eff.malloc.Some? then w.mem[eff.malloc.value := Junk()] else w.mem
  }

  /** `w'` is the state in which the turn ends. */
  ghost predicate Submitted(w: World, r: Rid, eff: Effect, w': World) {
    && w' == World(eff.heap, eff.brk, w'.reqs, w.next + |eff.sqes|, 0, [], 0, false, MemAfter(w, eff), w.conns, w.exit)
    && forall k: Rid :: Lookup(w'.reqs, k) == After(w, r, eff.sqes, k)
  }

  lemma SubmitNew(w: World, r: Rid, sqes: seq<Sqe>, k: Rid)
    requires Settled(w) && r in w.reqs
    ensures Lookup(Submit(Enqueue(w.reqs - {r}, w.next, sqes)), k) == After(w, r, sqes, k)
  {
    EnqueueLookup(w.reqs, r, w.next, sqes, k);
    if k > 0 { EnqueueLookup(w.reqs, r, w.next, sqes, k - 1); }
  }

  lemma HandleThenTurn(c: Config, w: World, r: Rid, eff: Effect) returns (w1: World, w': World)
    requires Settled(w) && w.inBatch && w.cq == [r] && r in w.reqs && w.reqs[r].st.Posted?
    requires w.reqs[r].sqe.data.Some? ==> w.reqs[r].sqe.data.value in w.heap
    requires eff == Dispatch(c, w.heap, w.brk, w.reqs[r].sqe.data, w.reqs[r].st.res) && !eff.exits && |eff.sqes| <= 3
    ensures Can(c, w, Handle(Junk())) && w1 == Apply(c, w, Handle(Junk()))
    ensures Can(c, w1, Turn) && w' == Apply(c, w1, Turn) && Submitted(w, r, eff, w')
  {
    w1 := Apply(c, w, Handle(Junk()));
    w' := Apply(c, w1, Turn);
    assert w'.reqs == Submit(Enqueue(w.reqs - {r}, w.next, eff.sqes));
    forall k: Rid ensures Lookup(w'.reqs, k) == After(w, r, eff.sqes, k) {
      SubmitNew(w, r, eff.sqes, k);
    }
  }

  lemma SettledAfter(w: World, r: Rid, eff: Effect, w': World)
    requires Settled(w) && Submitted(w, r, eff, w')
    ensures Settled(w')
  {
    forall k | k in w'.reqs ensures k < w'.next && !w'.reqs[k].st.Queued? {
      assert Lookup(w'.reqs, k) == After(w, r, eff.sqes, k);
    }
  }
}
