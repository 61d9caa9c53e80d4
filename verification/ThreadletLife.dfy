/** Completions are consumed exactly once, and a connection that failed is never echoed to again. */
module ThreadletLife {
  import opened Wrappers
  import opened Bytes
  import opened EchoSpec
  import opened Threadlets
  import opened ThreadletInv
  import opened ThreadletTheorems

  lemma {:induction false} RunSplit(c: Config, acts: seq<Action>, m: nat)
    requires MsgSize(c.msgSize) && Run(c, acts).Some? && m < |acts|
    ensures Run(c, acts[..m]).Some? && Can(c, Run(c, acts[..m]).value, acts[m])
    ensures Run(c, acts[..m + 1]) == Some(Apply(c, Run(c, acts[..m]).value, acts[m]))
    ensures RunBook(c, acts[..m + 1]) == NextBook(c, Run(c, acts[..m]).value, RunBook(c, acts[..m]), acts[m])
  {
    RunPrefix(c, acts, m + 1);
    assert Front(acts[..m + 1]) == acts[..m] && Last(acts[..m + 1]) == acts[m];
  }

  // ---------- completions are consumed exactly once ----------

  /** A request whose completion has been handled. */
  ghost predicate Gone(w: World, r: Rid) {
    r !in w.reqs && r < w.next
  }

  lemma ApplyGone(c: Config, w: World, a: Action, r: Rid)
    requires Can(c, w, a) && Gone(w, r)
    ensures Gone(Apply(c, w, a), r)
  {
  }

  lemma {:induction false} GoneForGood(c: Config, acts: seq<Action>, j: nat, k: nat, r: Rid)
    requires MsgSize(c.msgSize) && Run(c, acts).Some? && j <= k <= |acts|
    requires Run(c, acts[..j]).Some? && Gone(Run(c, acts[..j]).value, r)
    ensures Run(c, acts[..k]).Some? && Gone(Run(c, acts[..k]).value, r)
    decreases k
  {
    if j < k {
      GoneForGood(c, acts, j, k - 1, r);
      StaysGone(c, acts, k - 1, r);
    }
  }

  lemma StaysGone(c: Config, acts: seq<Action>, m: nat, r: Rid)
    requires MsgSize(c.msgSize) && Run(c, acts).Some? && m < |acts|
    requires Run(c, acts[..m]).Some? && Gone(Run(c, acts[..m]).value, r)
    ensures Run(c, acts[..m + 1]).Some? && Gone(Run(c, acts[..m + 1]).value, r)
  {
    StepAt(c, acts, m, Run(c, acts[..m]).value);
    ApplyGone(c, Run(c, acts[..m]).value, acts[m], r);
  }

  lemma StepAt(c: Config, acts: seq<Action>, m: nat, w: World)
    requires MsgSize(c.msgSize) && Run(c, acts).Some? && m < |acts| && Run(c, acts[..m]) == Some(w)
    ensures Can(c, w, acts[m]) && Run(c, acts[..m + 1]) == Some(Apply(c, w, acts[m]))
  {
    RunSplit(c, acts, m);
  }

  /** The request whose completion action `j` handles. */
  function HandledAt(c: Config, acts: seq<Action>, j: nat): Option<Rid>
    requires MsgSize(c.msgSize) && j < |acts|
  {
    var w := Run(c, acts[..j]);
    if w.Some? && acts[j].Handle? && w.value.i < |w.value.cq| then Some(w.value.cq[w.value.i]) else None
  }

  /** No completion is handled twice, not even one that was skipped with `continue`. */
  lemma ConsumedOnce(c: Config, acts: seq<Action>, j: nat, k: nat)
    requires MsgSize(c.msgSize) && Run(c, acts).Some? && j < k < |acts| && acts[j].Handle? && acts[k].Handle?
    ensures HandledAt(c, acts, j).Some? && HandledAt(c, acts, k).Some?
    ensures HandledAt(c, acts, j) != HandledAt(c, acts, k)
  {
    var w := RunsAt(c, acts, j);
    var w' := RunsAt(c, acts, k);
    HandledAtIsGone(c, acts, j, w);
    StepAt(c, acts, k, w');
    GoneForGood(c, acts, j + 1, k, w.cq[w.i]);
  }

  lemma RunsAt(c: Config, acts: seq<Action>, m: nat) returns (w: World)
    requires MsgSize(c.msgSize) && Run(c, acts).Some? && m < |acts|
    ensures Run(c, acts[..m]) == Some(w) && Can(c, w, acts[m])
  {
    RunSplit(c, acts, m);
    w := Run(c, acts[..m]).value;
  }

  lemma HandledAtIsGone(c: Config, acts: seq<Action>, j: nat, w: World)
    requires MsgSize(c.msgSize) && Run(c, acts).Some? && j + 1 < |acts| && acts[j].Handle?
    requires Run(c, acts[..j]) == Some(w)
    ensures Can(c, w, acts[j])
    ensures Run(c, acts[..j + 1]).Some? && Gone(Run(c, acts[..j + 1]).value, w.cq[w.i])
  {
    StepAt(c, acts, j, w);
    var w' := RunsAt(c, acts, j + 1);
    RunKeys(c, acts[..j]);
    HandledIsGone(c, w, acts[j]);
  }

  lemma HandledIsGone(c: Config, w: World, a: Action)
    requires Can(c, w, a) && a.Handle? && Apply(c, w, a).exit == Running
    requires forall r :: r in w.reqs ==> r < w.next
    ensures Gone(Apply(c, w, a), w.cq[w.i])
  {
  }

  /** Every posted completion is still ahead of the loop in the completion queue. */
  ghost predicate NoneLost(w: World) {
    w.i <= |w.cq| && forall r :: r in w.reqs && w.reqs[r].st.Posted? ==> r in w.cq[w.i..]
  }

  lemma PostKeepsAll(w: World, r0: Rid, res: int, full: bool, w': World)
    requires NoneLost(w) && r0 in w.reqs
    requires w'.reqs == Post(w.reqs, r0, res, full) && w'.cq == w.cq + [r0] && w'.i == w.i
    ensures NoneLost(w')
  {
    assert w'.cq[w'.i..] == w.cq[w.i..] + [r0];
  }

  lemma HandleNoneLost(c: Config, w: World, junk: seq<byte>)
    requires Can(c, w, Handle(junk)) && NoneLost(w)
    ensures NoneLost(ApplyHandle(c, w, junk))
  {
    var w' := ApplyHandle(c, w, junk);
    HeadOfRest(w.cq, w.i);
    if w'.exit == Running {
      var q := w.reqs[w.cq[w.i]];
      var eff := Dispatch(c, w.heap, w.brk, q.sqe.data, q.st.res);
      forall r | r in w'.reqs && w'.reqs[r].st.Posted? ensures r in w'.cq[w'.i..] {
        PostedBefore(w, w.cq[w.i], eff.sqes, r);
      }
    }
  }

  lemma HeadOfRest(cq: seq<Rid>, i: nat)
    requires i < |cq|
    ensures cq[i..] == [cq[i]] + cq[i + 1..]
  {
  }

  lemma PostedBefore(w: World, r0: Rid, sqes: seq<Sqe>, r: Rid)
    requires var q := Enqueue(w.reqs - {r0}, w.next, sqes); r in q && q[r].st.Posted?
    ensures r in w.reqs && r != r0 && w.reqs[r].st.Posted?
  {
  }

  lemma ApplyNoneLost(c: Config, w: World, a: Action)
    requires Can(c, w, a) && NoneLost(w)
    ensures NoneLost(Apply(c, w, a))
  {
    var w' := Apply(c, w, a);
    match a
    case Complete(r, res) => PostKeepsAll(w, r, res, res == w.reqs[r].sqe.op.len, w');
    case Accepted(r, fd, early) => PostKeepsAll(w, r, fd, true, w');
    case AcceptFailed(r, res) => PostKeepsAll(w, r, res, false, w');
    case Cancel(r) => PostKeepsAll(w, r, -ECANCELED, false, w');
    case Handle(junk) => HandleNoneLost(c, w, junk);
    case _ =>
  }

  /** `io_uring_cq_advance` never discards a completion that was not handled: all posted completions
      are in the queue, and the loop has gone through all of it when it advances. */
  lemma {:induction false} NoCompletionLost(c: Config, acts: seq<Action>)
    requires MsgSize(c.msgSize) && Run(c, acts).Some?
    ensures NoneLost(Run(c, acts).value)
    ensures acts != [] && Last(acts) == Turn ==>
              forall r :: r in Run(c, acts).value.reqs ==> !Run(c, acts).value.reqs[r].st.Posted?
    decreases acts
  {
    if acts != [] {
      NoCompletionLost(c, Front(acts));
      RunKeys(c, Front(acts));
      ApplyNoneLost(c, Run(c, Front(acts)).value, Last(acts));
    }
  }

  // ---------- failures are final ----------

  /** A request after which its threadlet can only be dropped. */
  ghost predicate Hopeless(q: Req) {
    q.sqe.op.Recv? && (q.st.Cancelled? || (q.st.Posted? && q.st.res < q.sqe.op.len))
  }

  ghost predicate Doomed(w: World, b: Book, fd: int) {
    && fd in w.conns && fd in b.own && b.own[fd] in w.heap && b.own[fd] in b.tok && b.own[fd] != b.acc
    && (b.own[fd] in b.dead || (b.tok[b.own[fd]] in w.reqs && Hopeless(w.reqs[b.tok[b.own[fd]]])))
  }

  /** No message buffer is being sent on a doomed connection. */
  lemma DoomedSilent(c: Config, w: World, b: Book, r: Rid, k: nat)
    requires MsgSize(c.msgSize) && CanTransfer(w, r, k) && ReqOk(c, r, ViewOf(w, b, r))
    requires r + 1 in w.reqs ==> ReqOk(c, r + 1, ViewOf(w, b, r + 1))
    requires Doomed(w, b, w.reqs[r].sqe.op.fd) && ThreadletOk(w, b, b.own[w.reqs[r].sqe.op.fd])
    ensures Moved(w, r, k).echoed == w.conns[w.reqs[r].sqe.op.fd].echoed
  {
  }

  lemma ApplyEchoed(c: Config, w: World, b: Book, a: Action, fd: int)
    requires Can(c, w, a) && fd in w.conns
    requires a.Transfer? && w.reqs[a.r].sqe.op.fd == fd ==> Moved(w, a.r, a.k).echoed == w.conns[fd].echoed
    ensures fd in Apply(c, w, a).conns && Apply(c, w, a).conns[fd].echoed == w.conns[fd].echoed
  {
  }

  /** The request of a doomed threadlet stays hopeless until it is handled, and then it is dropped. */
  lemma ApplyDoomed(c: Config, w: World, b: Book, a: Action, fd: int)
    requires MsgSize(c.msgSize) && Can(c, w, a) && Doomed(w, b, fd)
    requires b.own[fd] !in b.dead ==> ReqOk(c, b.tok[b.own[fd]], ViewOf(w, b, b.tok[b.own[fd]]))
    requires a.Handle? ==> ReqOk(c, w.cq[w.i], ViewOf(w, b, w.cq[w.i]))
    requires ThreadletOk(w, b, b.own[fd]) && b.acc in w.heap && (forall r :: r in w.reqs ==> r < w.next)
    requires w.brk !in w.heap
    ensures Doomed(Apply(c, w, a), NextBook(c, w, b, a), fd)
  {
    if a.Handle? {
      HandleDoomed(c, w, b, a.junk, fd);
    }
  }

  lemma HandleDoomed(c: Config, w: World, b: Book, junk: seq<byte>, fd: int)
    requires MsgSize(c.msgSize) && Can(c, w, Handle(junk)) && Doomed(w, b, fd)
    requires b.own[fd] !in b.dead ==> ReqOk(c, b.tok[b.own[fd]], ViewOf(w, b, b.tok[b.own[fd]]))
    requires ReqOk(c, w.cq[w.i], ViewOf(w, b, w.cq[w.i]))
    requires ThreadletOk(w, b, b.own[fd]) && b.acc in w.heap && (forall r :: r in w.reqs ==> r < w.next)
    requires w.brk !in w.heap
    ensures Doomed(ApplyHandle(c, w, junk), NextBook(c, w, b, Handle(junk)), fd)
  {
    if b.own[fd] !in b.dead && w.cq[w.i] == b.tok[b.own[fd]] {
      DoomedDropped(c, w, b, junk, fd);
    } else {
      DoomedElsewhere(c, w, b, junk, fd);
    }
  }

  lemma DoomedDropped(c: Config, w: World, b: Book, junk: seq<byte>, fd: int)
    requires MsgSize(c.msgSize) && Can(c, w, Handle(junk)) && Doomed(w, b, fd)
    requires b.own[fd] !in b.dead && w.cq[w.i] == b.tok[b.own[fd]] && ReqOk(c, w.cq[w.i], ViewOf(w, b, w.cq[w.i]))
    requires ThreadletOk(w, b, b.own[fd]) && b.acc in w.heap
    ensures Doomed(ApplyHandle(c, w, junk), NextBook(c, w, b, Handle(junk)), fd)
  {
  }

  lemma DoomedElsewhere(c: Config, w: World, b: Book, junk: seq<byte>, fd: int)
    requires MsgSize(c.msgSize) && Can(c, w, Handle(junk)) && Doomed(w, b, fd)
    requires b.own[fd] in b.dead || w.cq[w.i] != b.tok[b.own[fd]]
    requires b.own[fd] !in b.dead ==> ReqOk(c, b.tok[b.own[fd]], ViewOf(w, b, b.tok[b.own[fd]]))
    requires ReqOk(c, w.cq[w.i], ViewOf(w, b, w.cq[w.i]))
    requires ThreadletOk(w, b, b.own[fd]) && b.acc in w.heap && (forall r :: r in w.reqs ==> r < w.next)
    requires w.brk !in w.heap
    ensures Doomed(ApplyHandle(c, w, junk), NextBook(c, w, b, Handle(junk)), fd)
  {
    if b.own[fd] !in b.dead {
      TokenElsewhere(c, w, b, junk, fd);
    }
  }

  /** The hopeless request stays where it is while another completion is handled. */
  lemma TokenElsewhere(c: Config, w: World, b: Book, junk: seq<byte>, fd: int)
    requires MsgSize(c.msgSize) && Can(c, w, Handle(junk)) && Doomed(w, b, fd)
    requires b.own[fd] !in b.dead && w.cq[w.i] != b.tok[b.own[fd]]
    requires ReqOk(c, w.cq[w.i], ViewOf(w, b, w.cq[w.i]))
    requires b.acc in w.heap && (forall r :: r in w.reqs ==> r < w.next) && w.brk !in w.heap
    ensures var w', b' := ApplyHandle(c, w, junk), NextBook(c, w, b, Handle(junk));
            && b.own[fd] in b'.tok && b'.tok[b.own[fd]] == b.tok[b.own[fd]]
            && b.tok[b.own[fd]] in w'.reqs && w'.reqs[b.tok[b.own[fd]]] == w.reqs[b.tok[b.own[fd]]]
  {
  }

  lemma RunDoomedSilent(c: Config, acts: seq<Action>, a: Action, fd: int)
    requires MsgSize(c.msgSize) && Run(c, acts).Some? && Can(c, Run(c, acts).value, a)
    requires Doomed(Run(c, acts).value, RunBook(c, acts), fd)
    ensures fd in Apply(c, Run(c, acts).value, a).conns
    ensures Apply(c, Run(c, acts).value, a).conns[fd].echoed == Run(c, acts).value.conns[fd].echoed
  {
    var w, b := Run(c, acts).value, RunBook(c, acts);
    if a.Transfer? && w.reqs[a.r].sqe.op.fd == fd {
      TransferSilent(c, acts, a.r, a.k);
    }
    ApplyEchoed(c, w, b, a, fd);
  }

  lemma TransferSilent(c: Config, acts: seq<Action>, r: Rid, k: nat)
    requires MsgSize(c.msgSize) && Run(c, acts).Some? && CanTransfer(Run(c, acts).value, r, k)
    requires Doomed(Run(c, acts).value, RunBook(c, acts), Run(c, acts).value.reqs[r].sqe.op.fd)
    ensures var w := Run(c, acts).value;
            Moved(w, r, k).echoed == w.conns[w.reqs[r].sqe.op.fd].echoed
  {
    var w, b := Run(c, acts).value, RunBook(c, acts);
    RunThreadlet(c, acts, b.own[w.reqs[r].sqe.op.fd]);
    RunReq(c, acts, r);
    if r + 1 in w.reqs { RunReq(c, acts, r + 1); }
    DoomedSilent(c, w, b, r, k);
  }

  lemma FreshBrk(c: Config, acts: seq<Action>)
    requires MsgSize(c.msgSize) && Run(c, acts).Some?
    ensures Run(c, acts).value.brk !in Run(c, acts).value.heap
  {
    var w := Run(c, acts).value;
    if w.brk in w.heap { RunThreadlet(c, acts, w.brk); }
  }

  lemma RunDoomedStays(c: Config, acts: seq<Action>, a: Action, fd: int)
    requires MsgSize(c.msgSize) && Run(c, acts).Some? && Can(c, Run(c, acts).value, a)
    requires Doomed(Run(c, acts).value, RunBook(c, acts), fd)
    ensures Doomed(Apply(c, Run(c, acts).value, a), NextBook(c, Run(c, acts).value, RunBook(c, acts), a), fd)
  {
    var w, b := Run(c, acts).value, RunBook(c, acts);
    RunThreadlet(c, acts, b.own[fd]);
    if b.own[fd] !in b.dead { RunReq(c, acts, b.tok[b.own[fd]]); }
    FreshBrk(c, acts);
    RunKeys(c, acts);
    if a.Handle? { RunReq(c, acts, w.cq[w.i]); }
    ApplyDoomed(c, w, b, a, fd);
  }

  lemma {:induction false} DoomedForGood(c: Config, acts: seq<Action>, m: nat, fd: int)
    requires MsgSize(c.msgSize) && Run(c, acts).Some? && m <= |acts|
    requires Run(c, acts[..m]).Some? && Doomed(Run(c, acts[..m]).value, RunBook(c, acts[..m]), fd)
    ensures Doomed(Run(c, acts).value, RunBook(c, acts), fd)
    ensures Run(c, acts).value.conns[fd].echoed == Run(c, acts[..m]).value.conns[fd].echoed
    decreases acts
  {
    if m == |acts| {
      assert acts[..m] == acts;
    } else {
      assert Front(acts)[..m] == acts[..m];
      DoomedForGood(c, Front(acts), m, fd);
      RunDoomedSilent(c, Front(acts), Last(acts), fd);
      RunDoomedStays(c, Front(acts), Last(acts), fd);
    }
  }

  lemma FailureDooms(c: Config, w: World, b: Book, r: Rid, res: int)
    requires MsgSize(c.msgSize) && Can(c, w, Complete(r, res)) && res < w.reqs[r].sqe.op.len
    requires w.reqs[r].sqe.op.Recv? || w.reqs[r].sqe.op.loc != MsgSizeConv
    requires ReqOk(c, r, ViewOf(w, b, r))
    requires r + 1 in w.reqs ==> ReqOk(c, r + 1, ViewOf(w, b, r + 1))
    requires forall p :: p in w.heap ==> p in b.tok
    ensures Doomed(Apply(c, w, Complete(r, res)), b, w.reqs[r].sqe.op.fd)
  {
  }

  lemma RunFailureDooms(c: Config, acts: seq<Action>, r: Rid, res: int)
    requires MsgSize(c.msgSize) && Run(c, acts).Some? && Can(c, Run(c, acts).value, Complete(r, res))
    requires var op := Run(c, acts).value.reqs[r].sqe.op; res < op.len && (op.Recv? || op.loc != MsgSizeConv)
    ensures Doomed(Apply(c, Run(c, acts).value, Complete(r, res)), RunBook(c, acts),
                   Run(c, acts).value.reqs[r].sqe.op.fd)
  {
    var w, b := Run(c, acts).value, RunBook(c, acts);
    RunReq(c, acts, r);
    if r + 1 in w.reqs { RunReq(c, acts, r + 1); }
    forall p | p in w.heap ensures p in b.tok {
      RunThreadlet(c, acts, p);
    }
    FailureDooms(c, w, b, r, res);
  }

  /** Once a receive, or the send of an echo, completes short or with an error, nothing more is ever
      echoed on that connection: a short send cancels the receive linked to it. */
  lemma FailureIsFinal(c: Config, acts: seq<Action>, m: nat)
    requires MsgSize(c.msgSize) && Run(c, acts).Some? && m < |acts| && acts[m].Complete?
    requires Run(c, acts[..m]).Some? && Can(c, Run(c, acts[..m]).value, acts[m])
    requires var op := Run(c, acts[..m]).value.reqs[acts[m].r].sqe.op;
             acts[m].res < op.len && (op.Recv? || op.loc != MsgSizeConv)
    ensures var w := Run(c, acts[..m]).value;
            var fd := w.reqs[acts[m].r].sqe.op.fd;
            && fd in w.conns && fd in Run(c, acts).value.conns
            && Run(c, acts).value.conns[fd].echoed == w.conns[fd].echoed
  {
    RunSplit(c, acts, m);
    RunFailureDooms(c, acts[..m], acts[m].r, acts[m].res);
    DoomedForGood(c, acts, m + 1, Run(c, acts[..m]).value.reqs[acts[m].r].sqe.op.fd);
  }
}
