/**
  The other half of the refinement: whatever a run of simple.c looks like to a polite client, some run of the
  threadlet server looks the same, byte by byte, for any number of messages. So a polite client can observe
  exactly the same things of both servers.
*/
module ThreadletShows {
  import opened Wrappers
  import opened Bytes
  import opened EchoSpec
  import opened Threadlets
  import opened ThreadletInv
  import opened ThreadletTheorems
  import opened OneBatch
  import EagerClient
  import Sequential

  /** A run together with the states it goes through. */
  datatype History = History(acts: seq<Action>, ws: seq<World>)

  ghost predicate StepAt(c: Config, h: History, fd: int, m: nat)
    requires MsgSize(c.msgSize) && m < |h.acts| && |h.ws| == |h.acts| + 1
  {
    Can(c, h.ws[m], h.acts[m]) && PoliteAction(c, h.ws[m], h.acts[m], fd) && h.ws[m + 1] == Apply(c, h.ws[m], h.acts[m])
  }

  /** It ends in `w`, and the client on `fd` is polite. */
  ghost predicate Reached(c: Config, h: History, w: World, fd: int)
    requires MsgSize(c.msgSize)
  {
    && |h.ws| == |h.acts| + 1 && h.ws[0] == Init(c) && h.ws[|h.acts|] == w
    && forall m :: 0 <= m < |h.acts| ==> StepAt(c, h, fd, m)
  }

  lemma Extend(c: Config, h: History, w: World, a: Action, fd: int) returns (h': History)
    requires MsgSize(c.msgSize) && Reached(c, h, w, fd) && Can(c, w, a) && PoliteAction(c, w, a, fd)
    ensures Reached(c, h', Apply(c, w, a), fd) && h'.acts == h.acts + [a]
  {
    h' := History(h.acts + [a], h.ws + [Apply(c, w, a)]);
    forall m | 0 <= m < |h'.acts| ensures StepAt(c, h', fd, m) {
      if m < |h.acts| { assert StepAt(c, h, fd, m); }
    }
  }

  lemma {:induction false} IsRun(c: Config, h: History, w: World, fd: int, m: nat)
    requires MsgSize(c.msgSize) && Reached(c, h, w, fd) && m <= |h.acts|
    ensures Run(c, h.acts[..m]) == Some(h.ws[m]) && Polite(c, h.acts[..m], fd)
    decreases m
  {
    if m > 0 {
      IsRun(c, h, w, fd, m - 1);
      assert Front(h.acts[..m]) == h.acts[..m - 1] && StepAt(c, h, fd, m - 1);
    }
  }

  lemma WholeRun(c: Config, h: History, w: World, fd: int)
    requires MsgSize(c.msgSize) && Reached(c, h, w, fd)
    ensures Run(c, h.acts) == Some(w) && Polite(c, h.acts, fd)
  {
    IsRun(c, h, w, fd, |h.acts|);
    assert h.acts[..|h.acts|] == h.acts;
  }

  lemma {:induction false} HistoryOf(c: Config, acts: seq<Action>, fd: int) returns (h: History)
    requires MsgSize(c.msgSize) && Run(c, acts).Some? && Polite(c, acts, fd)
    ensures Reached(c, h, Run(c, acts).value, fd) && h.acts == acts
    decreases acts
  {
    if acts == [] {
      h := History([], [Init(c)]);
    } else {
      var w := LastStep(c, acts, fd);
      h := HistoryOf(c, Front(acts), fd);
      h := Extend(c, h, w, Last(acts), fd);
    }
  }

  lemma LastStep(c: Config, acts: seq<Action>, fd: int) returns (w: World)
    requires MsgSize(c.msgSize) && Run(c, acts).Some? && Polite(c, acts, fd) && acts != []
    ensures Run(c, Front(acts)) == Some(w) && Polite(c, Front(acts), fd)
    ensures Can(c, w, Last(acts)) && PoliteAction(c, w, Last(acts), fd) && Run(c, acts) == Some(Apply(c, w, Last(acts)))
    ensures Front(acts) + [Last(acts)] == acts
  {
    w := Run(c, Front(acts)).value;
  }

  // ---------- where the server waits for the kernel ----------

  /** The loop waits; threadlet 0 serves `fd`. */
  ghost predicate Resting(w: World, fd: int, pc: Pc, buf: Loc) {
    && Settled(w) && !w.inBatch && w.cq == [] && fd in w.conns
    && Lookup(w.heap, 0) == Some(Threadlet(pc, fd, buf))
  }

  function HeaderSend(fd: int): Sqe {
    Sqe(Send(fd, MsgSizeConv, 4), None, false)
  }

  function GreetingRecv(fd: int): Sqe {
    Sqe(Recv(fd, HeaderBuf, 2), Some(0), false)
  }

  function EchoSend(c: Config, fd: int): Sqe {
    Sqe(Send(fd, Heap(0), c.msgSize), None, true)
  }

  function MessageRecv(c: Config, fd: int): Sqe {
    Sqe(Recv(fd, Heap(0), c.msgSize), Some(0), false)
  }

  ghost predicate HasMem(w: World, loc: Loc, len: nat) {
    loc in w.mem && |w.mem[loc]| == len
  }

  ghost predicate Counts(w: World, fd: int, taken: nat, sent: nat) {
    fd in w.conns && w.conns[fd].taken == taken && |w.conns[fd].wire| == sent
  }

  /** `d` bytes of the header have gone out; the greeting is being received. */
  ghost predicate AtHeader(c: Config, w: World, fd: int, d: nat) {
    && Resting(w, fd, RECEIVED_HEADER, Null) && d <= 4 && Counts(w, fd, 0, d)
    && Lookup(w.reqs, 1) == Some(Req(HeaderSend(fd), Started(d)))
    && Lookup(w.reqs, 3) == Some(Req(GreetingRecv(fd), Started(0)))
    && HasMem(w, MsgSizeConv, 4) && HasMem(w, HeaderBuf, 2)
  }

  /** `taken` bytes have been received and `sent` sent; request `r` receives the next message. */
  ghost predicate Receiving(c: Config, w: World, fd: int, r: Rid, taken: nat, sent: nat) {
    && Resting(w, fd, RECEIVED_MSG, Heap(0)) && Counts(w, fd, taken, sent)
    && Lookup(w.reqs, r) == Some(Req(MessageRecv(c, fd), Started(0)))
    && HasMem(w, Heap(0), BUF_SIZE)
  }

  /** Request `s` has sent `d` bytes of a message, and its successor waits. */
  ghost predicate Sending(c: Config, w: World, fd: int, s: Rid, d: nat, taken: nat, sent: nat) {
    && Resting(w, fd, RECEIVED_MSG, Heap(0)) && Counts(w, fd, taken, sent)
    && Lookup(w.reqs, s) == Some(Req(EchoSend(c, fd), Started(d)))
    && Lookup(w.reqs, s + 1) == Some(Req(MessageRecv(c, fd), Waiting))
    && HasMem(w, Heap(0), BUF_SIZE)
  }

  /** Before the first message, or in the middle of echoing the one after `base` bytes of messages. */
  datatype Place = Header(d: nat) | Message(s: Rid, base: nat, d: nat)

  ghost predicate Blocked(c: Config, w: World, fd: int, p: Place)
    requires MsgSize(c.msgSize)
  {
    match p
    case Header(d) => AtHeader(c, w, fd, d)
    case Message(s, base, d) =>
      Aligned(base, c.msgSize) && d <= c.msgSize && Sending(c, w, fd, s, d, 2 + base + c.msgSize, 4 + base + d)
  }

  // ---------- single steps ----------

  /** One byte of request `r` goes out. */
  lemma SendOne(c: Config, h: History, w: World, fd: int, r: Rid, pc: Pc, buf: Loc)
    returns (h': History, w': World)
    requires MsgSize(c.msgSize) && Reached(c, h, w, fd) && Resting(w, fd, pc, buf)
    requires r in w.reqs && w.reqs[r].sqe.op.Send? && w.reqs[r].sqe.op.fd == fd && w.reqs[r].st.Started?
    requires var op := w.reqs[r].sqe.op; w.reqs[r].st.done < op.len && op.loc in w.mem && op.len <= |w.mem[op.loc]|
    ensures Reached(c, h', w', fd) && h.acts <= h'.acts && Resting(w', fd, pc, buf)
    ensures w' == w.(reqs := w.reqs[r := Req(w.reqs[r].sqe, Started(w.reqs[r].st.done + 1))], conns := w'.conns)
    ensures w'.conns[fd].inp == w.conns[fd].inp && Counts(w', fd, w.conns[fd].taken, |w.conns[fd].wire| + 1)
  {
    h' := Extend(c, h, w, Transfer(r, 1), fd);
    w' := Apply(c, w, Transfer(r, 1));
  }

  lemma HeaderByte(c: Config, h: History, w: World, fd: int, d: nat) returns (h': History, w': World)
    requires MsgSize(c.msgSize) && Reached(c, h, w, fd) && AtHeader(c, w, fd, d) && d < 4
    ensures Reached(c, h', w', fd) && h.acts <= h'.acts && AtHeader(c, w', fd, d + 1)
    ensures w'.conns[fd].inp == w.conns[fd].inp
  {
    h', w' := SendOne(c, h, w, fd, 1, RECEIVED_HEADER, Null);
  }

  lemma MessageByte(c: Config, h: History, w: World, fd: int, s: Rid, d: nat, taken: nat, sent: nat)
    returns (h': History, w': World)
    requires MsgSize(c.msgSize) && Reached(c, h, w, fd) && Sending(c, w, fd, s, d, taken, sent) && d < c.msgSize
    ensures Reached(c, h', w', fd) && h.acts <= h'.acts && Sending(c, w', fd, s, d + 1, taken, sent + 1)
    ensures w'.conns[fd].inp == w.conns[fd].inp
  {
    h', w' := SendOne(c, h, w, fd, s, RECEIVED_MSG, Heap(0));
    ByteSent(c, w, fd, s, d, taken, sent, w');
  }

  lemma ByteSent(c: Config, w: World, fd: int, s: Rid, d: nat, taken: nat, sent: nat, w': World)
    requires Sending(c, w, fd, s, d, taken, sent) && Resting(w', fd, RECEIVED_MSG, Heap(0))
    requires w' == w.(reqs := w.reqs[s := Req(w.reqs[s].sqe, Started(d + 1))], conns := w'.conns)
    requires Counts(w', fd, taken, sent + 1)
    ensures Sending(c, w', fd, s, d + 1, taken, sent + 1)
  {
  }

  /** The only completion is that of `r`, which is about to be handled. */
  ghost predicate Due(w: World, fd: int, r: Rid, sqe: Sqe, res: int, pc: Pc, buf: Loc) {
    && Settled(w) && w.inBatch && w.cq == [r] && fd in w.conns
    && Lookup(w.heap, 0) == Some(Threadlet(pc, fd, buf)) && Lookup(w.reqs, r) == Some(Req(sqe, Posted(res)))
  }

  /** Request `r` receives in full, and the loop wakes up. */
  lemma ReceiveAll(c: Config, h: History, w: World, fd: int, r: Rid, pc: Pc, buf: Loc)
    returns (h': History, w': World)
    requires MsgSize(c.msgSize) && Reached(c, h, w, fd) && Resting(w, fd, pc, buf)
    requires r in w.reqs && w.reqs[r].sqe.op.Recv? && w.reqs[r].sqe.op.fd == fd && w.reqs[r].st == Started(0)
    requires !w.reqs[r].sqe.link
    requires var op := w.reqs[r].sqe.op;
             op.loc in w.mem && op.len <= |w.mem[op.loc]| && w.conns[fd].taken + op.len <= |w.conns[fd].inp|
    ensures Reached(c, h', w', fd) && h.acts <= h'.acts
    ensures var op := w.reqs[r].sqe.op;
            && Due(w', fd, r, w.reqs[r].sqe, op.len, pc, buf)
            && HasMem(w', op.loc, |w.mem[op.loc]|) && w'.conns[fd].inp == w.conns[fd].inp
            && Counts(w', fd, w.conns[fd].taken + op.len, |w.conns[fd].wire|)
  {
    var len := w.reqs[r].sqe.op.len;
    EagerClient.MoveIs(c, w, r, fd);
    h' := Extend(c, h, w, Transfer(r, len), fd);
    var w1 := Apply(c, w, Transfer(r, len));
    h', w' := Finish(c, h', w1, fd, r, pc, buf);
  }

  /** Request `r`, carried out in full, completes, and the loop wakes up. */
  lemma Finish(c: Config, h: History, w: World, fd: int, r: Rid, pc: Pc, buf: Loc)
    returns (h': History, w': World)
    requires MsgSize(c.msgSize) && Reached(c, h, w, fd) && Resting(w, fd, pc, buf)
    requires r in w.reqs && !w.reqs[r].sqe.op.Accept? && w.reqs[r].st == Started(w.reqs[r].sqe.op.len)
    ensures Reached(c, h', w', fd) && h.acts <= h'.acts
    ensures Due(w', fd, r, w.reqs[r].sqe, w.reqs[r].sqe.op.len, pc, buf)
    ensures w' == w.(reqs := Post(w.reqs, r, w.reqs[r].sqe.op.len, true), cq := [r], inBatch := true)
  {
    var len := w.reqs[r].sqe.op.len;
    h' := Extend(c, h, w, Complete(r, len), fd);
    var w1 := Apply(c, w, Complete(r, len));
    h' := Extend(c, h', w1, Wake, fd);
    w' := Apply(c, w1, Wake);
  }

  /** The completion is handled, and what it queued is submitted. */
  lemma HandleIt(c: Config, h: History, w: World, fd: int, r: Rid, sqe: Sqe, res: int, pc: Pc, buf: Loc,
                 eff: Effect)
    returns (h': History, w': World)
    requires MsgSize(c.msgSize) && Reached(c, h, w, fd) && Due(w, fd, r, sqe, res, pc, buf)
    requires sqe.data == None || sqe.data == Some(0)
    requires eff == Dispatch(c, w.heap, w.brk, sqe.data, res) && !eff.exits && |eff.sqes| <= 3
    requires Lookup(eff.heap, 0).Some? && eff.heap[0].fd == fd
    ensures Reached(c, h', w', fd) && h.acts <= h'.acts && Submitted(w, r, eff, w')
    ensures Resting(w', fd, eff.heap[0].pc, eff.heap[0].buf)
  {
    var w1;
    w1, w' := HandleThenTurn(c, w, r, eff);
    h' := Extend(c, h, w, Handle(Junk()), fd);
    h' := Extend(c, h', w1, Turn, fd);
    SettledAfter(w, r, eff, w');
  }

  // ---------- from one place to the next ----------

  /** The greeting arrives, and the first message is asked for. */
  lemma Greeted(c: Config, h: History, w: World, fd: int) returns (h': History, w': World, r: Rid)
    requires MsgSize(c.msgSize) && Reached(c, h, w, fd) && AtHeader(c, w, fd, 4) && |w.conns[fd].inp| >= 2
    ensures Reached(c, h', w', fd) && h.acts <= h'.acts && Receiving(c, w', fd, r, 2, 4)
    ensures w'.conns[fd].inp == w.conns[fd].inp
  {
    ghost var w1;
    h', w1 := ReceiveAll(c, h, w, fd, 3, RECEIVED_HEADER, Null);
    var eff := Dispatch(c, w1.heap, w1.brk, Some(0), 2);
    h', w' := HandleIt(c, h', w1, fd, 3, GreetingRecv(fd), 2, RECEIVED_HEADER, Null, eff);
    r := w1.next;
    assert Lookup(w'.reqs, r) == After(w1, 3, eff.sqes, r);
  }

  /** The next message arrives, and its echo and the receive after that are submitted. */
  lemma Received(c: Config, h: History, w: World, fd: int, r: Rid, taken: nat, sent: nat)
    returns (h': History, w': World, s: Rid)
    requires MsgSize(c.msgSize) && Reached(c, h, w, fd) && Receiving(c, w, fd, r, taken, sent)
    requires taken + c.msgSize <= |w.conns[fd].inp|
    ensures Reached(c, h', w', fd) && h.acts <= h'.acts && Sending(c, w', fd, s, 0, taken + c.msgSize, sent)
    ensures w'.conns[fd].inp == w.conns[fd].inp
  {
    ghost var w1;
    h', w1 := ReceiveAll(c, h, w, fd, r, RECEIVED_MSG, Heap(0));
    var eff := Dispatch(c, w1.heap, w1.brk, Some(0), c.msgSize);
    h', w' := HandleIt(c, h', w1, fd, r, MessageRecv(c, fd), c.msgSize, RECEIVED_MSG, Heap(0), eff);
    s := w1.next;
    assert Lookup(w'.reqs, s) == After(w1, r, eff.sqes, s);
    assert Lookup(w'.reqs, s + 1) == After(w1, r, eff.sqes, s + 1);
  }

  /** A message has been echoed in full: the receive that was linked to the echo starts. */
  lemma Echoed(c: Config, h: History, w: World, fd: int, s: Rid, taken: nat, sent: nat)
    returns (h': History, w': World)
    requires MsgSize(c.msgSize) && Reached(c, h, w, fd) && Sending(c, w, fd, s, c.msgSize, taken, sent)
    ensures Reached(c, h', w', fd) && h.acts <= h'.acts && Receiving(c, w', fd, s + 1, taken, sent)
    ensures w'.conns[fd].inp == w.conns[fd].inp
  {
    ghost var w1;
    h', w1 := Finish(c, h, w, fd, s, RECEIVED_MSG, Heap(0));
    PostStarts(c, w.reqs, fd, s);
    h', w' := EchoHandled(c, h', w1, fd, s);
  }

  lemma PostStarts(c: Config, reqs: map<Rid, Req>, fd: int, s: Rid)
    requires s in reqs && reqs[s].sqe == EchoSend(c, fd)
    requires Lookup(reqs, s + 1) == Some(Req(MessageRecv(c, fd), Waiting))
    ensures Lookup(Post(reqs, s, c.msgSize, true), s + 1) == Some(Req(MessageRecv(c, fd), Started(0)))
  {
  }

  lemma EchoHandled(c: Config, h: History, w: World, fd: int, s: Rid) returns (h': History, w': World)
    requires MsgSize(c.msgSize) && Reached(c, h, w, fd)
    requires Due(w, fd, s, EchoSend(c, fd), c.msgSize, RECEIVED_MSG, Heap(0)) && s + 1 in w.reqs
    ensures Reached(c, h', w', fd) && h.acts <= h'.acts && Resting(w', fd, RECEIVED_MSG, Heap(0))
    ensures w'.conns == w.conns && w'.mem == w.mem && Lookup(w'.reqs, s + 1) == Lookup(w.reqs, s + 1)
  {
    var eff := Dispatch(c, w.heap, w.brk, None, c.msgSize);
    h', w' := HandleIt(c, h, w, fd, s, EchoSend(c, fd), c.msgSize, RECEIVED_MSG, Heap(0), eff);
    assert Lookup(w'.reqs, s + 1) == After(w, s, eff.sqes, s + 1);
  }

  /** If more may be sent, the next message is there in full. */
  lemma MessageIsThere(n: nat, inp: seq<byte>, base: nat)
    requires MsgSize(n) && Aligned(base, n) && 4 + base < |Allowed(n, inp)|
    ensures 2 + base + n <= |inp|
  {
    WholeNext(base, |inp| - 2, n);
  }

  /** The first byte of the first message goes out. */
  lemma FirstMessage(c: Config, h: History, w: World, fd: int) returns (h': History, w': World, s: Rid)
    requires MsgSize(c.msgSize) && Reached(c, h, w, fd) && AtHeader(c, w, fd, 4)
    requires 2 + c.msgSize <= |w.conns[fd].inp|
    ensures Reached(c, h', w', fd) && h.acts <= h'.acts && Sending(c, w', fd, s, 1, 2 + c.msgSize, 5)
    ensures w'.conns[fd].inp == w.conns[fd].inp
  {
    var r;
    h', w', r := Greeted(c, h, w, fd);
    h', w', s := Received(c, h', w', fd, r, 2, 4);
    h', w' := MessageByte(c, h', w', fd, s, 0, 2 + c.msgSize, 4);
  }

  /** The first byte of the next message goes out. */
  lemma NextMessage(c: Config, h: History, w: World, fd: int, s: Rid, taken: nat, sent: nat)
    returns (h': History, w': World, s': Rid)
    requires MsgSize(c.msgSize) && Reached(c, h, w, fd) && Sending(c, w, fd, s, c.msgSize, taken, sent)
    requires taken + c.msgSize <= |w.conns[fd].inp|
    ensures Reached(c, h', w', fd) && h.acts <= h'.acts && Sending(c, w', fd, s', 1, taken + c.msgSize, sent + 1)
    ensures w'.conns[fd].inp == w.conns[fd].inp
  {
    h', w' := Echoed(c, h, w, fd, s, taken, sent);
    h', w', s' := Received(c, h', w', fd, s + 1, taken, sent);
    h', w' := MessageByte(c, h', w', fd, s', 0, taken + c.msgSize, sent);
  }

  /** One more byte to the client, if simple.c might send one. */
  lemma NextByte(c: Config, h: History, w: World, fd: int, p: Place)
    returns (h': History, w': World, p': Place)
    requires MsgSize(c.msgSize) && Reached(c, h, w, fd) && Blocked(c, w, fd, p)
    requires |w.conns[fd].wire| < |Allowed(c.msgSize, w.conns[fd].inp)|
    ensures Reached(c, h', w', fd) && h.acts <= h'.acts && Blocked(c, w', fd, p')
    ensures w'.conns[fd].inp == w.conns[fd].inp && |w'.conns[fd].wire| == |w.conns[fd].wire| + 1
  {
    match p
    case Header(d) => h', w', p' := AfterHeader(c, h, w, fd, d);
    case Message(s, base, d) => h', w', p' := AfterMessage(c, h, w, fd, s, base, d);
  }

  lemma AfterHeader(c: Config, h: History, w: World, fd: int, d: nat)
    returns (h': History, w': World, p': Place)
    requires MsgSize(c.msgSize) && Reached(c, h, w, fd) && AtHeader(c, w, fd, d)
    requires d < |Allowed(c.msgSize, w.conns[fd].inp)|
    ensures Reached(c, h', w', fd) && h.acts <= h'.acts && Blocked(c, w', fd, p')
    ensures w'.conns[fd].inp == w.conns[fd].inp && |w'.conns[fd].wire| == d + 1
  {
    if d < 4 {
      h', w' := HeaderByte(c, h, w, fd, d);
      p' := Header(d + 1);
    } else {
      MessageIsThere(c.msgSize, w.conns[fd].inp, 0);
      var s;
      h', w', s := FirstMessage(c, h, w, fd);
      p' := Message(s, 0, 1);
    }
  }

  lemma AfterMessage(c: Config, h: History, w: World, fd: int, s: Rid, base: nat, d: nat)
    returns (h': History, w': World, p': Place)
    requires MsgSize(c.msgSize) && Reached(c, h, w, fd) && Blocked(c, w, fd, Message(s, base, d))
    requires 4 + base + d < |Allowed(c.msgSize, w.conns[fd].inp)|
    ensures Reached(c, h', w', fd) && h.acts <= h'.acts && Blocked(c, w', fd, p')
    ensures w'.conns[fd].inp == w.conns[fd].inp && |w'.conns[fd].wire| == 4 + base + d + 1
  {
    var taken, sent := 2 + base + c.msgSize, 4 + base + d;
    if d < c.msgSize {
      h', w' := MessageByte(c, h, w, fd, s, d, taken, sent);
      p' := Message(s, base, d + 1);
    } else {
      AlignedNext(base, c.msgSize);
      MessageIsThere(c.msgSize, w.conns[fd].inp, base + c.msgSize);
      var s';
      h', w', s' := NextMessage(c, h, w, fd, s, taken, sent);
      p' := Message(s', base + c.msgSize, 1);
    }
  }

  /** Bytes to the client until it has been sent `len` of them. */
  lemma {:induction false} SendUntil(c: Config, h: History, w: World, fd: int, p: Place, len: nat)
    returns (h': History, w': World, p': Place)
    requires MsgSize(c.msgSize) && Reached(c, h, w, fd) && Blocked(c, w, fd, p)
    requires |w.conns[fd].wire| <= len <= |Allowed(c.msgSize, w.conns[fd].inp)|
    ensures Reached(c, h', w', fd) && h.acts <= h'.acts && Blocked(c, w', fd, p')
    ensures w'.conns[fd].inp == w.conns[fd].inp && |w'.conns[fd].wire| == len
    decreases len - |w.conns[fd].wire|
  {
    h', w', p' := h, w, p;
    if |w.conns[fd].wire| < len {
      h', w', p' := NextByte(c, h, w, fd, p);
      h', w', p' := SendUntil(c, h', w', fd, p', len);
    }
  }

  /** The client says what is missing of `inp`. */
  lemma Say(c: Config, h: History, w: World, fd: int, p: Place, inp: seq<byte>)
    returns (h': History, w': World)
    requires MsgSize(c.msgSize) && Reached(c, h, w, fd) && Blocked(c, w, fd, p) && w.conns[fd].inp <= inp
    requires |inp| < 2 + c.msgSize || |w.conns[fd].wire| >= 4
    ensures Reached(c, h', w', fd) && h.acts <= h'.acts && Blocked(c, w', fd, p)
    ensures w'.conns[fd].inp == inp && w'.conns[fd].wire == w.conns[fd].wire
  {
    var a := ClientSend(fd, inp[|w.conns[fd].inp|..]);
    assert w.conns[fd].inp + inp[|w.conns[fd].inp|..] == inp;
    h' := Extend(c, h, w, a, fd);
    w' := Apply(c, w, a);
  }

  // ---------- any lawful trace ----------

  /** The client is seen to have completed its first message only after it was sent the size. */
  ghost predicate PoliteTrace(n: nat, tr: seq<Obs>) {
    forall i :: 0 <= i < |tr| ==> |tr[i].inp| < 2 + n || |tr[i].out| >= 4
  }

  /** What is allowed and has the right length is right. */
  lemma SameLength(all: seq<byte>, a: seq<byte>, b: seq<byte>)
    requires a <= all && b <= all && |a| == |b|
    ensures a == b
  {
  }

  /** The run goes on until `o` is seen. */
  lemma ShowNext(c: Config, h: History, w: World, fd: int, p: Place, o: Obs)
    returns (h': History, w': World, p': Place)
    requires MsgSize(c.msgSize) && Reached(c, h, w, fd) && Blocked(c, w, fd, p)
    requires Grows(Seen(w, fd), o) && o.out <= Allowed(c.msgSize, o.inp) && (|o.inp| < 2 + c.msgSize || |o.out| >= 4)
    ensures Reached(c, h', w', fd) && h.acts <= h'.acts && Blocked(c, w', fd, p') && Seen(w', fd) == o
  {
    h', w', p' := h, w, p;
    if |w.conns[fd].wire| < 4 {
      h', w', p' := SendUntil(c, h, w, fd, p, if |o.out| < 4 then |o.out| else 4);
    }
    h', w' := Say(c, h', w', fd, p', o.inp);
    h', w', p' := SendUntil(c, h', w', fd, p', |o.out|);
    WholeRun(c, h', w', fd);
    PoliteWire(c, h'.acts, fd);
    SameLength(Allowed(c.msgSize, o.inp), w'.conns[fd].wire, o.out);
  }

  /** The connection arrives. */
  lemma Arrive(c: Config, fd: int) returns (h: History, w: World)
    requires MsgSize(c.msgSize) && fd >= 0 && fd != c.listenFd
    ensures Reached(c, h, w, fd) && Blocked(c, w, fd, Header(0)) && w.conns[fd].inp == [] && w.conns[fd].wire == []
  {
    var w0;
    h, w0 := Accepted(c, fd);
    w := FirstTurn(c, w0, fd);
    h := Extend(c, h, w0, Turn, fd);
  }

  /** The accept has been handled, and nothing was submitted yet. */
  ghost predicate JustAccepted(c: Config, w: World, fd: int)
    requires MsgSize(c.msgSize)
  {
    && EagerClient.HeaderPending(c, w, fd)
    && EagerClient.Ready(w, fd, RECEIVED_HEADER, Null, Conn([], 0, [], [], []))
    && 2 in w.reqs && !w.reqs[2].sqe.link
    && Lookup(w.reqs, 3) == Some(Req(GreetingRecv(fd), Queued)) && HasMem(w, HeaderBuf, 2)
  }

  lemma Accepted(c: Config, fd: int) returns (h: History, w: World)
    requires MsgSize(c.msgSize) && fd >= 0 && fd != c.listenFd
    ensures Reached(c, h, w, fd) && JustAccepted(c, w, fd)
  {
    ghost var acts;
    acts, w := EagerClient.AcceptStage(c, fd, [], Junk());
    EagerClient.BriefIsPolite(c, acts, fd, []);
    h := HistoryOf(c, acts, fd);
  }

  /** The send of the header and the receive of the greeting are submitted. */
  lemma FirstTurn(c: Config, w: World, fd: int) returns (w': World)
    requires MsgSize(c.msgSize) && JustAccepted(c, w, fd)
    ensures Can(c, w, Turn) && w' == Apply(c, w, Turn) && AtHeader(c, w', fd, 0)
    ensures w'.conns[fd].inp == [] && w'.conns[fd].wire == []
  {
    w' := Apply(c, w, Turn);
    EagerClient.TurnKeepsHeader(c, w, fd, w');
  }

  lemma ObservedSoFar(c: Config, acts: seq<Action>, acts': seq<Action>, fd: int, m: nat)
    requires MsgSize(c.msgSize) && acts <= acts' && m <= |acts|
    ensures Observed(c, acts', fd)[m] == Observed(c, acts, fd)[m]
  {
    assert acts'[..m] == acts[..m];
  }

  lemma ObservedLast(c: Config, acts: seq<Action>, w: World, fd: int)
    requires MsgSize(c.msgSize) && Run(c, acts) == Some(w)
    ensures Observed(c, acts, fd)[|acts|] == Seen(w, fd)
  {
    assert acts[..|acts|] == acts;
  }

  /** At the moments `f`, a run shows `tr`. */
  ghost predicate Shows(c: Config, acts: seq<Action>, fd: int, f: seq<nat>, tr: seq<Obs>)
    requires MsgSize(c.msgSize)
  {
    Moments(Observed(c, acts, fd), f) && At(Observed(c, acts, fd), f) == tr
  }

  lemma ShowsMore(c: Config, acts: seq<Action>, acts': seq<Action>, w': World, fd: int, f: seq<nat>, tr: seq<Obs>)
    requires MsgSize(c.msgSize) && acts <= acts' && Run(c, acts') == Some(w') && Shows(c, acts, fd, f, tr)
    ensures Shows(c, acts', fd, f + [|acts'|], tr + [Seen(w', fd)])
  {
    var o, o', f' := Observed(c, acts, fd), Observed(c, acts', fd), f + [|acts'|];
    forall i | 0 <= i < |f| ensures f'[i] == f[i] <= |acts| && o'[f[i]] == tr[i] {
      assert f[i] < |o| && At(o, f)[i] == o[f[i]];
      ObservedSoFar(c, acts, acts', fd, f[i]);
    }
    ObservedLast(c, acts', w', fd);
    assert At(o', f') == tr + [Seen(w', fd)];
  }

  lemma {:induction false} ShowAll(c: Config, fd: int, tr: seq<Obs>)
    returns (h: History, w: World, p: Place, f: seq<nat>)
    requires MsgSize(c.msgSize) && fd >= 0 && fd != c.listenFd && Lawful(c.msgSize, tr) && PoliteTrace(c.msgSize, tr)
    ensures Reached(c, h, w, fd) && Blocked(c, w, fd, p) && Shows(c, h.acts, fd, f, tr)
    ensures Seen(w, fd) == if tr == [] then Obs([], []) else tr[|tr| - 1]
    decreases tr
  {
    if tr == [] {
      h, w := Arrive(c, fd);
      p, f := Header(0), [];
    } else {
      var front, o := tr[..|tr| - 1], tr[|tr| - 1];
      LawfulFront(c.msgSize, tr, front, o);
      h, w, p, f := ShowAll(c, fd, front);
      h, w, p, f := ShowOne(c, h, w, fd, p, f, front, o);
    }
  }

  lemma ShowOne(c: Config, h: History, w: World, fd: int, p: Place, f: seq<nat>, front: seq<Obs>, o: Obs)
    returns (h': History, w': World, p': Place, f': seq<nat>)
    requires MsgSize(c.msgSize) && Reached(c, h, w, fd) && Blocked(c, w, fd, p) && Shows(c, h.acts, fd, f, front)
    requires Grows(Seen(w, fd), o) && o.out <= Allowed(c.msgSize, o.inp) && (|o.inp| < 2 + c.msgSize || |o.out| >= 4)
    ensures Reached(c, h', w', fd) && Blocked(c, w', fd, p') && Seen(w', fd) == o
    ensures Shows(c, h'.acts, fd, f', front + [o])
  {
    h', w', p' := ShowNext(c, h, w, fd, p, o);
    WholeRun(c, h', w', fd);
    ShowsMore(c, h.acts, h'.acts, w', fd, f, front);
    f' := f + [|h'.acts|];
  }

  lemma LawfulFront(n: nat, tr: seq<Obs>, front: seq<Obs>, o: Obs)
    requires MsgSize(n) && tr != [] && front == tr[..|tr| - 1] && o == tr[|tr| - 1]
    requires Lawful(n, tr) && PoliteTrace(n, tr)
    ensures Lawful(n, front) && PoliteTrace(n, front) && front + [o] == tr
    ensures o.out <= Allowed(n, o.inp) && (|o.inp| < 2 + n || |o.out| >= 4)
    ensures Grows(if front == [] then Obs([], []) else front[|front| - 1], o)
  {
    forall i | 0 <= i < |front| ensures LawfulAt(n, front, i) {
      assert LawfulAt(n, tr, i);
    }
    assert LawfulAt(n, tr, |front|);
  }

  // ---------- what polite clients see ----------

  lemma {:induction false} PoliteIsSeen(c: Config, acts: seq<Action>, fd: int)
    requires MsgSize(c.msgSize) && Run(c, acts).Some? && Polite(c, acts, fd)
    ensures PoliteTrace(c.msgSize, [SeenAfter(c, acts, fd)])
    decreases acts
  {
    if acts != [] {
      PoliteIsSeen(c, Front(acts), fd);
      var w := Run(c, Front(acts)).value;
      assert [SeenAfter(c, Front(acts), fd)][0] == Seen(w, fd);
      ApplyGrows(c, w, Last(acts), fd);
    }
  }

  lemma MomentsArePolite(c: Config, acts: seq<Action>, fd: int, f: seq<nat>)
    requires MsgSize(c.msgSize) && Run(c, acts).Some? && Polite(c, acts, fd) && Moments(Observed(c, acts, fd), f)
    ensures PoliteTrace(c.msgSize, At(Observed(c, acts, fd), f))
  {
    var tr := Observed(c, acts, fd);
    forall i | 0 <= i < |f|
      ensures |At(tr, f)[i].inp| < 2 + c.msgSize || |At(tr, f)[i].out| >= 4
    {
      RunPrefix(c, acts, f[i]);
      PoliteIsSeen(c, acts[..f[i]], fd);
      assert [SeenAfter(c, acts[..f[i]], fd)][0] == tr[f[i]];
    }
  }

  /** What can be seen, at any moments, of runs of the threadlet server with a polite client is exactly what
      can be seen of simple.c with a polite client. */
  lemma SameBehaviours(c: Config, fd: int, tr: seq<Obs>)
    requires MsgSize(c.msgSize) && fd >= 0 && fd != c.listenFd
    ensures (exists acts, f :: Run(c, acts).Some? && Polite(c, acts, fd) && Shows(c, acts, fd, f, tr))
            <==> Sequential.IsTrace(c.msgSize, tr) && PoliteTrace(c.msgSize, tr)
  {
    Sequential.LawfulIffTrace(c.msgSize, tr);
    if acts, f :| Run(c, acts).Some? && Polite(c, acts, fd) && Shows(c, acts, fd, f, tr) {
      RefinesSequential(c, acts, fd);
      Sequential.LawfulIffTrace(c.msgSize, Observed(c, acts, fd));
      LawfulAtMoments(c.msgSize, Observed(c, acts, fd), f);
      MomentsArePolite(c, acts, fd, f);
    }
    if Lawful(c.msgSize, tr) && PoliteTrace(c.msgSize, tr) {
      ghost var h, w, p, f := ShowAll(c, fd, tr);
      WholeRun(c, h, w, fd);
    }
  }

  // ---------- any number of echoes ----------

  lemma {:induction false} SaysItsInput(c: Config, acts: seq<Action>, fd: int, inp: seq<byte>)
    requires MsgSize(c.msgSize) && Run(c, acts).Some? && Seen(Run(c, acts).value, fd).inp <= inp
    ensures EagerClient.SaysWithin(c, acts, fd, inp)
    decreases acts
  {
    if acts != [] {
      ApplyGrows(c, Run(c, Front(acts)).value, Last(acts), fd);
      SaysItsInput(c, Front(acts), fd, inp);
    }
  }

  /** Header first, then everything else: the echo alone. */
  lemma EchoAfterHeader(c: Config, acts: seq<Action>, fd: int, echo: seq<byte>)
    requires MsgSize(c.msgSize) && Run(c, acts).Some? && Polite(c, acts, fd) && fd in Run(c, acts).value.conns
    requires Run(c, acts).value.conns[fd].wire == EchoSpec.Header(c.msgSize) + echo
    ensures Run(c, acts).value.conns[fd].echoed == echo
  {
    var cn := Run(c, acts).value.conns[fd];
    RunWire(c, acts, fd);
    EchoesOwnMessages(c, acts, fd);
    if |cn.hdr| < 4 {
      NothingDue(c.msgSize, cn.inp);
      assert false;
    }
    assert cn.wire[4..] == cn.echoed && (EchoSpec.Header(c.msgSize) + echo)[4..] == echo;
  }

  lemma EchoIsAllowed(n: nat, inp: seq<byte>, k: nat)
    requires MsgSize(n) && 2 + k * n <= |inp|
    ensures EchoSpec.Header(n) + inp[2..2 + k * n] <= Allowed(n, inp)
  {
    MultipleIsAligned(k, n);
    WholeMonotone(k * n, |inp| - 2, n);
    assert Echoable(n, inp)[..k * n] == inp[2..2 + k * n];
  }

  lemma {:induction false} MultipleIsAligned(k: nat, n: nat)
    requires n > 0
    ensures Aligned(k * n, n)
    decreases k
  {
    if k > 0 {
      MultipleIsAligned(k - 1, n);
      assert k * n == (k - 1) * n + n;
      AlignedNext((k - 1) * n, n);
    }
  }

  /** Whatever a client says, and however many whole messages that is, in some run each of its first `k`
      messages is echoed. */
  lemma EchoesManyMessages(c: Config, fd: int, inp: seq<byte>, k: nat) returns (acts: seq<Action>)
    requires MsgSize(c.msgSize) && fd >= 0 && fd != c.listenFd && |inp| >= 2 + k * c.msgSize
    ensures Run(c, acts).Some? && Polite(c, acts, fd) && EagerClient.SaysWithin(c, acts, fd, inp)
    ensures fd in Run(c, acts).value.conns
    ensures var cn, len: nat := Run(c, acts).value.conns[fd], k * c.msgSize;
            cn.inp == inp && cn.echoed == inp[2..2 + len] && cn.wire == EchoSpec.Header(c.msgSize) + inp[2..2 + len]
  {
    var o := Obs(inp, EchoSpec.Header(c.msgSize) + inp[2..2 + k * c.msgSize]);
    EchoIsAllowed(c.msgSize, inp, k);
    ghost var h, w, p, f := ShowAll(c, fd, [o]);
    WholeRun(c, h, w, fd);
    acts := h.acts;
    SaysItsInput(c, acts, fd, inp);
    EchoAfterHeader(c, acts, fd, inp[2..2 + k * c.msgSize]);
  }
}
