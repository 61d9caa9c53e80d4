/**
  epoll_single.c: one loop serves every connection through one buffer, driven by readiness events. The
  kernel chooses which registered descriptors are reported, in which order, and how every call ends.
*/
module Epoll {
  import opened Wrappers
  import opened Bytes
  import opened EchoSpec
  import opened Sockets
  import Sequential

  /** A connection: what its client ever sends, what was received and sent, and every (received, sent)
      pair so far. `greeted` says that the handshake of `handle_new_conn` completed. */
  datatype Sock = Sock(inp: seq<byte>, taken: nat, out: seq<byte>, trace: seq<Obs>, greeted: bool)

  /** A reported event with what the kernel makes of the calls that follow it. */
  datatype Event =
    | ListenReady(connFd: int, inp: seq<byte>, hello: Outcome, greeting: Outcome)
    | ConnReady(fd: int, received: Outcome, sent: Outcome)

  datatype Exit = Running | AcceptError

  function Log(s: Sock): Sock
    requires s.taken <= |s.inp|
  {
    s.(trace := s.trace + [Obs(s.inp[..s.taken], s.out)])
  }

  function Sent(s: Sock, data: seq<byte>, o: Outcome): (s': Sock)
    requires s.taken <= |s.inp|
    ensures s'.taken == s.taken && s'.inp == s.inp
  {
    Log(s.(out := s.out + data[..Min(o.moved, |data|)]))
  }

  function Received(s: Sock, len: nat, o: Outcome): (s': Sock)
    requires s.taken <= |s.inp|
    ensures s.taken <= s'.taken <= |s.inp| && s'.inp == s.inp
  {
    Log(s.(taken := s.taken + Min(Min(o.moved, len), |s.inp| - s.taken)))
  }

  /** A connection that is still served is up to date; one that is not was lawful until the end. */
  ghost predicate SockOk(n: nat, s: Sock, registered: bool)
    requires MsgSize(n)
  {
    && s.taken <= |s.inp|
    && (s.greeted ==> s.trace != [] && s.trace[|s.trace| - 1] == Obs(s.inp[..s.taken], s.out) && Lawful(n, s.trace))
    && (s.greeted && registered ==>
          2 <= s.taken && Aligned(s.taken - 2, n) && s.out == Header(n) + s.inp[2..s.taken])
  }

  /** Sending back a whole message that was just received. */
  lemma ReplyOk(n: nat, s0: Sock, s: Sock, msg: seq<byte>, o: Outcome)
    requires MsgSize(n) && SockOk(n, s0, true) && SockOk(n, s, false)
    requires s == s0.(taken := s0.taken + n, trace := s.trace) && msg == s0.inp[s0.taken..s0.taken + n]
    ensures SockOk(n, Sent(s, msg, o), Min(o.moved, n) == n)
    ensures o.moved >= n ==> Sent(s, msg, o).out == s0.out + msg
  {
    assert msg[..n] == msg;
    if s.greeted {
      var k := Min(o.moved, n);
      EchoPart(n, s.inp, s.taken, s0.out, msg, s0.taken - 2, k);
      LawfulAppend(n, s.trace, Obs(s.inp[..s.taken], s0.out + msg[..k]));
    }
  }

  // ---------- what one event does ----------

  /** A new connection after `handle_new_conn`. */
  function Accepted(n: nat, inp: seq<byte>, hello: Outcome, greeting: Outcome): (s: Sock)
    requires MsgSize(n)
    ensures s.taken <= |s.inp|
  {
    var s := Sent(Sock(inp, 0, [], [Obs([], [])], false), Header(n), hello);
    if !Good(hello, 4) then s
    else
      var s' := Received(s, 2, greeting);
      s'.(greeted := Count(s'.taken, greeting) >= 2)
  }

  /** A connection after an event: a whole message is sent back, anything less is not. */
  function Served(n: nat, s: Sock, received: Outcome, sent: Outcome): (s': Sock)
    requires s.taken <= |s.inp|
    ensures s'.taken <= |s'.inp|
  {
    var s' := Received(s, n, received);
    if Count(s'.taken - s.taken, received) < n then s' else Sent(s', s.inp[s.taken..s.taken + n], sent)
  }

  /** The connection is still registered afterwards. */
  predicate Stays(n: nat, s: Sock, received: Outcome, sent: Outcome) {
    Good(received, n) && s.taken + n <= |s.inp| && Good(sent, n)
  }

  /** The state of the loop. */
  datatype Loop = Loop(socks: map<int, Sock>, registered: set<int>, exit: Exit)

  ghost predicate Sane(r: Loop) {
    r.registered <= r.socks.Keys && forall fd :: fd in r.socks ==> r.socks[fd].taken <= |r.socks[fd].inp|
  }

  /** The kernel never hands out a descriptor that is open, nor reports one that is not registered. */
  ghost function Step(n: nat, r: Loop, e: Event): (r': Loop)
    requires MsgSize(n) && Sane(r)
    ensures Sane(r')
  {
    if r.exit != Running then r
    else match e
      case ListenReady(fd, inp, hello, greeting) =>
        if fd in r.socks then r
        else if fd < 0 then r.(exit := AcceptError)
        else r.(socks := r.socks[fd := Accepted(n, inp, hello, greeting)], registered := r.registered + {fd})
      case ConnReady(fd, received, sent) =>
        if fd !in r.registered then r
        else r.(socks := r.socks[fd := Served(n, r.socks[fd], received, sent)],
                registered := if Stays(n, r.socks[fd], received, sent) then r.registered else r.registered - {fd})
  }

  ghost function Batch(n: nat, r: Loop, events: seq<Event>): (r': Loop)
    requires MsgSize(n) && Sane(r)
    ensures Sane(r')
    decreases events
  {
    if events == [] then r else Step(n, Batch(n, r, events[..|events| - 1]), events[|events| - 1])
  }

  lemma {:induction false} BatchStops(n: nat, r: Loop, events: seq<Event>, i: nat)
    requires MsgSize(n) && Sane(r) && i <= |events| && Batch(n, r, events[..i]).exit != Running
    ensures Batch(n, r, events) == Batch(n, r, events[..i])
    decreases |events| - i
  {
    if i < |events| {
      assert events[..i + 1][..i] == events[..i];
      BatchStops(n, r, events, i + 1);
    } else {
      assert events[..i] == events;
    }
  }

  /** What `epoll_wait` reports of what the kernel would like to report. */
  function Reported(registered: set<int>, wish: seq<Event>): (events: seq<Event>)
    ensures forall i :: 0 <= i < |events| && events[i].ConnReady? ==> events[i].fd in registered
    ensures forall i, j :: 0 <= i < j < |events| && events[i].ConnReady? && events[j].ConnReady? ==>
              events[i].fd != events[j].fd
  {
    if wish == [] then []
    else
      var e, front := wish[|wish| - 1], Reported(registered, wish[..|wish| - 1]);
      if e.ListenReady? ||
         (e.fd in registered && forall i :: 0 <= i < |front| && front[i].ConnReady? ==> front[i].fd != e.fd)
      then front + [e] else front
  }

  ghost function Rounds(n: nat, r: Loop, wishes: seq<seq<Event>>): (r': Loop)
    requires MsgSize(n) && Sane(r)
    ensures Sane(r')
    decreases wishes
  {
    if wishes == [] then r
    else
      var r1 := Rounds(n, r, wishes[..|wishes| - 1]);
      if r1.exit != Running then r1 else Batch(n, r1, Reported(r1.registered, wishes[|wishes| - 1]))
  }

  lemma {:induction false} RoundsStop(n: nat, r: Loop, wishes: seq<seq<Event>>, i: nat)
    requires MsgSize(n) && Sane(r) && i <= |wishes| && Rounds(n, r, wishes[..i]).exit != Running
    ensures Rounds(n, r, wishes) == Rounds(n, r, wishes[..i])
    decreases |wishes| - i
  {
    if i < |wishes| {
      assert wishes[..i + 1][..i] == wishes[..i];
      RoundsStop(n, r, wishes, i + 1);
    } else {
      assert wishes[..i] == wishes;
    }
  }

  // ---------- the program ----------

  class EpollLoop {
    const n: nat
    const buf: array<byte>
    var socks: map<int, Sock>
    var registered: set<int>    // the epoll instance, without the listening socket
    var ev: Option<bool>        // the EPOLLIN bit of `ev.events`; None while it was never written
    var exit: Exit

    ghost predicate Valid()
      reads this
    {
      && MsgSize(n) && buf.Length == BUF_SIZE
      && registered <= socks.Keys
      && (registered != {} ==> ev == Some(true))
      && (forall fd :: fd in socks ==> SockOk(n, socks[fd], fd in registered))
    }

    ghost function State(): Loop
      reads this
    {
      Loop(socks, registered, exit)
    }

    /** Connections that are not registered any more keep everything, and are never registered again. */
    twostate predicate Retired()
      reads this
    {
      && old(socks.Keys) <= socks.Keys
      && (forall fd :: fd in old(socks) && fd !in old(registered) ==> socks[fd] == old(socks)[fd] && fd !in registered)
    }

    constructor (msgSize: nat)
      requires MsgSize(msgSize)
      ensures Valid() && socks == map[] && registered == {} && exit == Running && n == msgSize && fresh(buf)
    {
      n := msgSize;
      buf := new byte[BUF_SIZE];
      socks, registered, ev, exit := map[], {}, None, Running;
    }

    /** `handle_new_conn` followed by the registration, which happens even when the handshake failed. */
    method AcceptConn(fd: int, inp: seq<byte>, hello: Outcome, greeting: Outcome)
      requires Valid() && fd !in socks
      modifies this`socks, this`registered, this`ev
      ensures Valid() && Retired() && registered == old(registered) + {fd}
      ensures socks == old(socks)[fd := Accepted(n, inp, hello, greeting)]
      ensures socks[fd].greeted <==>
                hello.moved >= 4 && !hello.error && greeting.moved >= 2 && !greeting.error && |inp| >= 2
    {
      var s := Sent(Sock(inp, 0, [], [Obs([], [])], false), Header(n), hello);
      HeaderLawful(n, inp, 0, s.out);
      LawfulAppend(n, [Obs([], [])], Obs(inp[..0], s.out));
      var r := Count(Min(hello.moved, 4), hello);
      if r > 0 && r >= 4 {
        ghost var tr := s.trace;
        s := Received(s, 2, greeting);
        HeaderLawful(n, inp, s.taken, s.out);
        LawfulAppend(n, tr, Obs(inp[..s.taken], s.out));
        r := Count(s.taken, greeting);
        s := s.(greeted := r >= 2);
      }
      socks := socks[fd := s];
      ev := Some(true);
      registered := registered + {fd};
    }

    /** The branch for a connection socket; `aborts` is the `errx` for an event without EPOLLIN. */
    method ServeConn(fd: int, received: Outcome, sent: Outcome) returns (aborts: bool)
      requires Valid() && fd in registered
      modifies this`socks, this`registered, buf
      ensures Valid() && Retired() && !aborts
      ensures socks == old(socks)[fd := Served(n, old(socks)[fd], received, sent)]
      ensures registered + {fd} == old(registered)
      ensures fd in registered <==>
                && received.moved >= n && !received.error && old(socks)[fd].taken + n <= |old(socks)[fd].inp|
                && sent.moved >= n && !sent.error
      ensures fd in registered ==>
                && socks[fd].taken == old(socks)[fd].taken + n
                && socks[fd].out == old(socks)[fd].out + socks[fd].inp[old(socks)[fd].taken..socks[fd].taken]
    {
      if ev != Some(true) {
        return true;
      }
      ghost var s0 := socks[fd];
      var got := Recv(fd, received);
      if got < n {
        registered := registered - {fd};
        return false;
      }
      var msg := buf[..n];
      assert msg == s0.inp[s0.taken..s0.taken + n];
      ReplyOk(n, s0, socks[fd], msg, sent);
      socks := socks[fd := Sent(socks[fd], msg, sent)];
      if Count(Min(sent.moved, n), sent) < n {
        registered := registered - {fd};
      }
      return false;
    }

    /** The receive into the shared buffer. */
    method Recv(fd: int, o: Outcome) returns (got: int)
      requires Valid() && fd in registered
      modifies this`socks, buf
      ensures buf.Length == BUF_SIZE && socks == old(socks)[fd := Received(old(socks)[fd], n, o)]
      ensures var k := socks[fd].taken - old(socks)[fd].taken;
              0 <= k <= n && buf[..k] == socks[fd].inp[old(socks)[fd].taken..socks[fd].taken] && got == Count(k, o)
      ensures SockOk(n, socks[fd], false)
    {
      var s := socks[fd];
      var s' := Received(s, n, o);
      var k := s'.taken - s.taken;
      var data := s.inp[s.taken..s'.taken];
      forall j | 0 <= j < k { buf[j] := data[j]; }
      if s.greeted {
        PrefixLawful(n, s.inp, s'.taken, s.out, s.taken - 2, 0);
        LawfulAppend(n, s.trace, Obs(s.inp[..s'.taken], s.out));
      }
      socks := socks[fd := s'];
      got := Count(k, o);
    }

    /** `epoll_wait`: of what the kernel would like to report, registered descriptors, each at most once. */
    method Wait(wish: seq<Event>) returns (events: seq<Event>)
      ensures events == Reported(registered, wish)
    {
      events := [];
      for k := 0 to |wish|
        invariant events == Reported(registered, wish[..k])
      {
        var e := wish[k];
        assert wish[..k + 1][..k] == wish[..k];
        if e.ListenReady? ||
           (e.fd in registered && forall i :: 0 <= i < |events| && events[i].ConnReady? ==> events[i].fd != e.fd) {
          events := events + [e];
        }
      }
      assert wish[..|wish|] == wish;
    }

    /** The body of the for-loop. */
    method HandleEvent(e: Event) returns (aborts: bool)
      requires Valid() && exit == Running && (e.ConnReady? ==> e.fd in registered)
      modifies this, buf
      ensures Valid() && Retired() && !aborts && State() == Step(n, old(State()), e)
      ensures registered >= old(registered) - if e.ConnReady? then {e.fd} else {}
      ensures exit != Running <==> e.ListenReady? && e.connFd < 0 && e.connFd !in old(socks)
    {
      match e {
        case ListenReady(connFd, inp, hello, greeting) =>
          if connFd in socks { return false; }
          if connFd < 0 {
            exit := AcceptError;
            return false;
          }
          AcceptConn(connFd, inp, hello, greeting);
        case ConnReady(fd, received, sent) =>
          aborts := ServeConn(fd, received, sent);
          return;
      }
      return false;
    }

    /** The for-loop over one batch of events. */
    method HandleBatch(events: seq<Event>) returns (aborts: bool)
      requires Valid() && exit == Running
      requires forall i :: 0 <= i < |events| && events[i].ConnReady? ==> events[i].fd in registered
      requires forall i, j :: 0 <= i < j < |events| && events[i].ConnReady? && events[j].ConnReady? ==>
                 events[i].fd != events[j].fd
      modifies this, buf
      ensures Valid() && Retired() && !aborts && State() == Batch(n, old(State()), events)
    {
      var i := 0;
      while i < |events|
        invariant i <= |events| && Valid() && Retired() && exit == Running
        invariant State() == Batch(n, old(State()), events[..i])
        invariant forall j :: i <= j < |events| && events[j].ConnReady? ==> events[j].fd in registered
      {
        assert events[..i + 1][..i] == events[..i];
        aborts := HandleEvent(events[i]);
        if aborts { return; }
        if exit != Running {
          BatchStops(n, old(State()), events, i + 1);
          return;
        }
        i := i + 1;
      }
      assert events[..|events|] == events;
      return false;
    }

    /** The endless loop, for as long as the kernel has events to report. */
    method MainLoop(wishes: seq<seq<Event>>) returns (aborts: bool)
      requires Valid() && exit == Running
      modifies this, buf
      ensures Valid() && Retired() && !aborts && State() == Rounds(n, old(State()), wishes)
      ensures forall fd :: fd in socks && socks[fd].greeted ==> Sequential.IsTrace(n, socks[fd].trace)
    {
      var k := 0;
      aborts := false;
      while k < |wishes| && exit == Running && !aborts
        invariant k <= |wishes| && Valid() && Retired() && !aborts
        invariant State() == Rounds(n, old(State()), wishes[..k])
      {
        assert wishes[..k + 1][..k] == wishes[..k];
        var events := Wait(wishes[k]);
        aborts := HandleBatch(events);
        k := k + 1;
      }
      if k < |wishes| {
        RoundsStop(n, old(State()), wishes, k);
      } else {
        assert wishes[..k] == wishes;
      }
      forall fd | fd in socks && socks[fd].greeted ensures Sequential.IsTrace(n, socks[fd].trace) {
        Sequential.LawfulIffTrace(n, socks[fd].trace);
      }
    }
  }
}
