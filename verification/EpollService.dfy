/**
  How long the epoll loop serves a connection, and what it gets: it stays registered exactly as long as every
  event reported for it moves a whole message in and a whole message out, whatever the events of the other
  connections are, and it has then been sent everything it was served.
*/
module EpollService {
  import opened Bytes
  import opened EchoSpec
  import opened Sockets
  import opened Epoll

  type Calls = (Outcome, Outcome)   // what the kernel makes of the receive and the send after an event

  /** The events of one connection. */
  function For(events: seq<Event>, fd: int): seq<Calls> {
    if events == [] then []
    else
      var front, e := For(events[..|events| - 1], fd), events[|events| - 1];
      if e.ConnReady? && e.fd == fd then front + [(e.received, e.sent)] else front
  }

  /** At most one of them in each round: the first one the kernel would like to report. */
  function Asked(wishes: seq<seq<Event>>, fd: int): seq<Calls> {
    if wishes == [] then []
    else
      var last := For(wishes[|wishes| - 1], fd);
      Asked(wishes[..|wishes| - 1], fd) + if last == [] then [] else [last[0]]
  }

  /** Every receive and every send moves a whole message. */
  ghost predicate AllWhole(calls: seq<Calls>, n: nat) {
    forall j :: 0 <= j < |calls| ==>
      calls[j].0.moved >= n && !calls[j].0.error && calls[j].1.moved >= n && !calls[j].1.error
  }

  lemma NextWhole(calls: seq<Calls>, c: Calls, n: nat)
    ensures AllWhole(calls + [c], n) <==>
            AllWhole(calls, n) && c.0.moved >= n && !c.0.error && c.1.moved >= n && !c.1.error
  {
    var all := calls + [c];
    assert all[|calls|] == c;
    if AllWhole(all, n) {
      forall j | 0 <= j < |calls|
        ensures calls[j].0.moved >= n && !calls[j].0.error && calls[j].1.moved >= n && !calls[j].1.error
      {
        assert all[j] == calls[j];
      }
    }
  }

  /** A connection that was served `calls`: still registered or not, and what it received and was sent. */
  ghost predicate ServedAll(n: nat, s: Sock, calls: seq<Calls>, s': Sock, registered: bool)
    requires s.taken <= |s.inp|
  {
    && s'.inp == s.inp && s'.greeted == s.greeted && s'.taken <= |s.inp|
    && (registered <==> AllWhole(calls, n) && s.taken + Times(|calls|, n) <= |s.inp|)
    && (registered ==>
          s'.taken == s.taken + Times(|calls|, n) && s'.out == s.out + s.inp[s.taken..s'.taken])
  }

  lemma NoneServed(n: nat, s: Sock)
    requires s.taken <= |s.inp|
    ensures ServedAll(n, s, [], s, true)
  {
  }

  lemma OneMoreServed(n: nat, s0: Sock, calls: seq<Calls>, s: Sock, received: Outcome, sent: Outcome)
    requires s0.taken <= |s0.inp| && ServedAll(n, s0, calls, s, true)
    ensures ServedAll(n, s0, calls + [(received, sent)], Served(n, s, received, sent), Stays(n, s, received, sent))
  {
    NextWhole(calls, (received, sent), n);
    if Stays(n, s, received, sent) {
      var msg := s.inp[s.taken..s.taken + n];
      assert msg[..n] == msg;
      SliceJoin(s.inp, s0.taken, s.taken, s.taken + n);
      ConcatAssociates(s0.out, s.inp[s0.taken..s.taken], msg);
    }
  }

  lemma NotServedAgain(n: nat, s0: Sock, calls: seq<Calls>, s: Sock, c: Calls)
    requires s0.taken <= |s0.inp| && ServedAll(n, s0, calls, s, false)
    ensures ServedAll(n, s0, calls + [c], s, false)
  {
    NextWhole(calls, c, n);
  }

  // ---------- one batch ----------

  lemma StepServes(n: nat, s0: Sock, calls: seq<Calls>, r: Loop, e: Event, fd: int)
    requires MsgSize(n) && Sane(r) && s0.taken <= |s0.inp| && fd in r.socks && r.exit == Running
    requires ServedAll(n, s0, calls, r.socks[fd], fd in r.registered)
    ensures var r' := Step(n, r, e);
            && fd in r'.socks
            && ServedAll(n, s0, if e.ConnReady? && e.fd == fd then calls + [(e.received, e.sent)] else calls,
                         r'.socks[fd], fd in r'.registered)
  {
    if e.ConnReady? && e.fd == fd {
      if fd in r.registered {
        OneMoreServed(n, s0, calls, r.socks[fd], e.received, e.sent);
      } else {
        NotServedAgain(n, s0, calls, r.socks[fd], (e.received, e.sent));
      }
    }
  }

  /** What any events do to one connection. */
  lemma {:induction false} BatchGoesOn(n: nat, s0: Sock, calls: seq<Calls>, r: Loop, events: seq<Event>, fd: int)
    requires MsgSize(n) && Sane(r) && s0.taken <= |s0.inp| && fd in r.socks && Batch(n, r, events).exit == Running
    requires ServedAll(n, s0, calls, r.socks[fd], fd in r.registered)
    ensures var r' := Batch(n, r, events);
            && fd in r'.socks
            && ServedAll(n, s0, calls + For(events, fd), r'.socks[fd], fd in r'.registered)
    decreases events
  {
    if events == [] {
      assert calls + [] == calls;
    } else {
      var front, e := events[..|events| - 1], events[|events| - 1];
      BatchGoesOn(n, s0, calls, r, front, fd);
      StepServes(n, s0, calls + For(front, fd), Batch(n, r, front), e, fd);
      if e.ConnReady? && e.fd == fd {
        ConcatAssociates(calls, For(front, fd), [(e.received, e.sent)]);
      }
    }
  }

  // ---------- rounds ----------

  /** Of the events the kernel would like to report for a registered connection, the first one is reported. */
  lemma {:induction false} ReportedFor(registered: set<int>, wish: seq<Event>, fd: int)
    ensures var all := For(wish, fd);
            For(Reported(registered, wish), fd) == if fd !in registered || all == [] then [] else [all[0]]
    decreases wish
  {
    if wish != [] {
      var e, front := wish[|wish| - 1], Reported(registered, wish[..|wish| - 1]);
      ReportedFor(registered, wish[..|wish| - 1], fd);
      assert (front + [e])[..|front|] == front;
      ForMentions(front, fd);
    }
  }

  lemma {:induction false} ForMentions(events: seq<Event>, fd: int)
    ensures For(events, fd) != [] <==> exists i :: 0 <= i < |events| && events[i].ConnReady? && events[i].fd == fd
    decreases events
  {
    if events != [] {
      var front, e := events[..|events| - 1], events[|events| - 1];
      ForMentions(front, fd);
      if e.ConnReady? && e.fd == fd {
        assert events[|events| - 1] == e;
      } else if For(front, fd) != [] {
        var i :| 0 <= i < |front| && front[i].ConnReady? && front[i].fd == fd;
        assert events[i] == front[i];
      } else {
        forall i | 0 <= i < |events| ensures !(events[i].ConnReady? && events[i].fd == fd) {
          if i < |front| { assert events[i] == front[i]; }
        }
      }
    }
  }

  /** Whatever is reported of the other connections: a registered connection stays registered exactly when
      all its calls move whole messages and its client has sent that many, and then it was sent them all. */
  lemma {:induction false} RoundsServe(n: nat, r: Loop, wishes: seq<seq<Event>>, fd: int)
    requires MsgSize(n) && Sane(r) && fd in r.registered && Rounds(n, r, wishes).exit == Running
    ensures var r' := Rounds(n, r, wishes);
            && fd in r'.socks
            && ServedAll(n, r.socks[fd], Asked(wishes, fd), r'.socks[fd], fd in r'.registered)
    decreases wishes
  {
    if wishes == [] {
      NoneServed(n, r.socks[fd]);
    } else {
      var front, wish := wishes[..|wishes| - 1], wishes[|wishes| - 1];
      RoundsServe(n, r, front, fd);
      RoundServes(n, r.socks[fd], Asked(front, fd), Rounds(n, r, front), wish, fd);
    }
  }

  lemma RoundServes(n: nat, s0: Sock, calls: seq<Calls>, r: Loop, wish: seq<Event>, fd: int)
    requires MsgSize(n) && Sane(r) && s0.taken <= |s0.inp| && fd in r.socks
    requires Batch(n, r, Reported(r.registered, wish)).exit == Running
    requires ServedAll(n, s0, calls, r.socks[fd], fd in r.registered)
    ensures var r' := Batch(n, r, Reported(r.registered, wish));
            var all := For(wish, fd);
            && fd in r'.socks
            && ServedAll(n, s0, calls + if all == [] then [] else [all[0]], r'.socks[fd], fd in r'.registered)
  {
    var all := For(wish, fd);
    BatchGoesOn(n, s0, calls, r, Reported(r.registered, wish), fd);
    ReportedFor(r.registered, wish, fd);
    assert calls + [] == calls;
    if fd !in r.registered {
      StillGone(n, r, Reported(r.registered, wish), fd);
      if all != [] { NotServedAgain(n, s0, calls, Batch(n, r, Reported(r.registered, wish)).socks[fd], all[0]); }
    }
  }

  lemma {:induction false} StillGone(n: nat, r: Loop, events: seq<Event>, fd: int)
    requires MsgSize(n) && Sane(r) && fd in r.socks && fd !in r.registered
    ensures fd in Batch(n, r, events).socks && fd !in Batch(n, r, events).registered
    decreases events
  {
    if events != [] { StillGone(n, r, events[..|events| - 1], fd); }
  }

  lemma Greeted(n: nat, inp: seq<byte>, hello: Outcome, greeting: Outcome)
    requires MsgSize(n) && Good(hello, 4) && Good(greeting, 2) && |inp| >= 2
    ensures var s := Accepted(n, inp, hello, greeting);
            s.greeted && s.taken == 2 && s.out == Header(n) && s.inp == inp
  {
    assert Header(n)[..4] == Header(n);
  }

  /** A connection from its handshake on: if that was complete and the connection stays registered, it has been
      sent the header and an echo of one message for each of its events; and it stays registered exactly when
      each of them moves a whole message in and out and the client sends that many. */
  lemma GreetedAndServed(n: nat, r: Loop, fd: int, inp: seq<byte>, hello: Outcome, greeting: Outcome,
                         wishes: seq<seq<Event>>)
    requires MsgSize(n) && Sane(r) && r.exit == Running && fd >= 0 && fd !in r.socks
    requires hello.moved >= 4 && !hello.error && greeting.moved >= 2 && !greeting.error && |inp| >= 2
    requires Rounds(n, Step(n, r, ListenReady(fd, inp, hello, greeting)), wishes).exit == Running
    ensures var r' := Rounds(n, Step(n, r, ListenReady(fd, inp, hello, greeting)), wishes);
            var k := |Asked(wishes, fd)|;
            && fd in r'.socks && r'.socks[fd].greeted
            && (fd in r'.registered <==> AllWhole(Asked(wishes, fd), n) && 2 + k * n <= |inp|)
            && (fd in r'.registered ==>
                  r'.socks[fd].taken == 2 + k * n && r'.socks[fd].out == Header(n) + inp[2..2 + k * n])
  {
    Greeted(n, inp, hello, greeting);
    RoundsServe(n, Step(n, r, ListenReady(fd, inp, hello, greeting)), wishes, fd);
    TimesIs(|Asked(wishes, fd)|, n);
  }
}
