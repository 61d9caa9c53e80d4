/** simple.c: `handle_conn` as the program that it is. */
module SimpleServer {
  import opened Bytes
  import opened EchoSpec
  import opened Sockets
  import Sequential

  /** Serves a connection while `rounds` lasts: what the kernel makes of the header's send, of the
      greeting's receive, and of the receive and the send of every turn of the echo loop. The result says
      whether the thread is still serving. */
  method HandleConn(s: Socket, n: nat, hello: Outcome, greeting: Outcome, rounds: seq<(Outcome, Outcome)>)
    returns (serving: bool)
    requires MsgSize(n) && s.Valid() && s.taken == 0 && s.out == [] && Lawful(n, s.trace)
    modifies s
    ensures s.Valid() && old(s.trace) <= s.trace && Sequential.IsTrace(n, s.trace)
    ensures serving <==>
              && hello.moved >= 4 && !hello.error && greeting.moved >= 2 && !greeting.error
              && |s.inp| >= 2 + |rounds| * n
              && forall j :: 0 <= j < |rounds| ==>
                   rounds[j].0.moved >= n && !rounds[j].0.error && rounds[j].1.moved >= n && !rounds[j].1.error
    ensures serving ==> s.taken == 2 + |rounds| * n <= |s.inp| && s.out == Header(n) + s.inp[2..s.taken]
  {
    var buf := new byte[BUF_SIZE];
    serving := Handshake(s, n, buf, hello, greeting);
    TimesIs(|rounds|, n);
    if serving {
      serving := EchoLoop(s, n, buf, rounds);
    }
    Sequential.LawfulIffTrace(n, s.trace);
    AllGoodMeans(rounds, n);
  }

  /** Announce the size and take the greeting. */
  method Handshake(s: Socket, n: nat, buf: array<byte>, hello: Outcome, greeting: Outcome) returns (ok: bool)
    requires MsgSize(n) && s.Valid() && s.taken == 0 && s.out == [] && Lawful(n, s.trace) && buf.Length == BUF_SIZE
    modifies s, buf
    ensures s.Valid() && old(s.trace) <= s.trace && Lawful(n, s.trace)
    ensures ok <==> Good(hello, 4) && Good(greeting, 2) && |s.inp| >= 2
    ensures ok ==> Echoed(n, s) && s.taken == 2
  {
    var r := s.Send(Header(n), hello);
    HeaderStep(n, s.inp, s.taken, s.out, old(s.trace));
    if r <= 0 || r < 4 { return false; }

    ghost var tr := s.trace;
    r := s.Recv(buf, 2, greeting);
    HeaderStep(n, s.inp, s.taken, s.out, tr);
    ok := r >= 2;
  }

  method EchoLoop(s: Socket, n: nat, buf: array<byte>, rounds: seq<(Outcome, Outcome)>) returns (serving: bool)
    requires MsgSize(n) && Echoed(n, s) && Lawful(n, s.trace) && buf.Length == BUF_SIZE
    modifies s, buf
    ensures s.Valid() && old(s.trace) <= s.trace && Lawful(n, s.trace)
    ensures serving <==>
              |s.inp| >= old(s.taken) + Times(|rounds|, n) && AllGood(rounds, n, |rounds|)
    ensures serving ==> Echoed(n, s) && s.taken == old(s.taken) + Times(|rounds|, n)
  {
    serving := true;
    var k := 0;
    ghost var base := 0;
    while k < |rounds|
      invariant k <= |rounds| && base == Times(k, n) && Lawful(n, s.trace) && old(s.trace) <= s.trace
      invariant Echoed(n, s) && s.taken == old(s.taken) + base
      invariant AllGood(rounds, n, k)
    {
      NextGood(rounds, n, k);
      TimesMonotone(k + 1, |rounds|, n);
      serving := EchoOne(s, n, buf, rounds[k].0, rounds[k].1);
      if !serving { return; }
      k, base := k + 1, base + n;
    }
  }

  /** One turn of the echo loop. */
  method EchoOne(s: Socket, n: nat, buf: array<byte>, o: Outcome, o': Outcome) returns (ok: bool)
    requires MsgSize(n) && Echoed(n, s) && Lawful(n, s.trace) && buf.Length == BUF_SIZE
    modifies s, buf
    ensures s.Valid() && old(s.trace) <= s.trace && Lawful(n, s.trace)
    ensures ok <==> Good(o, n) && Good(o', n) && |s.inp| >= old(s.taken) + n
    ensures ok ==> Echoed(n, s) && s.taken == old(s.taken) + n
  {
    ghost var base := s.taken - 2;
    var r := s.Recv(buf, n, o);
    PrefixLawful(n, s.inp, s.taken, s.out, base, 0);
    LawfulAppend(n, old(s.trace), Obs(s.inp[..s.taken], s.out));
    if r < n { return false; }

    var msg := buf[..n];
    assert msg == s.inp[2 + base..2 + base + n];
    ok := Reply(s, n, msg, base, o');
  }

  method Reply(s: Socket, n: nat, msg: seq<byte>, ghost base: nat, o: Outcome) returns (ok: bool)
    requires MsgSize(n) && s.Valid() && Lawful(n, s.trace) && Aligned(base, n) && s.taken == 2 + base + n
    requires s.out == Header(n) + s.inp[2..2 + base] && msg == s.inp[2 + base..2 + base + n]
    modifies s
    ensures s.Valid() && old(s.trace) <= s.trace && Lawful(n, s.trace) && s.taken == old(s.taken)
    ensures ok <==> Good(o, n)
    ensures ok ==> Echoed(n, s)
  {
    ghost var tr, out := s.trace, s.out;
    var r := s.Send(msg, o);
    EchoPart(n, s.inp, s.taken, out, msg, base, Min(o.moved, n));
    LawfulAppend(n, tr, Obs(s.inp[..s.taken], s.out));
    ok := r >= n;
  }
}
