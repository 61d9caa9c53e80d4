/**
  uring2.c: the pipelined server. While one message is sent back from `send_buf`, the next one is
  received into `recv_buf`; the two requests share a ring of two entries and are not linked, so the
  kernel interleaves them as it likes and completes them in either order.
*/
module Pipeline {
  import opened Bytes
  import opened EchoSpec
  import opened Sockets
  import Sequential

  /** One thing the kernel does while the pair is in progress. */
  datatype Move = SendMoves(k: nat) | RecvMoves(k: nat)

  /** The kernel's part of one round: what it moves, in which order, and how both requests end. */
  datatype Round = Round(moves: seq<Move>, sendError: bool, recvError: bool, sendFirst: bool)

  datatype Status = Serving | Returned | SqFull

  /** How much of the message goes out during a round. */
  function SentBy(n: nat, moves: seq<Move>): (d: nat)
    ensures d <= n
  {
    if moves == [] then 0
    else
      var d := SentBy(n, moves[..|moves| - 1]);
      match moves[|moves| - 1]
      case SendMoves(k) => Min(d + k, n)
      case RecvMoves(_) => d
  }

  /** How much of the next message comes in, of `there` bytes that the client has sent. */
  function GotBy(n: nat, there: nat, moves: seq<Move>): (e: nat)
    ensures e <= n && e <= there
  {
    if moves == [] then 0
    else
      var e := GotBy(n, there, moves[..|moves| - 1]);
      match moves[|moves| - 1]
      case SendMoves(_) => e
      case RecvMoves(k) => Min(Min(e + k, n), there)
  }

  /** Both requests of a round are carried out in full, if the next message is there. */
  predicate GoodRound(n: nat, r: Round) {
    SentBy(n, r.moves) == n && GotBy(n, n, r.moves) == n && !r.sendError && !r.recvError
  }

  ghost predicate GoodRounds(n: nat, rounds: seq<Round>, k: nat)
    requires k <= |rounds|
  {
    forall j :: 0 <= j < k ==> GoodRound(n, rounds[j])
  }

  lemma NextRound(n: nat, rounds: seq<Round>, k: nat)
    requires k < |rounds| && GoodRounds(n, rounds, k)
    ensures GoodRounds(n, rounds, k + 1) <==> GoodRound(n, rounds[k])
    ensures !GoodRound(n, rounds[k]) ==> !GoodRounds(n, rounds, |rounds|)
  {
  }

  lemma {:induction false} GotIfThere(n: nat, there: nat, moves: seq<Move>)
    ensures GotBy(n, there, moves) == Min(there, GotBy(n, n, moves))
    decreases moves
  {
    if moves != [] {
      GotIfThere(n, there, moves[..|moves| - 1]);
    }
  }

  class Ring {
    const entries: nat
    var queued: nat

    constructor (n: nat)
      ensures entries == n && queued == 0
    {
      entries, queued := n, 0;
    }

    /** `io_uring_get_sqe`: false stands for NULL. */
    method GetSqe() returns (ok: bool)
      requires queued <= entries
      modifies this
      ensures ok == (old(queued) < entries) && queued == old(queued) + (if ok then 1 else 0)
    {
      ok := queued < entries;
      if ok { queued := queued + 1; }
    }

    /** `io_uring_submit` hands every queued entry to the kernel. */
    method Submit()
      modifies this
      ensures queued == 0
    {
      queued := 0;
    }
  }

  /** While the pair is in progress: `d` bytes of the message have gone out, `e` of the next have come in. */
  ghost predicate InPair(n: nat, s: Socket, sendBuf: array<byte>, recvBuf: array<byte>, base: nat, d: nat, e: nat)
    requires MsgSize(n)
    reads s, sendBuf, recvBuf
  {
    && s.Valid() && Lawful(n, s.trace) && Aligned(base, n) && d <= n && e <= n && s.taken == 2 + base + n + e
    && sendBuf != recvBuf && sendBuf.Length == recvBuf.Length == BUF_SIZE
    && s.out == Header(n) + s.inp[2..2 + base + d]
    && sendBuf[..n] == s.inp[2 + base..2 + base + n] && recvBuf[..e] == s.inp[2 + base + n..s.taken]
  }

  lemma ChunkOf(n: nat, inp: seq<byte>, taken: nat, out: seq<byte>, buf: seq<byte>, base: nat, d: nat, k: nat)
    requires MsgSize(n) && Aligned(base, n) && d + k <= n <= |buf| && 2 + base + n <= taken <= |inp|
    requires out == Header(n) + inp[2..2 + base + d] && buf[..n] == inp[2 + base..2 + base + n]
    ensures out + buf[d..d + k] == Header(n) + inp[2..2 + base + d + k]
    ensures out + buf[d..d + k] <= Allowed(n, inp[..taken])
  {
    SliceOfSlice(buf, 0, n, d, d + k);
    ChunkPart(n, inp, taken, out, buf[..n], base, d, k);
  }

  method SendSome(s: Socket, n: nat, sendBuf: array<byte>, recvBuf: array<byte>, want: nat, ghost base: nat, d: nat,
                  ghost e: nat) returns (d': nat)
    requires MsgSize(n) && InPair(n, s, sendBuf, recvBuf, base, d, e)
    modifies s
    ensures InPair(n, s, sendBuf, recvBuf, base, d', e) && old(s.trace) <= s.trace && d' == Min(d + want, n)
  {
    var k := Min(want, n - d);
    ghost var whole := sendBuf[..];
    ChunkOf(n, s.inp, s.taken, s.out, whole, base, d, k);
    assert sendBuf[d..d + k] == whole[d..d + k];
    s.Push(sendBuf[d..d + k]);
    d' := d + k;
    LawfulAppend(n, old(s.trace), Obs(s.inp[..s.taken], s.out));
  }

  /** `k` more bytes arrive in a buffer that already holds `e`. */
  method Receive(s: Socket, buf: array<byte>, e: nat, k: nat) returns (e': nat)
    requires s.Valid() && e + k <= buf.Length && e <= s.taken && s.taken + k <= |s.inp|
    requires buf[..e] == s.inp[s.taken - e..s.taken]
    modifies s, buf
    ensures s.Valid() && s.out == old(s.out) && s.taken == old(s.taken) + k && e' == e + k
    ensures buf[..e'] == s.inp[s.taken - e'..s.taken]
    ensures s.trace == old(s.trace) + [Obs(s.inp[..s.taken], s.out)]
  {
    var data := s.Pull(k);
    forall j | 0 <= j < k { buf[e + j] := data[j]; }
    e' := e + k;
    SliceJoin(s.inp, old(s.taken) - e, old(s.taken), s.taken);
    SliceJoin(buf[..], 0, e, e');
    assert buf[..][0..e] == old(buf[..e]) && buf[..][e..e'] == data;
    assert buf[..e'] == buf[..][0..e'];
  }

  method RecvSome(s: Socket, n: nat, sendBuf: array<byte>, recvBuf: array<byte>, want: nat, ghost base: nat,
                  ghost d: nat, e: nat) returns (e': nat)
    requires MsgSize(n) && InPair(n, s, sendBuf, recvBuf, base, d, e)
    modifies s, recvBuf
    ensures InPair(n, s, sendBuf, recvBuf, base, d, e') && old(s.trace) <= s.trace
    ensures e' == Min(Min(e + want, n), |s.inp| - (2 + base + n))
  {
    var k := Min(Min(want, n - e), |s.inp| - s.taken);
    e' := Receive(s, recvBuf, e, k);
    PrefixLawful(n, s.inp, s.taken, s.out, base, d);
    LawfulAppend(n, old(s.trace), Obs(s.inp[..s.taken], s.out));
  }

  /** The kernel works on the pair, in any interleaving. */
  method RunPair(s: Socket, n: nat, sendBuf: array<byte>, recvBuf: array<byte>, moves: seq<Move>, ghost base: nat)
    returns (d: nat, e: nat)
    requires MsgSize(n) && InPair(n, s, sendBuf, recvBuf, base, 0, 0)
    modifies s, recvBuf
    ensures InPair(n, s, sendBuf, recvBuf, base, d, e) && old(s.trace) <= s.trace
    ensures d == SentBy(n, moves) && e == GotBy(n, |s.inp| - (2 + base + n), moves)
  {
    d, e := 0, 0;
    for i := 0 to |moves|
      invariant InPair(n, s, sendBuf, recvBuf, base, d, e) && old(s.trace) <= s.trace
      invariant d == SentBy(n, moves[..i]) && e == GotBy(n, |s.inp| - (2 + base + n), moves[..i])
    {
      assert moves[..i + 1][..i] == moves[..i];
      match moves[i] {
        case SendMoves(want) => d := SendSome(s, n, sendBuf, recvBuf, want, base, d, e);
        case RecvMoves(want) => e := RecvSome(s, n, sendBuf, recvBuf, want, base, d, e);
      }
    }
    assert moves[..|moves|] == moves;
  }

  /** One turn of the echo loop. Whichever request finishes first, a round that goes well sends exactly the
      message in `send_buf` and leaves the next one there; a failing one sends a prefix of it. */
  method OneRound(s: Socket, n: nat, ring: Ring, sendBuf: array<byte>, recvBuf: array<byte>, round: Round,
                  ghost base: nat) returns (st: Status)
    requires MsgSize(n) && InPair(n, s, sendBuf, recvBuf, base, 0, 0)
    requires ring.entries == 2 && ring.queued == 0
    modifies s, sendBuf, recvBuf, ring
    ensures s.Valid() && Lawful(n, s.trace) && old(s.trace) <= s.trace && st != SqFull && ring.queued == 0
    ensures st == Serving <==> GoodRound(n, round) && |s.inp| >= 2 + base + n + n
    ensures st == Serving ==> InPair(n, s, sendBuf, recvBuf, base + n, 0, 0)
    ensures s.out <= Header(n) + s.inp[2..2 + base + n]
  {
    var ok := ring.GetSqe();
    if !ok { return SqFull; }
    ok := ring.GetSqe();
    if !ok { return SqFull; }
    ring.Submit();

    var d, e := RunPair(s, n, sendBuf, recvBuf, round.moves, base);
    GotIfThere(n, |s.inp| - (2 + base + n), round.moves);
    PartIsPrefix(n, s.inp, s.out, base, d);
    var sent: int, received: int := if round.sendError then -1 else d, if round.recvError then -1 else e;
    var full := CheckCqes(if round.sendFirst then [sent, received] else [received, sent], n);
    if !full { return Returned; }
    Advance(s, n, sendBuf, recvBuf, base);
    st := Serving;
  }

  /** The received message is sent next. */
  method Advance(s: Socket, n: nat, sendBuf: array<byte>, recvBuf: array<byte>, ghost base: nat)
    requires MsgSize(n) && InPair(n, s, sendBuf, recvBuf, base, n, n)
    modifies sendBuf
    ensures InPair(n, s, sendBuf, recvBuf, base + n, 0, 0)
  {
    AlignedNext(base, n);
    ghost var message := recvBuf[..n];
    assert message == s.inp[2 + base + n..2 + (base + n) + n];
    assert s.inp[2..2 + (base + n) + 0] == s.inp[2..2 + base + n];
    Copy(sendBuf, recvBuf, n);
  }

  lemma PartIsPrefix(n: nat, inp: seq<byte>, out: seq<byte>, base: nat, d: nat)
    requires MsgSize(n) && d <= n && 2 + base + n <= |inp| && out == Header(n) + inp[2..2 + base + d]
    ensures out <= Header(n) + inp[2..2 + base + n]
  {
    SliceJoin(inp, 2, 2 + base + d, 2 + base + n);
    ConcatAssociates(Header(n), inp[2..2 + base + d], inp[2 + base + d..2 + base + n]);
  }

  /** The loop over the two completions. */
  method CheckCqes(cqes: seq<int>, n: nat) returns (full: bool)
    requires |cqes| == 2
    ensures full <==> cqes[0] >= n && cqes[1] >= n
  {
    var i := 0;
    while i < 2
      invariant 0 <= i <= 2 && forall j :: 0 <= j < i ==> cqes[j] >= n
    {
      if cqes[i] < n { return false; }
      i := i + 1;
    }
    full := true;
  }

  /** `memcpy(send_buf, recv_buf, n)` */
  method Copy(dst: array<byte>, src: array<byte>, n: nat)
    requires dst != src && n <= dst.Length && n <= src.Length
    modifies dst
    ensures dst[..n] == src[..n] && dst[n..] == old(dst[n..])
  {
    for j := 0 to n
      invariant dst[..j] == src[..j] && dst[n..] == old(dst[n..])
    {
      dst[j] := src[j];
    }
  }

  method HandleConn(s: Socket, n: nat, hello: Outcome, greeting: Outcome, first: Outcome, rounds: seq<Round>)
    returns (st: Status)
    requires MsgSize(n) && s.Valid() && s.taken == 0 && s.out == [] && Lawful(n, s.trace)
    modifies s
    ensures s.Valid() && old(s.trace) <= s.trace && Sequential.IsTrace(n, s.trace)
    ensures st != SqFull
    ensures st == Serving <==>
              && hello.moved >= 4 && !hello.error && greeting.moved >= 2 && !greeting.error
              && first.moved >= n && !first.error && |s.inp| >= 2 + n + |rounds| * n
              && GoodRounds(n, rounds, |rounds|)
    ensures st == Serving ==>
              && |s.out| == 4 + |rounds| * n && 2 + |rounds| * n + n == s.taken <= |s.inp|
              && s.out == Header(n) + s.inp[2..s.taken - n]
  {
    var sendBuf, recvBuf := new byte[BUF_SIZE], new byte[BUF_SIZE];
    var ok := Handshake(s, n, sendBuf, recvBuf, hello, greeting, first);
    Sequential.LawfulIffTrace(n, s.trace);
    TimesIs(|rounds|, n);
    if !ok { return Returned; }

    var ring := new Ring(2);
    st := EchoLoop(s, n, ring, sendBuf, recvBuf, rounds);
    Sequential.LawfulIffTrace(n, s.trace);
    if st == Serving { Emitted(n, s.inp, s.out, s.taken, |rounds| * n); }
  }

  lemma Emitted(n: nat, inp: seq<byte>, out: seq<byte>, taken: nat, base: nat)
    requires MsgSize(n) && taken == 2 + base + n <= |inp| && out == Header(n) + inp[2..2 + base]
    ensures |out| == 4 + base && out == Header(n) + inp[2..taken - n]
  {
  }

  method EchoLoop(s: Socket, n: nat, ring: Ring, sendBuf: array<byte>, recvBuf: array<byte>, rounds: seq<Round>)
    returns (st: Status)
    requires MsgSize(n) && InPair(n, s, sendBuf, recvBuf, 0, 0, 0) && ring.entries == 2 && ring.queued == 0
    modifies s, sendBuf, recvBuf, ring
    ensures s.Valid() && Lawful(n, s.trace) && old(s.trace) <= s.trace && st != SqFull
    ensures st == Serving <==>
              |s.inp| >= 2 + n + Times(|rounds|, n) && GoodRounds(n, rounds, |rounds|)
    ensures st == Serving ==> InPair(n, s, sendBuf, recvBuf, Times(|rounds|, n), 0, 0)
  {
    ghost var base: nat := 0;
    var k := 0;
    st := Serving;
    while k < |rounds|
      invariant k <= |rounds| && old(s.trace) <= s.trace && st == Serving
      invariant InPair(n, s, sendBuf, recvBuf, base, 0, 0) && base == Times(k, n)
      invariant GoodRounds(n, rounds, k)
      invariant ring.queued == 0
    {
      TimesMonotone(k + 1, |rounds|, n);
      NextRound(n, rounds, k);
      st := OneRound(s, n, ring, sendBuf, recvBuf, rounds[k], base);
      if st != Serving { return; }
      k, base := k + 1, base + n;
    }
  }

  /** Everything before the echo loop: announce the size, take the greeting and the first message. */
  method Handshake(s: Socket, n: nat, sendBuf: array<byte>, recvBuf: array<byte>, hello: Outcome, greeting: Outcome,
                   first: Outcome) returns (ok: bool)
    requires MsgSize(n) && s.Valid() && s.taken == 0 && s.out == [] && Lawful(n, s.trace)
    requires sendBuf != recvBuf && sendBuf.Length == recvBuf.Length == BUF_SIZE
    modifies s, sendBuf, recvBuf
    ensures s.Valid() && old(s.trace) <= s.trace && Lawful(n, s.trace)
    ensures ok <==> Good(hello, 4) && Good(greeting, 2) && Good(first, n) && |s.inp| >= 2 + n
    ensures ok ==> InPair(n, s, sendBuf, recvBuf, 0, 0, 0)
  {
    var r := s.Send(Header(n), hello);
    HeaderStep(n, s.inp, s.taken, s.out, old(s.trace));
    if r <= 0 || r < 4 { return false; }

    ghost var tr := s.trace;
    r := s.Recv(recvBuf, 2, greeting);
    HeaderStep(n, s.inp, s.taken, s.out, tr);
    if r <= 0 || r < 2 { return false; }

    tr := s.trace;
    r := s.Recv(sendBuf, n, first);
    HeaderStep(n, s.inp, s.taken, s.out, tr);
    ok := r >= n;
  }
}
