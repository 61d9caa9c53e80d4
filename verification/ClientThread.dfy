/** client.c: `one_operation` and the protocol part of the client thread, connected to a lawful server. */
module ClientThread {
  import opened Wrappers
  import opened Bytes
  import opened EchoSpec
  import opened Generator
  import opened Messages
  import opened Sockets

  /** A connection to a server that never gets ahead of simple.c; the kernel decides how much of what the
      server may send is there when the client receives. */
  class Link {
    const n: nat               // the server's message size
    var sent: seq<byte>
    var got: seq<byte>

    ghost predicate Valid()
      reads this
    {
      MsgSize(n) && got <= Allowed(n, sent)
    }

    constructor (msgSize: nat)
      requires MsgSize(msgSize)
      ensures Valid() && n == msgSize && sent == [] && got == []
    {
      n, sent, got := msgSize, [], [];
    }

    /** `send(conn_fd, data, len, 0)` */
    method Send(data: seq<byte>, o: Outcome) returns (r: int)
      requires Valid()
      modifies this`sent
      ensures Valid() && (r == |data| ==> sent == old(sent) + data)
      ensures var k := Min(o.moved, |data|);
              sent == old(sent) + data[..k] && r == Count(k, o)
    {
      var k := Min(o.moved, |data|);
      EchoableMonotone(n, sent, sent + data[..k]);
      sent := sent + data[..k];
      r := Count(k, o);
    }

    /** `recv(conn_fd, ..., len, MSG_WAITALL)` */
    method Recv(len: nat, o: Outcome) returns (data: seq<byte>, r: int)
      requires Valid()
      modifies this`got
      ensures Valid() && got == old(got) + data && r == Count(|data|, o)
      ensures |data| == Min(Min(o.moved, len), |Allowed(n, sent)| - |old(got)|)
    {
      var there := Allowed(n, sent)[|got|..];
      data := there[..Min(Min(o.moved, len), |there|)];
      Taken(Allowed(n, sent), got, |data|);
      got := got + data;
      r := Count(|data|, o);
    }
  }

  lemma Taken(all: seq<byte>, got: seq<byte>, k: nat)
    requires got <= all && k <= |all| - |got|
    ensures got + all[|got|..][..k] <= all
  {
    assert got + all[|got|..][..k] == all[..|got| + k];
  }

  /** Between operations: `j` messages went out after `hi`, and all of them came back. */
  ghost predicate Level(n: nat, hi: seq<byte>, sent: seq<byte>, got: seq<byte>, j: nat)
    requires MsgSize(n) && n <= BUF_WORDS
  {
    && hi <= HI && sent == hi + Stream(n, j) && got == Header(n) + Stream(n, j)
    && (j > 0 ==> hi == HI)
  }

  /** The elements that no message writes are still zero. */
  ghost predicate Untouched(msgSize: nat, ws: seq<nat>) {
    forall i :: 0 <= i < |ws| && !(i % 8 == 0 && i < msgSize) ==> ws[i] == 0
  }

  /** If a whole message comes back at all, then it is the one just sent. */
  lemma EchoReturns(n: nat, hi: seq<byte>, sent: seq<byte>, got: seq<byte>, data: seq<byte>, j: nat)
    requires MsgSize(n) && n <= BUF_WORDS && Level(n, hi, sent, got, j) && |data| == n
    requires got + data <= Allowed(n, sent + Message(n, j))
    ensures data == Message(n, j) && hi == HI
  {
    var m, ms := Message(n, j), Stream(n, j);
    Greeted(n, hi, sent, j);
    assert |sent| == 2 + |ms| && |got| == 4 + |ms|;
    EchoFrom(n, sent, m, got, data);
  }

  lemma EchoFrom(n: nat, sent: seq<byte>, m: seq<byte>, got: seq<byte>, data: seq<byte>)
    requires MsgSize(n) && |sent| >= 2 && |got| == 2 + |sent| && |m| == |data| == n
    requires got + data <= Allowed(n, sent + m)
    ensures data == m
  {
    NextBytes(got, data, Allowed(n, sent + m));
    LastBytes(sent, m);
    EchoOf(n, sent + m, |sent| - 2);
  }

  lemma LastBytes(sent: seq<byte>, m: seq<byte>)
    ensures (sent + m)[|sent|..] == m
  {
  }

  lemma NextBytes(got: seq<byte>, data: seq<byte>, all: seq<byte>)
    requires got + data <= all
    ensures data == all[|got|..|got| + |data|]
  {
    assert data == (got + data)[|got|..];
  }

  /** `rng_state` and the buffer before operation `j`. */
  ghost predicate MemoryBefore(msgSize: nat, j: nat, rng: nat, ws: seq<nat>) {
    rng == Rng(Drawn(msgSize, j)) && Untouched(msgSize, ws)
  }

  lemma MemoryStarts(msgSize: nat, ws: seq<nat>)
    requires forall i :: 0 <= i < |ws| ==> ws[i] == 0
    ensures MemoryBefore(msgSize, 0, 1, ws)
  {
    RngStarts(msgSize);
  }

  lemma {:induction false} StreamAligned(n: nat, j: nat)
    requires MsgSize(n) && n <= BUF_WORDS
    ensures Aligned(|Stream(n, j)|, n)
    decreases j
  {
    if j > 0 { StreamAligned(n, j - 1); }
  }

  /** After a complete greeting the server may echo the whole message. */
  lemma EchoIsThere(n: nat, hi: seq<byte>, sent: seq<byte>, got: seq<byte>, j: nat)
    requires MsgSize(n) && n <= BUF_WORDS && Level(n, hi, sent, got, j)
    ensures hi == HI ==> |Allowed(n, sent + Message(n, j))| == |got| + n
  {
    StreamAligned(n, j);
    if hi == HI {
      AllowedLength(n, sent + Message(n, j), |Stream(n, j)|);
    }
  }

  lemma Greeted(n: nat, hi: seq<byte>, sent: seq<byte>, j: nat)
    requires MsgSize(n) && n <= BUF_WORDS && hi <= HI && sent == hi + Stream(n, j) && (j > 0 ==> hi == HI)
    requires |Allowed(n, sent + Message(n, j))| >= 4 + n
    ensures hi == HI
  {
  }

  lemma EchoOf(n: nat, sent: seq<byte>, base: nat)
    requires MsgSize(n) && |sent| == 2 + base + n && 4 + base + n <= |Allowed(n, sent)|
    ensures Allowed(n, sent)[4 + base..4 + base + n] == sent[2 + base..]
  {
    var e := Echoable(n, sent);
    assert Allowed(n, sent)[4 + base..4 + base + n] == e[base..base + n];
    SliceOfSlice(sent, 2, 2 + |e|, base, base + n);
  }

  method Store(buf: array<nat>, data: seq<byte>)
    requires buf.Length == BUF_WORDS && |data| <= 8 * BUF_WORDS
    modifies buf
    ensures buf[..] == Stored(old(buf[..]), data)
  {
    var ws := Stored(buf[..], data);
    forall i | 0 <= i < BUF_WORDS { buf[i] := ws[i]; }
  }

  /** `one_operation`. When it completes, message `j` went out, the same bytes came back, and the buffer
      is as it was when the message was sent. */
  method OneOperation(link: Link, msgSize: nat, buf: array<nat>, rng: nat, o: Outcome, o': Outcome,
                      ghost hi: seq<byte>, ghost j: nat)
    returns (ok: bool, rng': nat)
    requires link.Valid() && msgSize == link.n <= BUF_WORDS && buf.Length == BUF_WORDS
    requires MemoryBefore(msgSize, j, rng, buf[..]) && Level(link.n, hi, link.sent, link.got, j)
    modifies link, buf
    ensures link.Valid() && rng' == Rng(Drawn(msgSize, j + 1))
    ensures old(link.sent) <= link.sent && old(link.got) <= link.got
    ensures ok <==> hi == HI && Good(o, msgSize) && Good(o', msgSize)
    ensures ok ==> link.sent == old(link.sent) + Message(msgSize, j) && link.got == old(link.got) + Message(msgSize, j)
    ensures ok ==> BytesOf(buf[..])[..msgSize] == Message(msgSize, j) && buf[..] == Buffer(msgSize, j)
    ensures ok ==> MemoryBefore(msgSize, j + 1, rng', buf[..]) && Level(link.n, hi, link.sent, link.got, j + 1)
  {
    rng' := NextMessage(buf, rng, msgSize, j);
    BufferUntouched(msgSize, j);
    ok := Exchange(link, msgSize, buf, o, o', hi, j);
  }

  /** The `send` and the `recv` of `one_operation`. */
  method Exchange(link: Link, msgSize: nat, buf: array<nat>, o: Outcome, o': Outcome, ghost hi: seq<byte>, ghost j: nat)
    returns (ok: bool)
    requires link.Valid() && msgSize == link.n <= BUF_WORDS && buf.Length == BUF_WORDS
    requires buf[..] == Buffer(msgSize, j) && Level(link.n, hi, link.sent, link.got, j)
    modifies link, buf
    ensures link.Valid() && old(link.sent) <= link.sent && old(link.got) <= link.got
    ensures ok <==> hi == HI && Good(o, msgSize) && Good(o', msgSize)
    ensures ok ==> link.sent == old(link.sent) + Message(msgSize, j) && link.got == old(link.got) + Message(msgSize, j)
    ensures ok ==> buf[..] == Buffer(msgSize, j) && Level(link.n, hi, link.sent, link.got, j + 1)
  {
    var msg := BytesOf(buf[..])[..msgSize];
    var r := link.Send(msg, o);
    if r < msgSize {
      return false;
    }
    EchoIsThere(msgSize, hi, old(link.sent), old(link.got), j);
    var data;
    data, r := link.Recv(msgSize, o');
    Store(buf, data);
    if r < msgSize {
      return false;
    }
    EchoReturns(msgSize, hi, old(link.sent), old(link.got), data, j);
    BufferStays(msgSize, j);
    LevelNext(msgSize, hi, old(link.sent), old(link.got), j);
    return true;
  }

  lemma BufferStays(n: nat, j: nat)
    requires n <= BUF_WORDS
    ensures Stored(Buffer(n, j), Message(n, j)) == Buffer(n, j)
  {
    StoredBack(Buffer(n, j), n);
  }

  method NextMessage(buf: array<nat>, rng: nat, msgSize: nat, ghost j: nat) returns (rng': nat)
    requires buf.Length == BUF_WORDS && msgSize <= BUF_WORDS
    requires rng == Rng(Drawn(msgSize, j)) && Untouched(msgSize, buf[..])
    modifies buf
    ensures rng' == Rng(Drawn(msgSize, j + 1)) && buf[..] == Buffer(msgSize, j)
  {
    ghost var before := buf[..];
    rng' := FillMessage(buf, rng, msgSize);
    FilledIsNextBuffer(msgSize, j, before, buf[..]);
  }

  lemma LevelNext(n: nat, hi: seq<byte>, sent: seq<byte>, got: seq<byte>, j: nat)
    requires MsgSize(n) && n <= BUF_WORDS && Level(n, hi, sent, got, j) && hi == HI
    ensures Level(n, hi, sent + Message(n, j), got + Message(n, j), j + 1)
  {
    var ms, m := Stream(n, j), Message(n, j);
    ConcatAssociates(hi, ms, m);
    ConcatAssociates(Header(n), ms, m);
  }

  lemma BufferUntouched(n: nat, j: nat)
    ensures Untouched(n, Buffer(n, j))
  {
  }

  /** The client thread from its greeting on, for as many operations as the phases of the benchmark ask
      for. None stands for `exit(-1)`; the result is the message size it was told. */
  method Client(link: Link, hello: Outcome, size: Outcome, ops: seq<(Outcome, Outcome)>) returns (told: Option<nat>)
    requires link.Valid() && link.n <= BUF_WORDS && link.sent == [] && link.got == []
    modifies link
    ensures link.Valid()
    ensures told == None || told == Some(link.n)
    ensures told.Some? <==>
              && size.moved >= 4 && !size.error && (ops != [] ==> hello.moved >= 2)
              && forall j :: 0 <= j < |ops| ==>
                   ops[j].0.moved >= link.n && !ops[j].0.error && ops[j].1.moved >= link.n && !ops[j].1.error
    ensures told.Some? && ops != [] ==>
              && link.sent == ['H' as int, 'i' as int] + Stream(link.n, |ops|)
              && link.got == [0, 0, link.n / 256, link.n % 256] + Stream(link.n, |ops|)
  {
    var buf := new nat[BUF_WORDS](_ => 0);
    AllGoodMeans(ops, link.n);
    HeaderBytes(link.n);
    told := Handshake(link, hello, size);
    if told == None {
      return None;
    }
    MemoryStarts(told.value, buf[..]);
    var ok := Operate(link, told.value, buf, ops, link.sent);
    if !ok {
      return None;
    }
  }

  method Handshake(link: Link, hello: Outcome, size: Outcome) returns (told: Option<nat>)
    requires link.Valid() && link.n <= BUF_WORDS && link.sent == [] && link.got == []
    modifies link
    ensures link.Valid() && told == if Good(size, 4) then Some(link.n) else None
    ensures told.Some? ==> Level(link.n, link.sent, link.sent, link.got, 0)
    ensures link.sent == HI <==> hello.moved >= 2
  {
    var r := link.Send(HI, hello);   // the result is not looked at
    var header;
    header, r := link.Recv(4, size);
    if r != 4 {
      return None;
    }
    HeaderTold(link.n, link.sent, header);
    told := Some(Ntohl(header));
  }

  method Operate(link: Link, msgSize: nat, buf: array<nat>, ops: seq<(Outcome, Outcome)>, ghost hi: seq<byte>)
    returns (ok: bool)
    requires link.Valid() && msgSize == link.n <= BUF_WORDS && buf.Length == BUF_WORDS
    requires Level(link.n, hi, link.sent, link.got, 0) && MemoryBefore(msgSize, 0, 1, buf[..])
    modifies link, buf
    ensures link.Valid()
    ensures ok <==>
              (ops != [] ==> hi == HI) && AllGood(ops, msgSize, |ops|)
    ensures ok ==> Level(link.n, hi, link.sent, link.got, |ops|)
  {
    var rng := 1;
    var j := 0;
    while j < |ops|
      invariant j <= |ops| && link.Valid()
      invariant MemoryBefore(msgSize, j, rng, buf[..])
      invariant Level(link.n, hi, link.sent, link.got, j)
      invariant AllGood(ops, msgSize, j) && (j > 0 ==> hi == HI)
    {
      NextGood(ops, msgSize, j);
      ok, rng := OneOperation(link, msgSize, buf, rng, ops[j].0, ops[j].1, hi, j);
      if !ok {
        return;
      }
      j := j + 1;
    }
    ok := true;
  }

  lemma HeaderTold(n: nat, sent: seq<byte>, header: seq<byte>)
    requires MsgSize(n) && |header| == 4 && header <= Allowed(n, sent)
    ensures header == Header(n) && Ntohl(header) == n
  {
    NtohlHtonl(n);
    assert header == Allowed(n, sent)[..4];
  }
}
