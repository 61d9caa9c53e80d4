/** A connected socket under an adversarial kernel, and simple.c's connection thread on top of it. */
module Sockets {
  import opened Bytes
  import opened EchoSpec

  /** What the kernel makes of one blocking call: how many bytes it is willing to move, and whether it
      reports an error instead of a count. */
  datatype Outcome = Outcome(moved: nat, error: bool)

  function Min(a: nat, b: nat): nat {
    if a <= b then a else b
  }

  /** What a call that moved `k` bytes returns. */
  function Count(k: nat, o: Outcome): int {
    if o.error then -1 else k
  }

  /** The kernel lets a call for `len` bytes move all of them. */
  predicate Good(o: Outcome, len: nat) {
    o.moved >= len && !o.error
  }

  /** Both calls of an operation of the client, or of a turn of a server, move everything. */
  predicate GoodPair(op: (Outcome, Outcome), n: nat) {
    Good(op.0, n) && Good(op.1, n)
  }

  /** The first `k` are carried out in full. */
  ghost predicate AllGood(ops: seq<(Outcome, Outcome)>, n: nat, k: nat)
    requires k <= |ops|
  {
    forall j :: 0 <= j < k ==> GoodPair(ops[j], n)
  }

  lemma NextGood(ops: seq<(Outcome, Outcome)>, n: nat, j: nat)
    requires j < |ops| && AllGood(ops, n, j)
    ensures AllGood(ops, n, j + 1) <==> GoodPair(ops[j], n)
    ensures !GoodPair(ops[j], n) ==> !AllGood(ops, n, |ops|)
  {
  }

  lemma AllGoodMeans(ops: seq<(Outcome, Outcome)>, n: nat)
    ensures AllGood(ops, n, |ops|) <==>
            forall j :: 0 <= j < |ops| ==>
              ops[j].0.moved >= n && !ops[j].0.error && ops[j].1.moved >= n && !ops[j].1.error
  {
  }

  lemma LawfulAppend(n: nat, tr: seq<Obs>, o: Obs)
    requires MsgSize(n) && Lawful(n, tr) && o.out <= Allowed(n, o.inp)
    requires tr != [] ==> Grows(tr[|tr| - 1], o)
    ensures Lawful(n, tr + [o])
  {
    var tr' := tr + [o];
    forall i | 0 <= i < |tr'| ensures LawfulAt(n, tr', i) {
      if i < |tr| { assert LawfulAt(n, tr, i); }
    }
  }

  class Socket {
    const inp: seq<byte>          // everything the client ever sends, in order
    var taken: nat                // how much of it has been received
    var out: seq<byte>            // everything sent to the client
    ghost var trace: seq<Obs>     // (received, sent) after every transfer

    ghost predicate Valid()
      reads this
    {
      taken <= |inp| && trace != [] && trace[|trace| - 1] == Obs(inp[..taken], out)
    }

    constructor (input: seq<byte>)
      ensures inp == input && taken == 0 && out == [] && trace == [Obs([], [])] && Valid()
    {
      inp, taken, out, trace := input, 0, [], [Obs([], [])];
    }

    method Push(data: seq<byte>)
      requires Valid()
      modifies this`out, this`trace
      ensures Valid() && out == old(out) + data && trace == old(trace) + [Obs(inp[..taken], out)]
    {
      out := out + data;
      trace := trace + [Obs(inp[..taken], out)];
    }

    method Pull(k: nat) returns (data: seq<byte>)
      requires Valid() && taken + k <= |inp|
      modifies this`taken, this`trace
      ensures Valid() && taken == old(taken) + k && data == inp[old(taken)..taken]
      ensures trace == old(trace) + [Obs(inp[..taken], out)]
    {
      data := inp[taken..taken + k];
      taken := taken + k;
      trace := trace + [Obs(inp[..taken], out)];
    }

    /** `send(fd, buf, len, 0)` */
    method Send(buf: seq<byte>, o: Outcome) returns (n: int)
      requires Valid()
      modifies this
      ensures Valid() && taken == old(taken)
      ensures var k := Min(o.moved, |buf|);
              out == old(out) + buf[..k] && n == Count(k, o)
      ensures trace == old(trace) + [Obs(inp[..taken], out)]
    {
      var k := Min(o.moved, |buf|);
      Push(buf[..k]);
      n := Count(k, o);
    }

    /** `recv(fd, buf, len, MSG_WAITALL)` */
    method Recv(buf: array<byte>, len: nat, o: Outcome) returns (n: int)
      requires Valid() && len <= buf.Length
      modifies this, buf
      ensures Valid() && out == old(out)
      ensures var k := Min(Min(o.moved, len), |inp| - old(taken));
              taken == old(taken) + k && n == Count(k, o)
      ensures buf[..] == Patch(old(buf[..]), 0, inp[old(taken)..taken])
      ensures trace == old(trace) + [Obs(inp[..taken], out)]
    {
      var k := Min(Min(o.moved, len), |inp| - taken);
      var data := Pull(k);
      forall i | 0 <= i < k { buf[i] := data[i]; }
      n := Count(k, o);
    }
  }

  /** The server keeps up: the header, then every message received so far. */
  ghost predicate Echoed(n: nat, s: Socket)
    requires MsgSize(n)
    reads s
  {
    s.Valid() && 2 <= s.taken && Aligned(s.taken - 2, n) && s.out == Header(n) + s.inp[2..s.taken]
  }

  lemma PrefixLawful(n: nat, inp: seq<byte>, taken: nat, out: seq<byte>, base: nat, k: nat)
    requires MsgSize(n) && Aligned(base, n) && k <= n && 2 + base + (if k > 0 then n else 0) <= taken <= |inp|
    requires out == Header(n) + inp[2..2 + base + k]
    ensures out <= Allowed(n, inp[..taken])
  {
    var got := inp[..taken];
    if k > 0 {
      EchoableReaches(n, got, base, k);
    } else {
      WholeMonotone(base, |got| - 2, n);
    }
    assert got[2..2 + base + k] == inp[2..2 + base + k];
    assert Allowed(n, got)[..|out|] == out;
  }

  /** Sending the first `k` bytes of a message right after everything before it. */
  lemma EchoPart(n: nat, inp: seq<byte>, taken: nat, out: seq<byte>, msg: seq<byte>, base: nat, k: nat)
    requires MsgSize(n) && Aligned(base, n) && k <= n && 2 + base + n <= taken <= |inp|
    requires out == Header(n) + inp[2..2 + base] && msg == inp[2 + base..2 + base + n]
    ensures out + msg[..k] == Header(n) + inp[2..2 + base + k]
    ensures out + msg[..k] <= Allowed(n, inp[..taken])
  {
    assert inp[2..2 + base + 0] == inp[2..2 + base];
    ChunkPart(n, inp, taken, out, msg, base, 0, k);
    assert msg[0..0 + k] == msg[..k];
  }

  lemma HeaderLawful(n: nat, inp: seq<byte>, taken: nat, out: seq<byte>)
    requires MsgSize(n) && taken <= |inp| && out <= Header(n)
    ensures out <= Allowed(n, inp[..taken])
  {
    assert Allowed(n, inp[..taken])[..|out|] == out;
  }

  /** One more transfer of a handshake. */
  lemma HeaderStep(n: nat, inp: seq<byte>, taken: nat, out: seq<byte>, tr: seq<Obs>)
    requires MsgSize(n) && Lawful(n, tr) && taken <= |inp| && out <= Header(n)
    requires tr != [] ==> Grows(tr[|tr| - 1], Obs(inp[..taken], out))
    ensures Lawful(n, tr + [Obs(inp[..taken], out)])
  {
    HeaderLawful(n, inp, taken, out);
    LawfulAppend(n, tr, Obs(inp[..taken], out));
  }

  /** `k * n`, one message after the other. */
  function Times(k: nat, n: nat): nat {
    if k == 0 then 0 else Times(k - 1, n) + n
  }

  lemma {:induction false} TimesIs(k: nat, n: nat)
    ensures Times(k, n) == k * n
    decreases k
  {
    if k > 0 {
      TimesIs(k - 1, n);
      assert (k - 1) * n + n == k * n;
    }
  }

  lemma {:induction false} TimesMonotone(k: nat, k': nat, n: nat)
    requires k <= k'
    ensures Times(k, n) <= Times(k', n)
    decreases k'
  {
    if k < k' { TimesMonotone(k, k' - 1, n); }
  }

  /** Sending bytes `d` to `d + k` of a message after the ones before them. */
  lemma ChunkPart(n: nat, inp: seq<byte>, taken: nat, out: seq<byte>, msg: seq<byte>, base: nat, d: nat, k: nat)
    requires MsgSize(n) && Aligned(base, n) && d + k <= n && 2 + base + n <= taken <= |inp|
    requires out == Header(n) + inp[2..2 + base + d] && msg == inp[2 + base..2 + base + n]
    ensures out + msg[d..d + k] == Header(n) + inp[2..2 + base + d + k]
    ensures out + msg[d..d + k] <= Allowed(n, inp[..taken])
  {
    SliceOfSlice(inp, 2 + base, 2 + base + n, d, d + k);
    SliceJoin(inp, 2, 2 + base + d, 2 + base + d + k);
    ConcatAssociates(Header(n), inp[2..2 + base + d], inp[2 + base + d..2 + base + d + k]);
    PrefixLawful(n, inp, taken, out + msg[d..d + k], base, d + k);
  }
}
