/**
  The echo protocol, one connection at a time: the server announces the message size in network byte
  order, takes a two-byte greeting, and echoes whole messages for ever. This module says, without
  mentioning any server, which byte streams an outside observer may see.
*/
module EchoSpec {
  import opened Bytes

  const BUF_SIZE: nat := 1024

  /** `start_server` refuses message sizes above BUF_SIZE; an echo needs at least one byte. */
  predicate MsgSize(n: nat) {
    1 <= n <= BUF_SIZE
  }

  function Header(n: nat): (h: seq<byte>)
    requires MsgSize(n)
    ensures |h| == 4
  {
    Htonl(n)
  }

  lemma HeaderBytes(n: nat)
    requires MsgSize(n)
    ensures Header(n) == [0, 0, n / 256, n % 256]
  {
  }

  /** The client's greeting, "Hi"; servers do not look at it. */
  const HI: seq<byte> := ['H' as int, 'i' as int]

  /** The length of the whole messages among `len` payload bytes. */
  function Whole(len: nat, n: nat): (w: nat)
    requires n > 0
    ensures w <= len
    decreases len
  {
    if len < n then 0 else n + Whole(len - n, n)
  }

  /** `len` bytes are a whole number of messages. */
  predicate Aligned(len: int, n: nat)
    requires n > 0
  {
    0 <= len && Whole(len, n) == len
  }

  /** The whole messages a client has sent after its greeting. */
  function Echoable(n: nat, inp: seq<byte>): (s: seq<byte>)
    requires MsgSize(n)
  {
    if |inp| < 2 then [] else inp[2..2 + Whole(|inp| - 2, n)]
  }

  /** Everything a server may have sent to a client that sent `inp`. */
  function Allowed(n: nat, inp: seq<byte>): seq<byte>
    requires MsgSize(n)
  {
    Header(n) + Echoable(n, inp)
  }

  lemma DivisionStep(len: nat, n: nat)
    requires 0 < n <= len
    ensures len / n * n == n + (len - n) / n * n
  {
    var q, r := (len - n) / n, (len - n) % n;
    assert len == (q + 1) * n + r;
    DivisionUnique(len, q + 1, r, n);
  }

  lemma DivisionUnique(len: nat, q: nat, r: nat, n: nat)
    requires len == q * n + r && r < n
    ensures len / n == q
  {
    var d := len / n - q;
    assert d * n == r - len % n;
    assert d >= 1 ==> d * n >= n;
    assert d <= -1 ==> d * n <= -1 * n;
  }

  /** `Whole` rounds down to a multiple of the message size. */
  lemma {:induction false} WholeIsDivision(len: nat, n: nat)
    requires n > 0
    ensures Whole(len, n) == len / n * n
    decreases len
  {
    if len >= n {
      WholeIsDivision(len - n, n);
      DivisionStep(len, n);
    }
  }

  lemma {:induction false} WholeMonotone(a: nat, b: nat, n: nat)
    requires n > 0 && a <= b
    ensures Whole(a, n) <= Whole(b, n)
    decreases a
  {
    if a >= n {
      WholeMonotone(a - n, b - n, n);
    }
  }

  lemma {:induction false} WholeAligned(a: nat, n: nat)
    requires n > 0
    ensures Aligned(Whole(a, n), n)
    decreases a
  {
    if a >= n {
      WholeAligned(a - n, n);
    }
  }

  /** Beyond an aligned length the next whole message is a full one. */
  lemma {:induction false} WholeNext(a: nat, b: nat, n: nat)
    requires n > 0 && Aligned(a, n) && a < Whole(b, n)
    ensures a + n <= Whole(b, n)
    decreases a
  {
    if a >= n {
      WholeNext(a - n, b - n, n);
    }
  }

  lemma AlignedNext(a: nat, n: nat)
    requires n > 0 && Aligned(a, n)
    ensures Aligned(a + n, n)
  {
  }

  /** A message that has arrived in full may be echoed up to any of its bytes. */
  lemma EchoableReaches(n: nat, inp: seq<byte>, base: nat, k: nat)
    requires MsgSize(n) && Aligned(base, n) && k <= n && 2 + base + n <= |inp|
    ensures inp[2..2 + base + k] <= Echoable(n, inp)
  {
    WholeMonotone(base + n, |inp| - 2, n);
    assert Echoable(n, inp)[..base + k] == inp[2..2 + base + k];
  }

  lemma EchoableMonotone(n: nat, inp: seq<byte>, inp': seq<byte>)
    requires MsgSize(n) && inp <= inp'
    ensures Echoable(n, inp) <= Echoable(n, inp')
    ensures Allowed(n, inp) <= Allowed(n, inp')
  {
    if |inp| >= 2 {
      WholeMonotone(|inp| - 2, |inp'| - 2, n);
      assert Echoable(n, inp')[..|Echoable(n, inp)|] == Echoable(n, inp);
    }
    assert Allowed(n, inp')[..|Allowed(n, inp)|] == Allowed(n, inp);
  }

  /** Everything that may be sent to a client that has sent a greeting, whole messages, and one more. */
  lemma AllowedLength(n: nat, inp: seq<byte>, base: nat)
    requires MsgSize(n) && Aligned(base, n) && |inp| <= 2 + base + n
    ensures |Allowed(n, inp)| <= 4 + base + n
    ensures |inp| == 2 + base + n ==> |Allowed(n, inp)| == 4 + base + n
  {
    AlignedNext(base, n);
  }

  // ---------- observations ----------

  /** What can be observed from outside: the bytes the client has sent, the bytes it was sent. */
  datatype Obs = Obs(inp: seq<byte>, out: seq<byte>)

  ghost predicate Grows(a: Obs, b: Obs) {
    a.inp <= b.inp && a.out <= b.out
  }

  ghost predicate LawfulAt(n: nat, tr: seq<Obs>, i: nat)
    requires MsgSize(n) && i < |tr|
  {
    tr[i].out <= Allowed(n, tr[i].inp) && (i > 0 ==> Grows(tr[i - 1], tr[i]))
  }

  /** Both streams only grow, and the server is never ahead of what it may send. */
  ghost predicate Lawful(n: nat, tr: seq<Obs>)
    requires MsgSize(n)
  {
    forall i :: 0 <= i < |tr| ==> LawfulAt(n, tr, i)
  }

  lemma LawfulTail(n: nat, tr: seq<Obs>)
    requires MsgSize(n) && tr != []
    ensures Lawful(n, tr) <==>
            && LawfulAt(n, tr, 0) && Lawful(n, tr[1..])
            && (|tr| > 1 ==> Grows(tr[0], tr[1]))
  {
    var tl := tr[1..];
    if Lawful(n, tr) {
      forall i | 0 <= i < |tl| ensures LawfulAt(n, tl, i) {
        assert LawfulAt(n, tr, i + 1);
      }
      if |tr| > 1 { assert LawfulAt(n, tr, 1); }
    }
    if LawfulAt(n, tr, 0) && Lawful(n, tl) && (|tr| > 1 ==> Grows(tr[0], tr[1])) {
      forall i | 0 <= i < |tr| ensures LawfulAt(n, tr, i) {
        if i > 0 { assert LawfulAt(n, tl, i - 1); }
      }
    }
  }

  /** Moments of a trace, in order; the same one may be looked at any number of times. */
  ghost predicate Moments(tr: seq<Obs>, f: seq<nat>) {
    && (forall i :: 0 <= i < |f| ==> f[i] < |tr|)
    && (forall i, j :: 0 <= i < j < |f| ==> f[i] <= f[j])
  }

  function At(tr: seq<Obs>, f: seq<nat>): (s: seq<Obs>)
    requires forall i :: 0 <= i < |f| ==> f[i] < |tr|
    ensures |s| == |f| && forall i :: 0 <= i < |f| ==> s[i] == tr[f[i]]
  {
    seq(|f|, i requires 0 <= i < |f| => tr[f[i]])
  }

  lemma {:induction false} LawfulGrows(n: nat, tr: seq<Obs>, a: nat, b: nat)
    requires MsgSize(n) && Lawful(n, tr) && a <= b < |tr|
    ensures Grows(tr[a], tr[b])
    decreases b
  {
    if a < b {
      LawfulGrows(n, tr, a, b - 1);
      assert LawfulAt(n, tr, b);
    }
  }

  /** Looking at other moments, or several times at the same, leaves a lawful trace lawful. */
  lemma LawfulAtMoments(n: nat, tr: seq<Obs>, f: seq<nat>)
    requires MsgSize(n) && Lawful(n, tr) && Moments(tr, f)
    ensures Lawful(n, At(tr, f))
  {
    forall i | 0 <= i < |f| ensures LawfulAt(n, At(tr, f), i) {
      assert LawfulAt(n, tr, f[i]);
      if i > 0 { LawfulGrows(n, tr, f[i - 1], f[i]); }
    }
  }

  /** A server judged on what it has received is also lawful on what has been sent to it. */
  lemma LawfulWithPendingInput(n: nat, tr: seq<Obs>, tr': seq<Obs>)
    requires MsgSize(n) && Lawful(n, tr) && |tr| == |tr'|
    requires forall i :: 0 <= i < |tr| ==> tr[i].inp <= tr'[i].inp && tr[i].out == tr'[i].out
    requires forall i, j :: 0 <= i < j < |tr| ==> tr'[i].inp <= tr'[j].inp
    ensures Lawful(n, tr')
  {
    forall i | 0 <= i < |tr'| ensures LawfulAt(n, tr', i) {
      assert LawfulAt(n, tr, i);
      EchoableMonotone(n, tr[i].inp, tr'[i].inp);
    }
  }
}
