/** The messages of one client thread, byte by byte: the memory of `buf` on a little-endian machine. */
module Messages {
  import opened Bytes
  import opened Powers
  import opened Generator

  const BUF_WORDS: nat := 128   // BUF_SIZE/8

  // ---------- words and bytes ----------

  /** `k` bytes of `w`, least significant byte first. */
  function ToBytes(w: nat, k: nat): (s: seq<byte>)
    ensures |s| == k
    decreases k
  {
    if k == 0 then [] else [w % 256] + ToBytes(w / 256, k - 1)
  }

  function FromBytes(s: seq<byte>): nat {
    if s == [] then 0 else s[0] + 256 * FromBytes(s[1..])
  }

  lemma {:induction false} FromToBytes(w: nat, k: nat)
    requires w < Pow2(8 * k)
    ensures FromBytes(ToBytes(w, k)) == w
    decreases k
  {
    if k > 0 {
      Pow2Of8More(8 * (k - 1));
      FromToBytes(w / 256, k - 1);
      assert ToBytes(w, k)[1..] == ToBytes(w / 256, k - 1);
    }
  }

  lemma Pow2Of8More(n: nat)
    ensures Pow2(n + 8) == 256 * Pow2(n)
  {
    assert Pow2(n + 4) == 2 * Pow2(n + 3) == 4 * Pow2(n + 2) == 8 * Pow2(n + 1);
    assert Pow2(n + 8) == 2 * Pow2(n + 7) == 4 * Pow2(n + 6) == 8 * Pow2(n + 5);
  }

  function BytesOf(ws: seq<nat>): (s: seq<byte>)
    ensures |s| == 8 * |ws|
  {
    if ws == [] then [] else ToBytes(ws[0], 8) + BytesOf(ws[1..])
  }

  function WordsOf(s: seq<byte>): (ws: seq<nat>)
    ensures 8 * |ws| <= |s| < 8 * |ws| + 8
  {
    if |s| < 8 then [] else [FromBytes(s[..8])] + WordsOf(s[8..])
  }

  /** Memory holds what was stored. */
  lemma {:induction false} WordsOfBytes(ws: seq<nat>)
    requires forall i :: 0 <= i < |ws| ==> ws[i] < Pow2(WORD)
    ensures WordsOf(BytesOf(ws)) == ws
    decreases ws
  {
    if ws != [] {
      FromToBytes(ws[0], 8);
      WordsOfBytes(ws[1..]);
      var s := BytesOf(ws);
      assert s[..8] == ToBytes(ws[0], 8) && s[8..] == BytesOf(ws[1..]);
    }
  }

  /** Writing bytes at the start of an array of words. */
  function Stored(ws: seq<nat>, data: seq<byte>): (ws': seq<nat>)
    requires |data| <= 8 * |ws|
    ensures |ws'| == |ws|
  {
    WordsOf(Patch(BytesOf(ws), 0, data))
  }

  /** Storing the bytes that are there already changes nothing. */
  lemma StoredBack(ws: seq<nat>, n: nat)
    requires n <= 8 * |ws| && forall i :: 0 <= i < |ws| ==> ws[i] < Pow2(WORD)
    ensures Stored(ws, BytesOf(ws)[..n]) == ws
  {
    PatchSame(BytesOf(ws), 0, n);
    WordsOfBytes(ws);
  }

  lemma {:induction false} BytesOfFirst(ws: seq<nat>, m: nat)
    requires m <= |ws|
    ensures BytesOf(ws)[..8 * m] == BytesOf(ws[..m])
    decreases m
  {
    if m > 0 {
      BytesOfFirst(ws[1..], m - 1);
      assert ws[1..][..m - 1] == ws[..m][1..];
      FirstOfConcat(ToBytes(ws[0], 8), BytesOf(ws[1..]), 8 * (m - 1));
    }
  }

  lemma FirstOfConcat(a: seq<byte>, b: seq<byte>, k: nat)
    requires k <= |b|
    ensures (a + b)[..|a| + k] == a + b[..k]
  {
  }

  // ---------- messages ----------

  lemma OneIsAWord()
    ensures 1 < Pow2(WORD)
  {
    assert Pow2(WORD) == 2 * Pow2(63);
  }

  /** `rng_state`, which starts at 1, after `k` words. */
  function Rng(k: nat): (w: nat)
    ensures w < Pow2(WORD)
  {
    OneIsAWord();
    Iter(WORD, 1, k)
  }

  /** How many words the messages before message `j` have drawn. */
  function Drawn(msgSize: nat, j: nat): nat {
    if j == 0 then 0 else Drawn(msgSize, j - 1) + Words(msgSize)
  }

  /** Element `i` of the buffer, zero at first, while message `j` is sent. */
  function Element(msgSize: nat, j: nat, i: nat): (w: nat)
    ensures w < Pow2(WORD)
  {
    if i % 8 == 0 && i < msgSize then Rng(Drawn(msgSize, j) + i / 8 + 1) else 0
  }

  function Buffer(msgSize: nat, j: nat): (ws: seq<nat>)
    ensures |ws| == BUF_WORDS
  {
    seq(BUF_WORDS, i requires 0 <= i < BUF_WORDS => Element(msgSize, j, i))
  }

  function Message(msgSize: nat, j: nat): (m: seq<byte>)
    requires msgSize <= BUF_WORDS
    ensures |m| == msgSize
  {
    BytesOf(Buffer(msgSize, j))[..msgSize]
  }

  /** The first `k` messages. */
  function Stream(msgSize: nat, k: nat): seq<byte>
    requires msgSize <= BUF_WORDS
  {
    if k == 0 then [] else Stream(msgSize, k - 1) + Message(msgSize, k - 1)
  }

  /** Two 64-byte messages of a thread are equal only when a multiple of 2^61 messages lies between them. */
  lemma MessagesEqualIff(i: nat, j: nat)
    requires i <= j
    ensures Message(64, i) == Message(64, j) <==> (j - i) % Pow2(61) == 0
  {
    OneIsAWord();
    MessagesDiffer(1, i, j);
    SameFirstWord(i, j);
    assert FirstWord(1, 64, i) == Rng(8 * i + 1) && FirstWord(1, 64, j) == Rng(8 * j + 1);
  }

  lemma SameFirstWord(i: nat, j: nat)
    ensures Message(64, i) == Message(64, j) <==> Rng(8 * i + 1) == Rng(8 * j + 1)
  {
    EightWords(i);
    EightWords(j);
    SameHead(Rng(8 * i + 1), Rng(8 * j + 1), BytesOf(Zeros(7)));
  }

  lemma SameHead(a: nat, b: nat, rest: seq<byte>)
    requires a < Pow2(WORD) && b < Pow2(WORD)
    ensures ToBytes(a, 8) + rest == ToBytes(b, 8) + rest <==> a == b
  {
    FromToBytes(a, 8);
    FromToBytes(b, 8);
    assert (ToBytes(a, 8) + rest)[..8] == ToBytes(a, 8);
    assert (ToBytes(b, 8) + rest)[..8] == ToBytes(b, 8);
  }

  lemma {:induction false} DrawnBy64(j: nat)
    ensures Drawn(64, j) == 8 * j
  {
    if j > 0 { DrawnBy64(j - 1); }
  }

  function Zeros(k: nat): (z: seq<nat>)
    ensures |z| == k
  {
    seq(k, _ => 0)
  }

  /** With 64-byte messages, only the first of the eight words sent is ever written. */
  lemma EightWords(j: nat)
    ensures Message(64, j) == ToBytes(Rng(8 * j + 1), 8) + BytesOf(Zeros(7))
  {
    FirstEight(j);
    BytesOfFirst(Buffer(64, j), 8);
    ConsBytes(Rng(8 * j + 1), Zeros(7));
  }

  /** Least significant byte first: of the 64 bytes of a message, the first is the low byte of a state of the
      generator, and all from the ninth on are zero. */
  lemma MessageBytes(j: nat)
    ensures Message(64, j)[0] == Rng(8 * j + 1) % 256 && forall i :: 8 <= i < 64 ==> Message(64, j)[i] == 0
  {
    EightWords(j);
    ZeroWords(7);
  }

  /** The states the messages are made of: 1, 38, 1407, ... */
  lemma States(k: nat)
    ensures Rng(0) == 1 && Rng(k + 1) == (37 * Rng(k) + 1) % Pow2(WORD)
  {
  }

  lemma {:induction false} ZeroBytes(k: nat)
    ensures forall i :: 0 <= i < k ==> ToBytes(0, k)[i] == 0
    decreases k
  {
    if k > 0 { ZeroBytes(k - 1); }
  }

  lemma {:induction false} ZeroWords(k: nat)
    ensures forall i :: 0 <= i < 8 * k ==> BytesOf(Zeros(k))[i] == 0
    decreases k
  {
    if k > 0 {
      assert Zeros(k)[1..] == Zeros(k - 1);
      ZeroWords(k - 1);
      ZeroBytes(8);
    }
  }

  lemma FirstEight(j: nat)
    ensures Buffer(64, j)[..8] == [Rng(8 * j + 1)] + Zeros(7)
  {
    DrawnBy64(j);
    var ws := Buffer(64, j);
    FirstElement(j);
    forall i | 1 <= i < 8 ensures ws[i] == 0 {
      OtherElement(j, i);
    }
  }

  lemma FirstElement(j: nat)
    ensures Element(64, j, 0) == Rng(Drawn(64, j) + 1)
  {
  }

  lemma OtherElement(j: nat, i: nat)
    requires 1 <= i < 8
    ensures Element(64, j, i) == 0
  {
  }

  lemma ConsBytes(w: nat, rest: seq<nat>)
    ensures BytesOf([w] + rest) == ToBytes(w, 8) + BytesOf(rest)
  {
    assert ([w] + rest)[1..] == rest;
  }

  // ---------- one turn of the generator ----------

  /** `FillMessage` turns the buffer of one message into that of the next. */
  lemma FilledIsNextBuffer(msgSize: nat, j: nat, before: seq<nat>, after: seq<nat>)
    requires |before| == |after| == BUF_WORDS
    requires forall i :: 0 <= i < BUF_WORDS && !(i % 8 == 0 && i < msgSize) ==> before[i] == 0
    requires FilledTo(Rng(Drawn(msgSize, j)), msgSize, before, after)
    ensures after == Buffer(msgSize, j)
    ensures Iter(WORD, Rng(Drawn(msgSize, j)), Words(msgSize)) == Rng(Drawn(msgSize, j + 1))
  {
    OneIsAWord();
    var d := Drawn(msgSize, j);
    forall i | 0 <= i < BUF_WORDS ensures after[i] == Element(msgSize, j, i) {
      RngAdd(d, i / 8 + 1);
    }
    RngAdd(d, Words(msgSize));
  }

  lemma RngStarts(msgSize: nat)
    ensures Rng(Drawn(msgSize, 0)) == 1
  {
    OneIsAWord();
  }

  lemma RngAdd(a: nat, b: nat)
    ensures Rng(a + b) == Iter(WORD, Rng(a), b)
  {
    OneIsAWord();
    IterAdds(WORD, 1, a, b);
  }
}
