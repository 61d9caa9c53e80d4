/** Bytes, network byte order, and prefixes of byte streams. */
module Bytes {
  type byte = x: int | 0 <= x < 256

  /** `htonl` on a non-negative 32-bit integer: most significant byte first (Appendix B of RFC 791). */
  function Htonl(v: nat): (s: seq<byte>)
    requires v < 0x1_0000_0000
    ensures |s| == 4
  {
    [v / 0x100_0000, v / 0x1_0000 % 256, v / 0x100 % 256, v % 256]
  }

  /** `ntohl`, as the client applies it to the four bytes it received. */
  function Ntohl(s: seq<byte>): nat
    requires |s| == 4
  {
    var a: int, b: int, c: int, d: int := s[0], s[1], s[2], s[3];
    ((a * 256 + b) * 256 + c) * 256 + d
  }

  /** Most significant byte first. */
  lemma HtonlIsBigEndian(a: byte, b: byte, c: byte, d: byte)
    ensures a * 0x100_0000 + b * 0x1_0000 + c * 0x100 + d < 0x1_0000_0000
    ensures Htonl(a * 0x100_0000 + b * 0x1_0000 + c * 0x100 + d) == [a, b, c, d]
  {
    HtonlNtohl([a, b, c, d]);
  }

  lemma NtohlHtonl(v: nat)
    requires v < 0x1_0000_0000
    ensures Ntohl(Htonl(v)) == v
  {
    var a, b, c := v / 0x100, v / 0x1_0000, v / 0x100_0000;
    assert b == a / 256 && c == b / 256;
  }

  lemma HtonlNtohl(s: seq<byte>)
    requires |s| == 4
    ensures Ntohl(s) < 0x1_0000_0000 && Htonl(Ntohl(s)) == s
  {
    var a: int, b: int, c: int := s[0], s[1], s[2];
    var v := Ntohl(s);
    assert v / 0x100 == (a * 256 + b) * 256 + c;
    assert v / 0x1_0000 == a * 256 + b;
    assert v / 0x100_0000 == a;
  }

  /** Overwrites part of a buffer, as `recv` does. */
  function Patch(buf: seq<byte>, at: nat, data: seq<byte>): (r: seq<byte>)
    requires at + |data| <= |buf|
    ensures |r| == |buf|
    ensures r[..at] == buf[..at] && r[at..at + |data|] == data && r[at + |data|..] == buf[at + |data|..]
  {
    buf[..at] + data + buf[at + |data|..]
  }

  lemma SliceOfSlice<T>(a: seq<T>, lo: nat, hi: nat, i: nat, j: nat)
    requires lo <= hi <= |a| && i <= j <= hi - lo
    ensures a[lo..hi][i..j] == a[lo + i..lo + j]
  {
    var x, y := a[lo..hi][i..j], a[lo + i..lo + j];
    assert |x| == |y|;
    forall k | 0 <= k < |x| ensures x[k] == y[k] {
      assert x[k] == a[lo..hi][i + k] == a[lo + (i + k)] == y[k];
    }
  }

  lemma SliceJoin<T>(a: seq<T>, i: nat, j: nat, k: nat)
    requires i <= j <= k <= |a|
    ensures a[i..j] + a[j..k] == a[i..k]
  {
  }

  lemma ConcatAssociates<T>(a: seq<T>, b: seq<T>, c: seq<T>)
    ensures a + b + c == a + (b + c)
  {
  }

  lemma SliceOfPrefix<T>(a: seq<T>, b: seq<T>, i: nat, j: nat)
    requires i <= j <= |a|
    ensures (a + b)[i..j] == a[i..j]
  {
  }

  lemma PatchExtends(buf: seq<byte>, at: nat, data: seq<byte>)
    requires at + |data| <= |buf|
    ensures Patch(buf, at, data)[..at + |data|] == buf[..at] + data
  {
  }

  lemma PatchSame(buf: seq<byte>, d: nat, k: nat)
    requires d + k <= |buf|
    ensures Patch(buf, d, buf[d..d + k]) == buf
  {
  }
}
