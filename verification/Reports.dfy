/**
  The reports of the client processes: every process appends " %ld" of its throughput to one Redis
  string, and the driver splits, parses and sums that string.
*/
module Reports {
  import opened Wrappers
  import opened Powers

  const I63: nat := 0x8000_0000_0000_0000

  // ---------- printing: asprintf(" %ld") of a uint64_t ----------

  function Digit(d: nat): char
    requires d < 10
  {
    '0' + d as char
  }

  function Digits(v: nat): (s: string)
    ensures s != []
  {
    if v < 10 then [Digit(v)] else Digits(v / 10) + [Digit(v % 10)]
  }

  /** The value "%ld" shows for an unsigned 64-bit argument. */
  function AsLong(v: nat): int
    requires v < U64
  {
    if v < I63 then v else v - U64
  }

  function PrintLong(x: int): string {
    if x < 0 then "-" + Digits(-x) else Digits(x)
  }

  function Report(v: nat): string
    requires v < U64
  {
    " " + PrintLong(AsLong(v))
  }

  ghost predicate U64s(vs: seq<nat>) {
    forall i :: 0 <= i < |vs| ==> vs[i] < U64
  }

  /** The string after these reports were appended in this order. */
  function Joined(vs: seq<nat>): string
    requires U64s(vs)
  {
    if vs == [] then "" else Joined(vs[..|vs| - 1]) + Report(vs[|vs| - 1])
  }

  // ---------- Python's split() and int() ----------

  predicate IsSpace(c: char) {
    c == ' ' || '\t' <= c <= '\r' || '\U{1C}' <= c <= '\U{1F}'
  }

  /** The longest prefix without white space. */
  function Word(s: string): (w: string)
    ensures w <= s
  {
    if s == [] || IsSpace(s[0]) then [] else [s[0]] + Word(s[1..])
  }

  function Split(s: string): seq<string>
    decreases |s|
  {
    if s == [] then []
    else if IsSpace(s[0]) then Split(s[1..])
    else [Word(s)] + Split(s[|Word(s)|..])
  }

  predicate IsDigit(c: char) {
    '0' <= c <= '9'
  }

  function ParseNat(s: string): Option<nat> {
    if s == [] then None
    else
      var c := s[|s| - 1];
      if !IsDigit(c) then None
      else if |s| == 1 then Some(c as nat - '0' as nat)
      else
        var front := ParseNat(s[..|s| - 1]);
        if front.None? then None else Some(10 * front.value + (c as nat - '0' as nat))
  }

  /** None stands for ValueError. */
  function ParseInt(s: string): Option<int> {
    if s != [] && s[0] == '-' then
      var v := ParseNat(s[1..]);
      if v.None? then None else Some(-(v.value as int))
    else
      var v := ParseNat(if s != [] && s[0] == '+' then s[1..] else s);
      if v.None? then None else Some(v.value as int)
  }

  function SumParsed(ws: seq<string>): Option<int> {
    if ws == [] then Some(0)
    else
      var x, rest := ParseInt(ws[0]), SumParsed(ws[1..]);
      if x.None? || rest.None? then None else Some(x.value + rest.value)
  }

  /** `get_throughput`: None also when the key does not exist. */
  function GetThroughput(results: Option<string>): Option<int> {
    if results.None? then None else SumParsed(Split(results.value))
  }

  // ---------- round trips ----------

  /** Made of digits only. */
  ghost predicate Numeral(s: string) {
    forall i :: 0 <= i < |s| ==> IsDigit(s[i])
  }

  lemma {:induction false} ParseDigits(v: nat)
    ensures ParseNat(Digits(v)) == Some(v) && Numeral(Digits(v))
    decreases v
  {
    if v >= 10 {
      ParseDigits(v / 10);
      assert Digits(v)[..|Digits(v)| - 1] == Digits(v / 10);
    }
  }

  function Pow10(k: nat): (p: nat)
    ensures p > 0
  {
    if k == 0 then 1 else 10 * Pow10(k - 1)
  }

  /** The k-th digit from the right is the one of 10^k, and the first one is not a zero (but for "0"). */
  lemma {:induction false} DigitsAre(v: nat, k: nat)
    ensures k < |Digits(v)| ==> Digits(v)[|Digits(v)| - 1 - k] as int == '0' as int + v / Pow10(k) % 10
    ensures k >= |Digits(v)| ==> v / Pow10(k) == 0
    ensures v > 0 ==> Digits(v)[0] != '0'
    decreases v
  {
    if v >= 10 {
      DigitsAre(v / 10, if k > 0 then k - 1 else 0);
      if k > 0 { DivDiv(v, Pow10(k - 1)); }
    } else if k > 0 {
      DivDiv(v, Pow10(k - 1));
    }
  }

  lemma DivDiv(v: nat, p: nat)
    requires p > 0
    ensures v / (10 * p) == v / 10 / p
  {
    var q := v / 10 / p;
    var r, t := v / 10 - q * p, v % 10;
    assert v == 10 * (v / 10) + t == (10 * p) * q + (10 * r + t) by {
      assert (10 * p) * q == 10 * (q * p);
    }
    QuotientIs(v, 10 * p, q, 10 * r + t);
  }

  lemma QuotientIs(v: int, d: int, q: int, r: int)
    requires d > 0 && v == d * q + r && 0 <= r < d
    ensures v / d == q
  {
    var e := v / d - q;
    assert d * e == r - v % d;
    assert e >= 1 ==> d * e >= d;
    assert e <= -1 ==> d * e <= -d;
  }

  lemma NumeralIsOneWord(d: string)
    requires Numeral(d)
    ensures forall i :: 0 <= i < |d| ==> !IsSpace(d[i])
    ensures d != [] ==> d[0] != '-' && d[0] != '+'
  {
    forall i | 0 <= i < |d| ensures !IsSpace(d[i]) {
      assert IsDigit(d[i]);
    }
    if d != [] { assert IsDigit(d[0]); }
  }

  /** `int()` undoes "%ld". */
  lemma ParsePrinted(x: int)
    ensures ParseInt(PrintLong(x)) == Some(x)
    ensures PrintLong(x) != [] && forall i :: 0 <= i < |PrintLong(x)| ==> !IsSpace(PrintLong(x)[i])
  {
    var d := Digits(if x < 0 then -x else x);
    ParseDigits(if x < 0 then -x else x);
    NumeralIsOneWord(d);
    if x < 0 {
      assert PrintLong(x) == "-" + d && ("-" + d)[1..] == d;
    }
  }

  lemma {:induction false} WordOf(w: string, rest: string)
    requires forall i :: 0 <= i < |w| ==> !IsSpace(w[i])
    requires rest == [] || IsSpace(rest[0])
    ensures Word(w + rest) == w
    decreases w
  {
    if w == [] {
      assert w + rest == rest;
    } else {
      assert (w + rest)[1..] == w[1..] + rest;
      WordOf(w[1..], rest);
    }
  }

  /** A further report is a further word. */
  lemma {:induction false} SplitAppend(s: string, w: string)
    requires w != [] && forall i :: 0 <= i < |w| ==> !IsSpace(w[i])
    ensures Split(s + " " + w) == Split(s) + [w]
    decreases |s|
  {
    var t := s + " " + w;
    if s == [] {
      assert t[1..] == w;
      WordOf(w, []);
      assert w + [] == w;
      assert Split(w) == [w] + Split(w[|w|..]);
    } else if IsSpace(s[0]) {
      assert t[1..] == s[1..] + " " + w;
      SplitAppend(s[1..], w);
    } else {
      WordSplit(s, " " + w);
      var k := |Word(s)|;
      assert t == s + (" " + w);
      assert t[k..] == s[k..] + " " + w;
      SplitAppend(s[k..], w);
    }
  }

  lemma {:induction false} WordSplit(s: string, rest: string)
    requires rest != [] && IsSpace(rest[0])
    ensures Word(s + rest) == Word(s)
    decreases s
  {
    if s == [] {
      assert s + rest == rest;
    } else if !IsSpace(s[0]) {
      assert (s + rest)[1..] == s[1..] + rest;
      WordSplit(s[1..], rest);
    }
  }

  lemma {:induction false} SumAppend(ws: seq<string>, w: string)
    ensures SumParsed(ws + [w]) ==
            if SumParsed(ws).None? || ParseInt(w).None? then None else Some(SumParsed(ws).value + ParseInt(w).value)
    decreases ws
  {
    if ws == [] {
      assert ws + [w] == [w] && [w][1..] == [];
    } else {
      assert (ws + [w])[1..] == ws[1..] + [w];
      SumAppend(ws[1..], w);
    }
  }

  function SumLongs(vs: seq<nat>): int
    requires U64s(vs)
  {
    if vs == [] then 0 else SumLongs(vs[..|vs| - 1]) + AsLong(vs[|vs| - 1])
  }

  function Sum(vs: seq<nat>): nat {
    if vs == [] then 0 else Sum(vs[..|vs| - 1]) + vs[|vs| - 1]
  }

  /** The driver gets one word for each report and the sum of what was printed. */
  lemma {:induction false} DriverReadsAll(vs: seq<nat>)
    requires U64s(vs)
    ensures GetThroughput(Some(Joined(vs))) == Some(SumLongs(vs))
    ensures |Split(Joined(vs))| == |vs|
    decreases vs
  {
    if vs != [] {
      var front, v := vs[..|vs| - 1], vs[|vs| - 1];
      DriverReadsAll(front);
      JoinedLast(vs);
      OneMoreReport(Joined(front), Joined(vs), AsLong(v));
    }
  }

  lemma JoinedLast(vs: seq<nat>)
    requires U64s(vs) && vs != []
    ensures Joined(vs) == Joined(vs[..|vs| - 1]) + (" " + PrintLong(AsLong(vs[|vs| - 1])))
  {
  }

  lemma OneMoreReport(s: string, t: string, x: int)
    requires t == s + (" " + PrintLong(x)) && GetThroughput(Some(s)).Some?
    ensures GetThroughput(Some(t)) == Some(GetThroughput(Some(s)).value + x)
    ensures |Split(t)| == |Split(s)| + 1
  {
    ReadOneMore(s, t, x);
  }

  lemma ReadOneMore(s: string, t: string, x: int)
    requires t == s + (" " + PrintLong(x))
    ensures Split(t) == Split(s) + [PrintLong(x)]
    ensures SumParsed(Split(s)).Some? ==> SumParsed(Split(t)) == Some(SumParsed(Split(s)).value + x)
  {
    ParsePrinted(x);
    ReadWord(s, PrintLong(x));
  }

  lemma ReadWord(s: string, w: string)
    requires w != [] && (forall i :: 0 <= i < |w| ==> !IsSpace(w[i])) && ParseInt(w).Some?
    ensures Split(s + (" " + w)) == Split(s) + [w]
    ensures SumParsed(Split(s)).Some? ==>
              SumParsed(Split(s + (" " + w))) == Some(SumParsed(Split(s)).value + ParseInt(w).value)
  {
    SplitAppend(s, w);
    Space(s, w);
    SumOneMore(Split(s), Split(s + (" " + w)), w);
  }

  lemma Space(s: string, w: string)
    ensures s + " " + w == s + (" " + w)
  {
  }

  lemma SumOneMore(ws: seq<string>, ws': seq<string>, w: string)
    requires ParseInt(w).Some?
    requires ws' == ws + [w]
    ensures SumParsed(ws).Some? ==> SumParsed(ws') == Some(SumParsed(ws).value + ParseInt(w).value)
  {
    SumAppend(ws, w);
  }

  lemma {:induction false} LongsAtMost(vs: seq<nat>)
    requires U64s(vs)
    ensures SumLongs(vs) <= Sum(vs)
    ensures SumLongs(vs) == Sum(vs) <==> forall i :: 0 <= i < |vs| ==> vs[i] < I63
    decreases vs
  {
    if vs != [] {
      LongsAtMost(vs[..|vs| - 1]);
    }
  }

  /** The driver's total is the sum of the reported throughputs exactly when each is below 2^63. */
  lemma DriverTotalIff(vs: seq<nat>)
    requires U64s(vs)
    ensures GetThroughput(Some(Joined(vs))) == Some(Sum(vs) as int) <==> forall i :: 0 <= i < |vs| ==> vs[i] < I63
  {
    DriverReadsAll(vs);
    LongsAtMost(vs);
  }
}
