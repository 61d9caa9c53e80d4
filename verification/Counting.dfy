/** Counting how many participants have got at least so far. */
module Counting {

  /** How many elements of `s` are at least `k`. */
  function Count(s: seq<nat>, k: nat): (c: nat)
    ensures c <= |s|
  {
    if s == [] then 0 else (if s[0] >= k then 1 else 0) + Count(s[1..], k)
  }

  lemma {:induction false} CountUpdate(s: seq<nat>, i: nat, v: nat, k: nat)
    requires i < |s|
    ensures Count(s[i := v], k) == Count(s, k) - (if s[i] >= k then 1 else 0) + (if v >= k then 1 else 0)
    decreases s
  {
    if i == 0 {
      assert s[0 := v][1..] == s[1..];
    } else {
      CountUpdate(s[1..], i - 1, v, k);
      assert s[i := v][1..] == s[1..][i - 1 := v];
    }
  }

  lemma {:induction false} CountMonotone(s: seq<nat>, k: nat, k': nat)
    requires k <= k'
    ensures Count(s, k') <= Count(s, k)
    decreases s
  {
    if s != [] { CountMonotone(s[1..], k, k'); }
  }

  /** If as many have got to `k'` as to `k`, then everyone who got to `k` got to `k'`. */
  lemma {:induction false} CountEqual(s: seq<nat>, k: nat, k': nat, i: nat)
    requires k <= k' && Count(s, k') >= Count(s, k) && i < |s| && s[i] >= k
    ensures s[i] >= k'
    decreases s
  {
    CountMonotone(s[1..], k, k');
    if i > 0 { CountEqual(s[1..], k, k', i - 1); }
  }

  lemma {:induction false} CountAll(s: seq<nat>, k: nat, i: nat)
    requires Count(s, k) == |s| && i < |s|
    ensures s[i] >= k
    decreases s
  {
    if i > 0 { CountAll(s[1..], k, i - 1); }
  }

  lemma {:induction false} CountSome(s: seq<nat>, k: nat, i: nat)
    requires i < |s| && s[i] >= k
    ensures Count(s, k) > 0
    decreases s
  {
    if i > 0 { CountSome(s[1..], k, i - 1); }
  }

  lemma {:induction false} CountNone(s: seq<nat>, k: nat)
    requires forall i :: 0 <= i < |s| ==> s[i] < k
    ensures Count(s, k) == 0
    decreases s
  {
    if s != [] { CountNone(s[1..], k); }
  }

  lemma {:induction false} FullSubset(a: set<nat>, b: set<nat>)
    requires a <= b && |a| == |b|
    ensures a == b
    decreases a
  {
    if a == {} {
      assert |b| == 0;
    } else {
      var y :| y in a;
      FullSubset(a - {y}, b - {y});
    }
  }

  /** Counting is the size of the set of those counted. */
  lemma {:induction false} CountIsCard(s: seq<nat>, k: nat, m: nat)
    requires m <= |s|
    ensures |AtLeast(s, k, m)| == Count(s[..m], k)
    decreases m
  {
    if m > 0 {
      CountIsCard(s, k, m - 1);
      CountLast(s[..m], k);
      assert s[..m][..m - 1] == s[..m - 1];
      AtLeastLast(s, k, m);
    }
  }

  ghost function AtLeast(s: seq<nat>, k: nat, m: nat): set<nat>
    requires m <= |s|
  {
    set i: nat | i < m && s[i] >= k
  }

  lemma AtLeastLast(s: seq<nat>, k: nat, m: nat)
    requires 0 < m <= |s|
    ensures AtLeast(s, k, m) == AtLeast(s, k, m - 1) + if s[m - 1] >= k then {m - 1} else {}
  {
  }

  lemma {:induction false} CountLast(s: seq<nat>, k: nat)
    requires s != []
    ensures Count(s, k) == Count(s[..|s| - 1], k) + if s[|s| - 1] >= k then 1 else 0
    decreases s
  {
    if |s| > 1 {
      CountLast(s[1..], k);
      assert s[1..][..|s| - 2] == s[..|s| - 1][1..];
    }
  }
}
