/** The DMA bump allocator and the address translation of i10e.c and x710.c. */
module Dma {
  import opened Wrappers
  import opened Powers

  const DMA_SIZE: nat := 64 * 1024 * 1024

  /** `mmap` returns user-space addresses, which on x86-64 lie below 2^47. */
  predicate Mapped(base: nat) {
    base + DMA_SIZE <= 0x8000_0000_0000
  }

  /** `y >> e` and `q << e`, for p = 2^e. */
  function ShiftRight(y: nat, p: nat): nat
    requires p > 0
  {
    y / p
  }

  function ShiftLeft(q: nat, p: nat): nat {
    q * p
  }

  /** `((x + ((1 << e) - 1)) >> e) << e` on `__u64`; `1 << e` is an int, so `e` is at most 30. */
  function AlignUp(x: nat, e: nat): nat
    requires x < U64 && e <= 30
  {
    ShiftLeft(ShiftRight((x + (Pow2(e) - 1)) % U64, Pow2(e)), Pow2(e))
  }

  /** What one call leaves: the address it computed, the next free address, and whether it returned. */
  datatype Allocation = Allocation(addr: nat, next: nat, ok: bool)

  function Alloc(base: nat, next: nat, size: nat, e: nat): Allocation
    requires next < U64 && e <= 30
  {
    var ret := AlignUp(next, e);
    var next' := (ret + size) % U64;
    Allocation(ret, next', next' <= (base + DMA_SIZE) % U64)
  }

  // ---------- one allocation ----------

  lemma DivMul(x: nat, p: nat)
    requires p > 0
    ensures x / p * p == x - x % p
  {
  }

  lemma {:induction false} Pow2Bound(e: nat, m: nat)
    requires e <= m
    ensures Pow2(e) <= Pow2(m)
    decreases m
  {
    if e < m { Pow2Bound(e, m - 1); }
  }

  lemma Pow2Of30()
    ensures Pow2(30) == 0x4000_0000
  {
    assert Pow2(10) == 1024;
    assert Pow2(20) == 1024 * Pow2(10);
    assert Pow2(30) == 1024 * Pow2(20);
  }

  lemma MultipleMod(q: nat, p: nat)
    requires p > 0
    ensures (q * p) % p == 0
  {
    var r, d := (q * p) % p, q - (q * p) / p;
    assert d * p == r;
    assert d >= 1 ==> d * p >= p;
    assert d <= -1 ==> d * p <= -1 * p;
  }

  /** Rounding up gives the next multiple. */
  lemma AlignUpIs(x: nat, e: nat)
    requires x + 0x4000_0000 <= U64 && e <= 30
    ensures x <= AlignUp(x, e) < x + Pow2(e) && AlignUp(x, e) % Pow2(e) == 0
  {
    var p := Pow2(e);
    Pow2Bound(e, 30);
    Pow2Of30();
    var y := x + (p - 1);
    assert y % U64 == y;
    DivMul(y, p);
    MultipleMod(y / p, p);
  }

  /** A request whose end cannot wrap around the address space, wherever in the region it begins. */
  predicate Reasonable(base: nat, size: nat) {
    base + DMA_SIZE + 0x4000_0000 + size < U64
  }

  /** A successful allocation is aligned, starts at or after everything allocated before, and ends where
      the next one may begin. Of the blocks that a successful call returns, exactly those lie inside the
      region that are no larger than the region; the end of any other has wrapped around 2^64. */
  lemma AllocIsSafe(base: nat, next: nat, size: nat, e: nat)
    requires Mapped(base) && base <= next <= base + DMA_SIZE && e <= 30 && size < U64
    ensures var a := Alloc(base, next, size, e);
            && next <= a.addr < next + Pow2(e) && a.addr % Pow2(e) == 0
            && (a.ok ==> (a.addr + size <= base + DMA_SIZE <==> size <= DMA_SIZE))
            && (a.ok ==> (a.addr + size <= base + DMA_SIZE <==> a.addr + size < U64))
            && (a.addr + size < U64 ==> a.next == a.addr + size && (a.ok <==> a.next <= base + DMA_SIZE))
  {
    AlignUpIs(next, e);
    Pow2Bound(e, 30);
    Pow2Of30();
    PlaceIsSafe(base, AlignUp(next, e), size, Alloc(base, next, size, e));
  }

  /** The end of a block, whatever its alignment. */
  lemma PlaceIsSafe(base: nat, addr: nat, size: nat, a: Allocation)
    requires Mapped(base) && addr < U64 && size < U64
    requires a == Allocation(addr, (addr + size) % U64, (addr + size) % U64 <= (base + DMA_SIZE) % U64)
    ensures a.ok ==> (a.addr + size <= base + DMA_SIZE <==> a.addr + size < U64)
    ensures a.addr + size < U64 ==> a.next == a.addr + size && (a.ok <==> a.next <= base + DMA_SIZE)
  {
    EndOfBlock(addr, size, base + DMA_SIZE);
  }

  /** A request whose end wraps around is granted although it is larger than the region. */
  lemma WrappedBlock(base: nat)
    requires Mapped(base) && base > 0
    ensures Alloc(base, base, U64 - 1, 0) == Allocation(base, base - 1, true)
  {
    AlignUpIs(base, 0);
    assert Pow2(0) == 1;
    assert base + (U64 - 1) == (base - 1) + U64;
  }

  lemma EndOfBlock(addr: nat, size: nat, limit: nat)
    requires addr < U64 && size < U64 && limit < U64
    ensures addr + size < U64 ==> (addr + size) % U64 == addr + size
    ensures (addr + size) % U64 <= limit ==> (addr + size <= limit <==> addr + size < U64)
  {
  }

  // ---------- sequences of allocations ----------

  datatype Request = Request(size: nat, alignExp: nat)

  /** The addresses of a sequence of allocations; None when one of them ends the process. */
  function AllocAll(base: nat, next: nat, reqs: seq<Request>): Option<seq<nat>>
    requires next < U64 && (forall i :: 0 <= i < |reqs| ==> reqs[i].alignExp <= 30)
    decreases reqs
  {
    if reqs == [] then Some([])
    else
      var a := Alloc(base, next, reqs[0].size, reqs[0].alignExp);
      if !a.ok then None
      else
        var rest := AllocAll(base, a.next, reqs[1..]);
        if rest.None? then None else Some([a.addr] + rest.value)
  }

  ghost predicate GoodRequests(base: nat, reqs: seq<Request>) {
    forall i :: 0 <= i < |reqs| ==> reqs[i].alignExp <= 30 && Reasonable(base, reqs[i].size)
  }

  /** Aligned, inside the region, one block after the other without overlap. */
  ghost predicate Laid(base: nat, next: nat, reqs: seq<Request>, addrs: seq<nat>)
    requires |addrs| == |reqs|
  {
    && (forall i :: 0 <= i < |reqs| ==>
          && addrs[i] % Pow2(reqs[i].alignExp) == 0
          && next <= addrs[i] && addrs[i] + reqs[i].size <= base + DMA_SIZE)
    && (forall i, j :: 0 <= i < j < |reqs| ==> addrs[i] + reqs[i].size <= addrs[j])
  }

  /** Of the sequences of requests that all succeed, exactly those lay out their blocks inside the region and
      without overlap in which no request is larger than the region. */
  lemma AllocAllIsSafe(base: nat, next: nat, reqs: seq<Request>)
    requires Mapped(base) && base <= next <= base + DMA_SIZE
    requires forall i :: 0 <= i < |reqs| ==> reqs[i].alignExp <= 30 && reqs[i].size < U64
    requires AllocAll(base, next, reqs).Some?
    ensures |AllocAll(base, next, reqs).value| == |reqs|
    ensures Laid(base, next, reqs, AllocAll(base, next, reqs).value) <==>
            forall i :: 0 <= i < |reqs| ==> reqs[i].size <= DMA_SIZE
  {
    AllocAllLength(base, next, reqs);
    if forall i :: 0 <= i < |reqs| ==> reqs[i].size <= DMA_SIZE {
      GoodBlocksAreLaid(base, next, reqs);
    }
  }

  lemma {:induction false} AllocAllLength(base: nat, next: nat, reqs: seq<Request>)
    requires next < U64 && (forall i :: 0 <= i < |reqs| ==> reqs[i].alignExp <= 30)
    requires AllocAll(base, next, reqs).Some?
    ensures |AllocAll(base, next, reqs).value| == |reqs|
    decreases reqs
  {
    if reqs != [] {
      AllocAllLength(base, Alloc(base, next, reqs[0].size, reqs[0].alignExp).next, reqs[1..]);
    }
  }

  lemma {:induction false} GoodBlocksAreLaid(base: nat, next: nat, reqs: seq<Request>)
    requires Mapped(base) && base <= next <= base + DMA_SIZE && GoodRequests(base, reqs)
    requires AllocAll(base, next, reqs).Some?
    ensures |AllocAll(base, next, reqs).value| == |reqs|
    ensures Laid(base, next, reqs, AllocAll(base, next, reqs).value)
    decreases reqs
  {
    if reqs != [] {
      var a := Alloc(base, next, reqs[0].size, reqs[0].alignExp);
      FirstFits(base, next, reqs);
      GoodBlocksAreLaid(base, a.next, reqs[1..]);
      LaidCons(base, next, a.next, reqs, a.addr, AllocAll(base, a.next, reqs[1..]).value);
    }
  }

  lemma FirstFits(base: nat, next: nat, reqs: seq<Request>)
    requires Mapped(base) && base <= next <= base + DMA_SIZE && GoodRequests(base, reqs) && reqs != []
    ensures GoodRequests(base, reqs[1..])
    ensures var a := Alloc(base, next, reqs[0].size, reqs[0].alignExp);
            && next <= a.addr < next + Pow2(reqs[0].alignExp) && a.addr % Pow2(reqs[0].alignExp) == 0
            && a.next == a.addr + reqs[0].size && (a.ok <==> a.next <= base + DMA_SIZE)
  {
    assert Reasonable(base, reqs[0].size);
    AllocIsSafe(base, next, reqs[0].size, reqs[0].alignExp);
    AlignUpIs(next, reqs[0].alignExp);
    Pow2Bound(reqs[0].alignExp, 30);
    Pow2Of30();
  }

  lemma LaidCons(base: nat, next: nat, next': nat, reqs: seq<Request>, addr: nat, rest: seq<nat>)
    requires reqs != [] && |rest| == |reqs| - 1 && Laid(base, next', reqs[1..], rest)
    requires addr % Pow2(reqs[0].alignExp) == 0 && next <= addr
    requires next' == addr + reqs[0].size && next' <= base + DMA_SIZE
    ensures Laid(base, next, reqs, [addr] + rest)
  {
    var addrs, tail := [addr] + rest, reqs[1..];
    forall i | 0 <= i < |reqs|
      ensures addrs[i] % Pow2(reqs[i].alignExp) == 0 && next <= addrs[i] && addrs[i] + reqs[i].size <= base + DMA_SIZE
    {
      if i > 0 { assert tail[i - 1] == reqs[i] && addrs[i] == rest[i - 1]; }
    }
    forall i, j | 0 <= i < j < |reqs| ensures addrs[i] + reqs[i].size <= addrs[j] {
      assert tail[j - 1] == reqs[j] && addrs[j] == rest[j - 1];
      if i > 0 { assert tail[i - 1] == reqs[i] && addrs[i] == rest[i - 1]; }
    }
  }

  /** What a sequence of requests needs at most. */
  function Needed(reqs: seq<Request>): nat {
    if reqs == [] then 0 else reqs[0].size + Pow2(reqs[0].alignExp) - 1 + Needed(reqs[1..])
  }

  lemma {:induction false} NeededCovers(reqs: seq<Request>)
    ensures forall i :: 0 <= i < |reqs| ==> reqs[i].size <= Needed(reqs)
    decreases reqs
  {
    if reqs != [] {
      NeededCovers(reqs[1..]);
      forall i | 0 <= i < |reqs| ensures reqs[i].size <= Needed(reqs) {
        if i > 0 { assert reqs[1..][i - 1] == reqs[i]; }
      }
    }
  }

  /** Whatever the order, requests succeed when their sizes and worst-case paddings fit. */
  lemma {:induction false} AllocAllSucceeds(base: nat, next: nat, reqs: seq<Request>)
    requires Mapped(base) && base <= next && next + Needed(reqs) <= base + DMA_SIZE
    requires forall i :: 0 <= i < |reqs| ==> reqs[i].alignExp <= 30
    ensures AllocAll(base, next, reqs).Some?
    decreases reqs
  {
    if reqs != [] {
      NeededCovers(reqs);
      assert GoodRequests(base, reqs);
      FirstFits(base, next, reqs);
      AllocAllSucceeds(base, Alloc(base, next, reqs[0].size, reqs[0].alignExp).next, reqs[1..]);
    }
  }

  // ---------- address translation ----------

  function VaddrToIovaddr(region: nat, offset: nat, a: int): (r: nat)
  {
    (a - region + offset) % U64
  }

  function IovaddrToVaddr(region: nat, offset: nat, a: int): (r: nat)
  {
    (a - offset + region) % U64
  }

  function High(a: nat): nat {
    a / 0x1_0000_0000
  }

  function Low(a: nat): nat {
    a % 0x1_0000_0000
  }

  function Join(high: nat, low: nat): nat {
    high * 0x1_0000_0000 + low
  }

  /** The two translations undo each other on all 64-bit addresses, wherever the region is. */
  lemma TranslationRoundTrip(region: nat, offset: nat, a: nat)
    requires region < U64 && offset < U64 && a < U64
    ensures IovaddrToVaddr(region, offset, VaddrToIovaddr(region, offset, a)) == a
    ensures VaddrToIovaddr(region, offset, IovaddrToVaddr(region, offset, a)) == a
  {
  }

  /** The 32-bit halves stored in a descriptor name the buffer they were made from. */
  lemma HalvesRoundTrip(region: nat, offset: nat, a: nat)
    requires region < U64 && offset < U64 && a < U64
    ensures var v := VaddrToIovaddr(region, offset, a);
            && High(v) < 0x1_0000_0000 && Low(v) < 0x1_0000_0000 && v == High(v) * 0x1_0000_0000 + Low(v)
            && IovaddrToVaddr(region, offset, Join(High(v), Low(v))) == a
  {
    TranslationRoundTrip(region, offset, a);
  }

  /** Addresses of the region are translated into the window the device may use, in order. */
  lemma TranslationInWindow(region: nat, offset: nat, a: nat)
    requires Mapped(region) && region <= a <= region + DMA_SIZE && offset <= 0x100000
    ensures VaddrToIovaddr(region, offset, a) == offset + (a - region) <= offset + DMA_SIZE
  {
  }

  // ---------- the allocator as the program that it is ----------

  class Region {
    const base: nat
    const offset: nat       // DMA_IOVA_OFFSET
    var next: nat           // dma_next_free_addr

    ghost predicate Valid()
      reads this
    {
      Mapped(base) && base <= next <= base + DMA_SIZE && offset <= 0x100000
    }

    constructor (region: nat, iovaOffset: nat)
      requires Mapped(region) && iovaOffset <= 0x100000
      ensures Valid() && base == region && offset == iovaOffset && next == region
    {
      base, offset, next := region, iovaOffset, region;
    }

    /** None stands for "Ran out of space in DMA region". */
    method AllocAligned(size: nat, alignExp: nat) returns (r: Option<nat>)
      requires Valid() && alignExp <= 30 && size < U64
      modifies this
      ensures var a := Alloc(base, old(next), size, alignExp);
              r == (if a.ok then Some(a.addr) else None) && next == a.next
      ensures r.Some? ==> old(next) <= r.value && r.value % Pow2(alignExp) == 0
      ensures r.Some? && r.value + size < U64 ==> Valid() && next == r.value + size
    {
      AllocIsSafe(base, next, size, alignExp);
      AlignUpIs(next, alignExp);
      Pow2Bound(alignExp, 30);
      Pow2Of30();
      var ret := AlignUp(next, alignExp);
      next := (ret + size) % U64;
      if next > (base + DMA_SIZE) % U64 {
        return None;
      }
      r := Some(ret);
    }
  }
}
