/** The descriptor rings that i10e.c and x710.c carve out of the DMA region, and the receive poll. */
module Rings {
  import opened Wrappers
  import opened Powers
  import opened Dma

  const RQ_LEN: nat := 128
  const TQ_LEN: nat := 128
  const DESC_SIZE: nat := 16          // of i10e.c, both directions
  const RX_BUF_SIZE: nat := 2048
  const ADMINQ_SIZE: nat := 128
  const ADMINQ_DESC_SIZE: nat := 32
  const ADMINQ_RQE_BUF_SIZE: nat := 128

  // ---------- blocks of memory ----------

  datatype Block = Block(addr: nat, size: nat)

  predicate Apart(a: Block, b: Block) {
    a.addr + a.size <= b.addr || b.addr + b.size <= a.addr
  }

  predicate Inside(base: nat, a: Block) {
    base <= a.addr && a.addr + a.size <= base + DMA_SIZE
  }

  /** Inside the region, aligned, and no two of them share a byte. */
  ghost predicate Disjoint(base: nat, align: nat, blocks: seq<Block>)
    requires align > 0
  {
    && (forall i :: 0 <= i < |blocks| ==> Inside(base, blocks[i]) && blocks[i].addr % align == 0)
    && (forall i, j :: 0 <= i < j < |blocks| ==> Apart(blocks[i], blocks[j]))
  }

  /** An aligned free pointer is handed out as it is. */
  lemma AllocInPlace(base: nat, next: nat, size: nat, e: nat)
    requires Mapped(base) && base <= next && e <= 30 && next + size <= base + DMA_SIZE
    requires next % Pow2(e) == 0
    ensures Alloc(base, next, size, e) == Allocation(next, next + size, true)
  {
    AllocIsSafe(base, next, size, e);
    AlignUpIs(next, e);
    Pow2Bound(e, 30);
    Pow2Of30();
    SameMultiple(next, AlignUp(next, e), Pow2(e));
  }

  lemma SameMultiple(x: nat, y: nat, p: nat)
    requires p > 0 && x <= y < x + p && x % p == 0 && y % p == 0
    ensures x == y
  {
    DivMul(x, p);
    DivMul(y, p);
    var d := y / p - x / p;
    assert d * p == y - x;
    assert d >= 1 ==> d * p >= p;
    assert d <= -1 ==> d * p <= -1 * p;
  }

  /** `k` requests for receive buffers. */
  function Buffers(k: nat): seq<Request> {
    seq(k, _ => Request(RX_BUF_SIZE, 7))
  }

  /** A fresh region has room for 32768 receive buffers of 2048 bytes, and for no more. */
  lemma RegionHolds(base: nat, k: nat)
    requires Mapped(base) && base % 128 == 0
    ensures AllocAll(base, base, Buffers(k)).Some? <==> k <= 32768
  {
    RestHolds(base, 0, k);
  }

  lemma {:induction false} RestHolds(base: nat, i: nat, k: nat)
    requires Mapped(base) && base % 128 == 0 && i <= 32768
    ensures AllocAll(base, base + 2048 * i, Buffers(k)).Some? <==> i + k <= 32768
    decreases k
  {
    if k > 0 {
      Pow2Of7();
      assert Buffers(k)[0] == Request(RX_BUF_SIZE, 7) && Buffers(k)[1..] == Buffers(k - 1);
      if i < 32768 {
        AllocInPlace(base, base + 2048 * i, RX_BUF_SIZE, 7);
        RestHolds(base, i + 1, k - 1);
      } else {
        AllocIsSafe(base, base + 2048 * i, RX_BUF_SIZE, 7);
      }
    }
  }

  // ---------- i10e.c ----------

  datatype RxDesc = RxDesc(bufferAddress: nat, length: nat, checksum: nat, status: nat, errors: nat, vlanTag: nat)

  /** The buffer a descriptor points at, as `rq_poll_once` finds it. */
  function RxBuffer(base: nat, offset: nat, d: RxDesc): Block {
    Block(IovaddrToVaddr(base, offset, d.bufferAddress), RX_BUF_SIZE)
  }

  /** Both rings and the buffers that the receive descriptors point at. */
  function RxBlocks(base: nat, offset: nat, rq: nat, tq: nat, descs: seq<RxDesc>): (b: seq<Block>)
    ensures |b| == |descs| + 2
  {
    [Block(rq, DESC_SIZE * RQ_LEN), Block(tq, DESC_SIZE * TQ_LEN)]
    + seq(|descs|, i requires 0 <= i < |descs| => RxBuffer(base, offset, descs[i]))
  }

  lemma Pow2Of7()
    ensures Pow2(7) == 128 && Pow2(6) == 64 && Pow2(0) == 1
  {
    assert Pow2(4) == 16;
    assert Pow2(7) == 8 * Pow2(4);
  }

  /** Clean and handed to the device with the translated address of the buffer at `addr`. */
  predicate Points(base: nat, offset: nat, d: RxDesc, addr: nat) {
    d == RxDesc(VaddrToIovaddr(base, offset, addr), 0, 0, 0, 0, 0)
  }

  lemma RxBufferIs(base: nat, offset: nat, d: RxDesc, addr: nat)
    requires base < U64 && offset < U64 && addr < U64 && Points(base, offset, d, addr)
    ensures RxBuffer(base, offset, d) == Block(addr, RX_BUF_SIZE)
  {
    TranslationRoundTrip(base, offset, addr);
  }

  lemma Shift128(x: nat, k: nat)
    requires x % 128 == 0
    ensures (x + 128 * k) % 128 == 0
  {
  }

  lemma RxRingsAreDisjoint(base: nat, offset: nat, start: nat, descs: seq<RxDesc>)
    requires Mapped(base) && base <= start && start % 128 == 0 && start + 130 * 2048 <= base + DMA_SIZE
    requires offset < U64
    requires |descs| == RQ_LEN && forall i :: 0 <= i < RQ_LEN ==> Points(base, offset, descs[i], start + 2048 * (i + 1))
    ensures Disjoint(base, 128, RxBlocks(base, offset, start, start + 129 * 2048, descs))
  {
    var blocks := RxBlocks(base, offset, start, start + 129 * 2048, descs);
    Shift128(start, 16 * 129);
    forall i | 2 <= i < |blocks|
      ensures blocks[i] == Block(start + 2048 * (i - 1), 2048) && blocks[i].addr % 128 == 0
    {
      RxBufferIs(base, offset, descs[i - 2], start + 2048 * (i - 1));
      Shift128(start, 16 * (i - 1));
    }
  }

  /** RX and TX ring set-up of `init_i10e`. `ring` is the memory of the receive ring; None stands for an
      exhausted region, which the set-up never meets. */
  method InitRings(m: Region, ring: array<RxDesc>) returns (r: Option<(nat, nat)>)
    requires m.Valid() && m.next % 128 == 0 && m.next + 130 * 2048 <= m.base + DMA_SIZE
    requires ring.Length == RQ_LEN
    modifies m, ring
    ensures m.Valid() && r == Some((old(m.next), old(m.next) + 129 * 2048)) && m.next == old(m.next) + 130 * 2048
    ensures forall i :: 0 <= i < RQ_LEN ==> Points(m.base, m.offset, ring[i], old(m.next) + 2048 * (i + 1))
    ensures Disjoint(m.base, 128, RxBlocks(m.base, m.offset, r.value.0, r.value.1, ring[..]))
  {
    ghost var start := m.next;
    Pow2Of7();
    AllocInPlace(m.base, m.next, DESC_SIZE * RQ_LEN, 7);
    var rq := m.AllocAligned(DESC_SIZE * RQ_LEN, 7);
    if rq.None? { return None; }
    for i := 0 to RQ_LEN
      invariant m.Valid() && m.next == start + 2048 * (i + 1)
      invariant forall j :: 0 <= j < i ==> Points(m.base, m.offset, ring[j], start + 2048 * (j + 1))
    {
      AllocInPlace(m.base, m.next, RX_BUF_SIZE, 7);
      var buf := m.AllocAligned(RX_BUF_SIZE, 7);
      if buf.None? { return None; }
      ring[i] := RxDesc(VaddrToIovaddr(m.base, m.offset, buf.value), 0, 0, 0, 0, 0);
    }
    AllocInPlace(m.base, m.next, DESC_SIZE * TQ_LEN, 7);
    var tq := m.AllocAligned(DESC_SIZE * TQ_LEN, 7);
    if tq.None? { return None; }
    RxRingsAreDisjoint(m.base, m.offset, start, ring[..]);
    r := Some((rq.value, tq.value));
  }

  // ---------- rq_poll_once ----------

  /** The descriptor after `i` in the ring. */
  function After(i: nat): nat {
    if i % RQ_LEN == RQ_LEN - 1 then 0 else i % RQ_LEN + 1
  }

  /** `j` descriptors further. */
  function Steps(i: nat, j: nat): nat {
    if j == 0 then i else After(Steps(i, j - 1))
  }

  /** Going round the ring from the tail, `i` comes before the head: the device has filled it and the driver
      has not prepared it again. */
  ghost predicate Received(rdh: nat, rdt: nat, i: nat) {
    exists j :: 1 <= j && Steps(rdt, j) == i && HeadIsFurther(rdh, rdt, j)
  }

  ghost predicate HeadIsFurther(rdh: nat, rdt: nat, j: nat) {
    forall m :: 1 <= m <= j ==> Steps(rdt, m) != rdh
  }

  /** Once round the ring, from the first descriptor after the tail. */
  lemma {:induction false} StepsAre(i: nat, j: nat)
    requires 1 <= j <= RQ_LEN
    ensures var p := (i + 1) % RQ_LEN;
            Steps(i, j) == if p + j - 1 < RQ_LEN then p + j - 1 else p + j - 1 - RQ_LEN
    decreases j
  {
    if j > 1 { StepsAre(i, j - 1); }
    assert Steps(i, 0) == i;
  }

  /** How many steps it is from `p` on to `i`. */
  function Ahead(p: nat, i: nat): nat
    requires p < RQ_LEN
  {
    if p <= i then i - p else i + RQ_LEN - p
  }

  /** The received descriptors are those nearer to the first one after the tail than the head is. */
  lemma ReceivedIs(rdh: nat, rdt: nat, i: nat)
    requires rdh < RQ_LEN
    ensures Received(rdh, rdt, i) <==>
            i < RQ_LEN && Ahead((rdt + 1) % RQ_LEN, i) < Ahead((rdt + 1) % RQ_LEN, rdh)
  {
    var p := (rdt + 1) % RQ_LEN;
    StepsAre(rdt, Ahead(p, rdh) + 1);
    if Received(rdh, rdt, i) {
      var j :| 1 <= j && Steps(rdt, j) == i && HeadIsFurther(rdh, rdt, j);
      assert j <= Ahead(p, rdh);
      StepsAre(rdt, j);
    }
    if i < RQ_LEN && Ahead(p, i) < Ahead(p, rdh) {
      StepsAre(rdt, Ahead(p, i) + 1);
      forall m | 1 <= m <= Ahead(p, i) + 1 ensures Steps(rdt, m) != rdh {
        StepsAre(rdt, m);
      }
      assert HeadIsFurther(rdh, rdt, Ahead(p, i) + 1);
    }
  }

  /** `seen` holds the addresses printed by `rq_poll_once`, `visited` the descriptors it looked at. */
  method PollOnce(base: nat, offset: nat, ring: array<RxDesc>, rdh: nat, rdt: nat)
    returns (seen: seq<nat>, visited: seq<nat>)
    requires ring.Length == RQ_LEN && rdh < RQ_LEN
    ensures |seen| == |visited|
    ensures forall k :: 0 <= k < |seen| ==>
              Received(rdh, rdt, visited[k]) && seen[k] == RxBuffer(base, offset, ring[visited[k]]).addr
    ensures forall k :: 0 <= k < |visited| ==> visited[k] == (rdt + 1) % RQ_LEN + k
    ensures |visited| == if (rdt + 1) % RQ_LEN <= rdh then rdh - (rdt + 1) % RQ_LEN else 0
    ensures rdt == RQ_LEN - 1 ==> |visited| == rdh && forall k :: 0 <= k < rdh ==> visited[k] == k
  {
    seen, visited := [], [];
    var i := (rdt + 1) % RQ_LEN;
    while i < rdh
      invariant |visited| == |seen| && i == (rdt + 1) % RQ_LEN + |seen| && (seen != [] ==> i <= rdh)
      invariant forall k :: 0 <= k < |seen| ==>
                  && visited[k] == (rdt + 1) % RQ_LEN + k && Received(rdh, rdt, visited[k])
                  && seen[k] == RxBuffer(base, offset, ring[visited[k]]).addr
      decreases rdh - i
    {
      ReceivedIs(rdh, rdt, i);
      seen := seen + [IovaddrToVaddr(base, offset, ring[i].bufferAddress)];
      visited := visited + [i];
      i := (i + 1) % RQ_LEN;
    }
  }

  /** The descriptors the poll looks at are received ones, and all of them exactly when the window of received
      descriptors does not wrap round the end of the ring; after set-up, when the tail is the last
      descriptor, it never does. */
  lemma PollCoversIff(rdh: nat, rdt: nat)
    requires rdh < RQ_LEN
    ensures forall i: nat :: (rdt + 1) % RQ_LEN <= i < rdh ==> Received(rdh, rdt, i)
    ensures (forall i: nat :: Received(rdh, rdt, i) ==> (rdt + 1) % RQ_LEN <= i < rdh)
            <==> (rdt + 1) % RQ_LEN <= rdh
    ensures rdt == RQ_LEN - 1 ==> forall i: nat :: Received(rdh, rdt, i) <==> i < rdh
  {
    var p := (rdt + 1) % RQ_LEN;
    forall i: nat
      ensures Received(rdh, rdt, i) <==> i < RQ_LEN && Ahead(p, i) < Ahead(p, rdh)
    {
      ReceivedIs(rdh, rdt, i);
    }
    if p > rdh {
      assert Received(rdh, rdt, p);
    }
  }

  // ---------- x710.c ----------

  datatype AdminFlags = AdminFlags(
    dd: bool, cmp: bool, err: bool, vfe: bool, reserved: nat, lb: bool, rd: bool, vfc: bool, buf: bool, si: bool,
    ei: bool, fe: bool)

  datatype AdminDesc = AdminDesc(
    flags: AdminFlags, opcode: nat, datalen: nat, returnValue: nat, cookieHigh: nat, cookieLow: nat,
    param0: nat, param1: nat, addressHigh: nat, addressLow: nat)

  /** What `memset` leaves. */
  const NO_FLAGS := AdminFlags(false, false, false, false, 0, false, false, false, false, false, false, false)
  const CLEAR_DESC := AdminDesc(NO_FLAGS, 0, 0, 0, 0, 0, 0, 0, 0, 0)

  function AdminBuffer(base: nat, offset: nat, d: AdminDesc): Block {
    Block(IovaddrToVaddr(base, offset, Join(d.addressHigh, d.addressLow)), d.datalen)
  }

  function AdminBlocks(base: nat, offset: nat, tq: nat, rq: nat, descs: seq<AdminDesc>): (b: seq<Block>)
    ensures |b| == |descs| + 2
  {
    [Block(tq, ADMINQ_DESC_SIZE * ADMINQ_SIZE), Block(rq, ADMINQ_DESC_SIZE * ADMINQ_SIZE)]
    + seq(|descs|, i requires 0 <= i < |descs| => AdminBuffer(base, offset, descs[i]))
  }

  /** Clean except for the buffer: its flag, its size and both halves of its translated address. */
  predicate AdminPoints(base: nat, offset: nat, d: AdminDesc, addr: nat) {
    && d.flags.buf && d.flags.(buf := false) == NO_FLAGS
    && d.opcode == d.returnValue == d.cookieHigh == d.cookieLow == d.param0 == d.param1 == 0
    && d.datalen == ADMINQ_RQE_BUF_SIZE
    && d.addressHigh == High(VaddrToIovaddr(base, offset, addr))
    && d.addressLow == Low(VaddrToIovaddr(base, offset, addr))
  }

  lemma AdminBufferIs(base: nat, offset: nat, d: AdminDesc, addr: nat)
    requires base < U64 && offset < U64 && addr < U64 && AdminPoints(base, offset, d, addr)
    ensures AdminBuffer(base, offset, d) == Block(addr, ADMINQ_RQE_BUF_SIZE)
  {
    HalvesRoundTrip(base, offset, addr);
  }

  lemma Shift64(x: nat, k: nat)
    requires x % 64 == 0
    ensures (x + 64 * k) % 64 == 0
  {
  }

  /** Where the queues and buffers of `adminq_init` lie. */
  function AdminBlockAt(start: nat, i: nat): Block {
    if i < 2 then Block(start + 4096 * i, 4096) else Block(start + 8192 + 128 * (i - 2), 128)
  }

  lemma AdminBlockFits(base: nat, start: nat, i: nat)
    requires base <= start && start % 64 == 0 && start + 8192 + 128 * 128 <= base + DMA_SIZE && i < 130
    ensures Inside(base, AdminBlockAt(start, i)) && AdminBlockAt(start, i).addr % 64 == 0
  {
    Shift64(start, if i < 2 then 64 * i else 128 + 2 * (i - 2));
  }

  lemma AdminBlocksApart(start: nat, i: nat, j: nat)
    requires i < j
    ensures Apart(AdminBlockAt(start, i), AdminBlockAt(start, j))
  {
  }

  lemma AdminRingsAreDisjoint(base: nat, offset: nat, start: nat, descs: seq<AdminDesc>)
    requires Mapped(base) && base <= start && start % 64 == 0 && start + 8192 + 128 * 128 <= base + DMA_SIZE
    requires offset < U64
    requires |descs| == ADMINQ_SIZE
    requires forall i :: 0 <= i < ADMINQ_SIZE ==> AdminPoints(base, offset, descs[i], start + 8192 + 128 * i)
    ensures Disjoint(base, 64, AdminBlocks(base, offset, start, start + 4096, descs))
  {
    var blocks := AdminBlocks(base, offset, start, start + 4096, descs);
    forall i | 0 <= i < |blocks| ensures blocks[i] == AdminBlockAt(start, i) {
      if i >= 2 { AdminBufferIs(base, offset, descs[i - 2], start + 8192 + 128 * (i - 2)); }
    }
    forall i | 0 <= i < |blocks| ensures Inside(base, blocks[i]) && blocks[i].addr % 64 == 0 {
      AdminBlockFits(base, start, i);
    }
    forall i, j | 0 <= i < j < |blocks| ensures Apart(blocks[i], blocks[j]) {
      AdminBlocksApart(start, i, j);
    }
  }

  /** The allocations and the descriptor loop of `adminq_init`; the result is the two queues' addresses. */
  method AdminqInit(m: Region, ring: array<AdminDesc>) returns (r: Option<(nat, nat)>)
    requires m.Valid() && m.next % 64 == 0 && m.next + 8192 + 128 * 128 <= m.base + DMA_SIZE
    requires ring.Length == ADMINQ_SIZE
    modifies m, ring
    ensures m.Valid() && r == Some((old(m.next), old(m.next) + 4096)) && m.next == old(m.next) + 8192 + 128 * 128
    ensures forall i :: 0 <= i < ADMINQ_SIZE ==>
              AdminPoints(m.base, m.offset, ring[i], old(m.next) + 8192 + 128 * i)
    ensures Disjoint(m.base, 64, AdminBlocks(m.base, m.offset, r.value.0, r.value.1, ring[..]))
  {
    ghost var start := m.next;
    Pow2Of7();
    AllocInPlace(m.base, m.next, ADMINQ_DESC_SIZE * ADMINQ_SIZE, 6);
    var tq := m.AllocAligned(ADMINQ_DESC_SIZE * ADMINQ_SIZE, 6);
    if tq.None? { return None; }
    AllocInPlace(m.base, m.next, ADMINQ_DESC_SIZE * ADMINQ_SIZE, 6);
    var rq := m.AllocAligned(ADMINQ_DESC_SIZE * ADMINQ_SIZE, 6);
    if rq.None? { return None; }
    for i := 0 to ADMINQ_SIZE
      invariant m.Valid() && m.next == start + 8192 + 128 * i
      invariant forall j :: 0 <= j < i ==> AdminPoints(m.base, m.offset, ring[j], start + 8192 + 128 * j)
    {
      var d := CLEAR_DESC;
      d := d.(flags := d.flags.(buf := true), datalen := ADMINQ_RQE_BUF_SIZE);
      AllocInPlace(m.base, m.next, ADMINQ_RQE_BUF_SIZE, 0);
      var buf := m.AllocAligned(ADMINQ_RQE_BUF_SIZE, 0);
      if buf.None? { return None; }
      var v := VaddrToIovaddr(m.base, m.offset, buf.value);
      ring[i] := d.(addressHigh := High(v), addressLow := Low(v));
    }
    AdminRingsAreDisjoint(m.base, m.offset, start, ring[..]);
    r := Some((tq.value, rq.value));
  }
}
