/** The gbmem allocator object: pools of linked free blocks kept in the memory they manage, block headers, and
    the statistics. GbHeap says what its operations mean. */
module Gbmem {
  import opened Wrappers
  import opened GbHeap

  const TWO_TO_32: nat := 0x1_0000_0000
  const TWO_TO_64: nat := 0x1_0000_0000_0000_0000

  /** sizeof(bdl_t) + sizeof(memtrace_t). */
  const HEADER: nat := 8

  /** The first eight bytes of a unit: a free-list link, or the trace number and the length of a client block,
      or zeros, or whatever the client wrote. */
  datatype Word = Link(next: Option<Addr>) | Header(trace: nat, blocks: nat) | Zeroed | Client(value: int)

  /** One smallest block of memory: its first eight bytes, and the rest of it. */
  datatype Unit = Unit(head: Word, body: int)

  const ZERO := Unit(Zeroed, 0)

  function Pow2(k: nat): (r: nat)
    ensures r > 0
  {
    if k == 0 then 1 else 2 * Pow2(k - 1)
  }

  // Startup arithmetic.

  datatype Startup =
    | MinBlockTooSmall | MaxBlockNotMultiple | SuperblockNotMultiple | ChunkIsZero
    | Started(cfg: Config)

  /** The checks of gbmem_startup and the sizes it derives; `chunk` is a 32-bit number. */
  function Derive(minBlock: nat, maxBlock: nat, superblock: nat, maxSystem: nat): (r: Startup) {
    if minBlock < HEADER then MinBlockTooSmall
    else if maxBlock % minBlock != 0 then MaxBlockNotMultiple
    else if superblock % minBlock != 0 then SuperblockNotMultiple
    else
      var chunk := (superblock / minBlock) % TWO_TO_32;
      if chunk == 0 then ChunkIsZero
      else Started(Config(minBlock, maxBlock, maxBlock / minBlock, chunk, maxSystem / superblock))
  }

  /** What startup accepts, and exactly how much: blocks that fill the largest block, blocks that fill a superblock as
      far as 32 bits count them, and as many superblocks as the system memory holds. */
  lemma DeriveIs(minBlock: nat, maxBlock: nat, superblock: nat, maxSystem: nat)
    ensures var s := Derive(minBlock, maxBlock, superblock, maxSystem);
            && (s.Started? <==>
                  minBlock >= 8 && maxBlock % minBlock == 0 && superblock % minBlock == 0
                  && superblock / minBlock % 0x1_0000_0000 != 0)
            && (s.Started? ==>
                  && s.cfg.minBlock == minBlock && s.cfg.maxBlock == maxBlock && s.cfg.poolSize * minBlock == maxBlock
                  && 0 < s.cfg.chunk < 0x1_0000_0000
                  && (superblock < minBlock * 0x1_0000_0000 ==> s.cfg.chunk * minBlock == superblock)
                  && s.cfg.maxSb * superblock <= maxSystem < (s.cfg.maxSb + 1) * superblock)
  {
    var s := Derive(minBlock, maxBlock, superblock, maxSystem);
    if s.Started? {
      Divided(maxBlock, minBlock);
      Divided(superblock, minBlock);
      Divided(maxSystem, superblock);
      if superblock < minBlock * TWO_TO_32 {
        StepUp(TWO_TO_32, superblock / minBlock, minBlock);
      }
    }
  }

  lemma Divided(n: nat, d: nat)
    requires 0 < d
    ensures n / d * d <= n < (n / d + 1) * d && (n % d == 0 ==> n / d * d == n)
  {
    assert n == n / d * d + n % d;
    assert (n / d + 1) * d == n / d * d + d;
  }

  /** The sizes gbmem_startup derives never promise more than the configured system memory. */
  lemma WithinSystemMemory(minBlock: nat, maxBlock: nat, superblock: nat, maxSystem: nat, sbs: nat)
    requires Derive(minBlock, maxBlock, superblock, maxSystem).Started?
    requires sbs <= Derive(minBlock, maxBlock, superblock, maxSystem).cfg.maxSb
    ensures sbs * (Derive(minBlock, maxBlock, superblock, maxSystem).cfg.chunk * minBlock) <= maxSystem
  {
    var cfg := Derive(minBlock, maxBlock, superblock, maxSystem).cfg;
    QuotientTimes(superblock, minBlock);
    QuotientTimes(maxSystem, superblock);
    TimesLe(cfg.chunk, superblock / minBlock, minBlock);
    TimesLe(sbs, maxSystem / superblock, superblock);
    TimesLe(cfg.chunk * minBlock, superblock, sbs);
  }

  lemma QuotientTimes(a: nat, b: nat)
    requires 0 < b
    ensures a / b * b <= a
  {
  }

  lemma TimesLe(a: nat, b: nat, c: nat)
    requires a <= b
    ensures a * c <= b * c && c * a <= c * b
  {
  }

  /** The loop that finds `shift`: how many doublings make the block size. */
  method ComputeShift(blockSize: nat, ghost k: nat) returns (shift: nat)
    requires blockSize == Pow2(k) && 1 <= k
    ensures Pow2(shift) == blockSize
  {
    shift := 1;
    var t := 2;
    while t != blockSize
      invariant 1 <= shift <= k && t == Pow2(shift)
      decreases k - shift
    {
      shift := shift + 1;
      t := t * 2;
    }
  }

  // Requests.

  /** BytesToBlocks, with its 32-bit result. */
  function BytesToBlocks(cfg: Config, shift: nat, size: nat): nat {
    (size + cfg.minBlock - 1) / Pow2(shift) % TWO_TO_32
  }

  /** The units gbmem_malloc looks for, or none when it answers NULL; the header is added in 64-bit arithmetic. */
  function Request(cfg: Config, shift: nat, size: nat): Option<nat>
    requires cfg.minBlock > 0
  {
    var total := (size + HEADER) % TWO_TO_64;
    if size == 0 || total > cfg.maxBlock then None
    else
      var blocks := BytesToBlocks(cfg, shift, total);
      if blocks > cfg.poolSize || blocks == 0 then None else Some(blocks)
  }

  /** The units memset clears: BlocksToBytes shifts a 32-bit number. */
  function ClearedUnits(cfg: Config, blocks: nat): nat
    requires cfg.minBlock > 0
  {
    blocks * cfg.minBlock % TWO_TO_32 / cfg.minBlock
  }

  /** A new block is cleared as far as it was asked for exactly when its length in bytes fits 32 bits, and else as far
      as these say. */
  lemma ClearsAll(cfg: Config, blocks: nat)
    requires cfg.minBlock > 0
    ensures var n := ClearedUnits(cfg, blocks);
            n * cfg.minBlock <= blocks * cfg.minBlock % 0x1_0000_0000 < (n + 1) * cfg.minBlock
    ensures ClearedUnits(cfg, blocks) <= blocks
    ensures ClearedUnits(cfg, blocks) == blocks <==> blocks * cfg.minBlock < TWO_TO_32
  {
    var bytes := blocks * cfg.minBlock;
    var left := bytes % TWO_TO_32;
    assert left <= bytes && (left == bytes <==> bytes < TWO_TO_32);
    Divided(left, cfg.minBlock);
    QuotientOf(left, blocks, cfg.minBlock);
  }

  /** Startup accepts sizes with a block of 2^32 bytes: it is given, and nothing of it is cleared. */
  lemma WideBlock()
    ensures var s := Derive(8, TWO_TO_32, TWO_TO_32, 2 * TWO_TO_32);
            && s.Started? && SizesOk(s.cfg, 3)
            && Request(s.cfg, 3, TWO_TO_32 - HEADER) == Some(TWO_TO_32 / 8)
            && ClearedUnits(s.cfg, TWO_TO_32 / 8) == 0
  {
    assert Pow2(1) == 2 && Pow2(2) == 4 && Pow2(3) == 8;
    var s := Derive(8, TWO_TO_32, TWO_TO_32, 2 * TWO_TO_32);
    assert (TWO_TO_32 - HEADER + HEADER) % TWO_TO_64 == TWO_TO_32;
    assert BytesToBlocks(s.cfg, 3, TWO_TO_32) == TWO_TO_32 / 8;
  }

  lemma QuotientOf(a: nat, q: nat, unit: nat)
    requires 0 < unit && a <= q * unit
    ensures a / unit <= q && (a / unit == q <==> a == q * unit)
  {
    var n := a / unit;
    assert n * unit <= a < n * unit + unit;
    StepUp(q, n, unit);
    StepUp(n, q, unit);
  }

  lemma StepUp(a: nat, b: nat, unit: nat)
    ensures a < b ==> a * unit + unit <= b * unit
  {
    if a < b {
      TimesLe(a + 1, b, unit);
    }
  }

  predicate SizesOk(cfg: Config, shift: nat) {
    && ConfigOk(cfg) && cfg.minBlock == Pow2(shift) && HEADER <= cfg.minBlock
    && cfg.maxBlock == cfg.poolSize * cfg.minBlock && cfg.maxBlock < TWO_TO_64 && cfg.chunk < TWO_TO_32
  }

  /** Startup leaves sizes the allocator can work with when the smallest block is a power of two and a superblock
      holds the largest block. */
  lemma DerivedSizes(minBlock: nat, maxBlock: nat, superblock: nat, maxSystem: nat, shift: nat)
    requires Derive(minBlock, maxBlock, superblock, maxSystem).Started?
    requires minBlock == Pow2(shift) && maxBlock <= superblock && maxBlock < TWO_TO_64
    requires superblock / minBlock < TWO_TO_32
    ensures SizesOk(Derive(minBlock, maxBlock, superblock, maxSystem).cfg, shift)
  {
    hide Pow2;
    assert maxBlock == maxBlock / minBlock * minBlock;
    assert superblock == superblock / minBlock * minBlock;
    StepUp(superblock / minBlock, maxBlock / minBlock, minBlock);
  }

  lemma PositiveUnit(cfg: Config, shift: nat)
    requires SizesOk(cfg, shift)
    ensures cfg.minBlock > 0
  {
  }

  lemma CeilDiv(n: nat, d: nat, limit: nat)
    requires 0 < d && n <= limit * d
    ensures var q := (n + d - 1) / d;
            n <= q * d < n + d && q <= limit
  {
    var q := (n + d - 1) / d;
    assert q * d <= n + d - 1 < q * d + d;
    StepUp(limit, q, d);
  }

  lemma BlocksAre(cfg: Config, shift: nat, total: nat)
    requires SizesOk(cfg, shift) && 0 < total <= cfg.maxBlock
    ensures var q := BytesToBlocks(cfg, shift, total);
            && total <= q * cfg.minBlock < total + cfg.minBlock && 1 <= q <= cfg.poolSize
            && (total <= cfg.minBlock ==> q == 1)
  {
    hide Pow2;
    var q := (total + cfg.minBlock - 1) / cfg.minBlock;
    CeilDiv(total, cfg.minBlock, cfg.poolSize);
    StepUp(1, q, cfg.minBlock);
  }

  /** Without a wrap around 64 bits a request gets the fewest units that hold it and its header, or NULL exactly when
      that is more than the largest block; one whose sum wraps gets NULL when nothing is left of it, else one unit. */
  lemma RequestIs(cfg: Config, shift: nat, size: nat)
    requires SizesOk(cfg, shift) && 0 < size < TWO_TO_64
    ensures var r := Request(cfg, shift, size);
            if size + HEADER < TWO_TO_64 then
              && (r.None? <==> size + HEADER > cfg.maxBlock)
              && (r.Some? ==> size + HEADER <= r.value * cfg.minBlock < size + HEADER + cfg.minBlock
                              && 1 <= r.value <= cfg.poolSize)
            else r == if size + HEADER == TWO_TO_64 || cfg.poolSize == 0 then None else Some(1)
  {
    hide BytesToBlocks, Pow2;
    var total := (size + HEADER) % TWO_TO_64;
    if size + HEADER >= TWO_TO_64 {
      assert total == size + HEADER - TWO_TO_64 < HEADER;
      NoBlocks(cfg, shift);
      OneUnit(cfg);
    }
    if 0 < total <= cfg.maxBlock {
      BlocksAre(cfg, shift, total);
    }
  }

  lemma OneUnit(cfg: Config)
    ensures 0 < cfg.poolSize ==> cfg.minBlock <= cfg.poolSize * cfg.minBlock
  {
    if 0 < cfg.poolSize {
      TimesLe(1, cfg.poolSize, cfg.minBlock);
    }
  }

  /** A request gets units that do not hold it and its header exactly when their sum is more than 2^64 and there is
      a pool to serve it from. */
  lemma RequestHolds(cfg: Config, shift: nat, size: nat)
    requires SizesOk(cfg, shift) && 0 < size < TWO_TO_64
    ensures var r := Request(cfg, shift, size);
            r.Some? && r.value * cfg.minBlock < size + HEADER <==> size + HEADER > TWO_TO_64 && 1 <= cfg.poolSize
  {
    hide Request, Pow2;
    RequestIs(cfg, shift, size);
    OneUnit(cfg);
  }

  /** The smallest such request, with one pool of the smallest blocks. */
  lemma WrappedRequest()
    ensures var s := Derive(8, 8, 8, 8);
            s.Started? && SizesOk(s.cfg, 3) && Request(s.cfg, 3, TWO_TO_64 - 7) == Some(1)
  {
    var s := Derive(8, 8, 8, 8);
    assert Pow2(3) == 8 by {
      assert Pow2(1) == 2;
    }
    RequestIs(s.cfg, 3, TWO_TO_64 - 7);
  }

  /** A request that makes alloc_superblock take a new superblock finds room in it. */
  predicate FitsNewTail(cfg: Config, h: Heap, blocks: nat)
    requires h.avail <= |h.free| && h.avail <= cfg.chunk && 0 < h.sbs
  {
    h.avail < blocks <= cfg.poolSize ==> blocks <= Grow(cfg, h).avail
  }

  /** Startup does not check that a superblock holds the largest block: exactly when it does, the tail of a new
      superblock is long enough for every request. */
  lemma NewTailFits(cfg: Config, h: Heap)
    requires |h.free| == cfg.poolSize && h.avail <= cfg.poolSize && h.avail <= cfg.chunk && 0 < h.sbs && 0 < cfg.chunk
    ensures (forall blocks: nat :: FitsNewTail(cfg, h, blocks)) <==> ConfigOk(cfg)
  {
    if cfg.poolSize > cfg.chunk {
      assert !FitsNewTail(cfg, h, cfg.poolSize);
    }
  }

  lemma ShortSuperblockStarts()
    ensures var s := Derive(8, 32, 16, 64);
            s.Started? && !ConfigOk(s.cfg)
  {
  }

  lemma NoBlocks(cfg: Config, shift: nat)
    requires SizesOk(cfg, shift)
    ensures BytesToBlocks(cfg, shift, 0) == 0
  {
    hide Pow2;
    assert (cfg.minBlock - 1) / cfg.minBlock == 0;
  }

  // Memory.

  /** `list` is the linked list from `head` through `mem`. */
  ghost predicate Chain(mem: map<Addr, Unit>, head: Option<Addr>, list: seq<Addr>)
    decreases list
  {
    if list == [] then head == None
    else
      && head == Some(list[0]) && list[0] in mem && mem[list[0]].head.Link?
      && Chain(mem, mem[list[0]].head.next, list[1..])
  }

  lemma {:induction false} ChainFrame(mem: map<Addr, Unit>, mem': map<Addr, Unit>, head: Option<Addr>, list: seq<Addr>)
    requires Chain(mem, head, list)
    requires forall a <- list :: a in mem ==> a in mem' && mem'[a] == mem[a]
    ensures Chain(mem', head, list)
    decreases list
  {
    if list != [] {
      ChainFrame(mem, mem', mem[list[0]].head.next, list[1..]);
    }
  }

  predicate Headed(mem: map<Addr, Unit>, a: Addr, n: nat) {
    a in mem && mem[a].head.Header? && mem[a].head.blocks == n
  }

  /** The pools, their sizes and the memory hold the heap `h`; the header of `but` may be missing. */
  ghost predicate Holds(cfg: Config, h: Heap, pool: seq<Option<Addr>>, sizes: seq<nat>, mem: map<Addr, Unit>,
                        but: Option<Addr>)
  {
    && |pool| == |sizes| == |h.free| == cfg.poolSize
    && (forall i :: 0 <= i < |pool| ==> Chain(mem, pool[i], h.free[i]))
    && (forall i :: 0 <= i < |pool| ==> sizes[i] == |h.free[i]|)
    && (forall a <- h.live :: Some(a) != but ==> Headed(mem, a, h.live[a]))
    && (forall c: Addr :: c.sb < h.sbs && c.off < cfg.chunk ==> c in mem)
  }

  function Range(a: Addr, n: nat): Block { Block(Live, a, n) }

  /** memset(a, 0, n units), then the trace number and the length. */
  function Claim(mem: map<Addr, Unit>, a: Addr, n: nat, trace: nat, blocks: nat): (r: map<Addr, Unit>) {
    var zeroed := map c | c in mem :: if Covers(Range(a, n), c) then ZERO else mem[c];
    if a in mem then zeroed[a := zeroed[a].(head := Header(trace, blocks))] else zeroed
  }

  lemma FreeOutside(cfg: Config, h: Heap, a: Addr, i: nat, f: Addr)
    requires HeapOk(cfg, h) && a in h.live && i < |h.free| && f in h.free[i]
    ensures !Covers(Range(a, h.live[a]), f) && f != a
  {
    HeapShape(cfg, h);
    hide HeapOk, InBounds, AllCovered;
    var b, c := Block(Live, a, h.live[a]), Block(Free, f, i + 1);
    assert Has(cfg, h, b) && Has(cfg, h, c);
    assert Apart(b, c);
  }

  lemma LiveInMemory(cfg: Config, h: Heap, a: Addr)
    requires HeapOk(cfg, h) && a in h.live
    ensures a.sb < h.sbs && a.off + h.live[a] <= cfg.chunk && 1 <= h.live[a]
  {
    HeapShape(cfg, h);
    hide HeapOk, Disjoint, AllCovered;
    assert Has(cfg, h, Block(Live, a, h.live[a]));
  }

  /** Claiming a live block's memory makes its header good and touches no other block. */
  lemma ClaimHolds(cfg: Config, h: Heap, pool: seq<Option<Addr>>, sizes: seq<nat>, mem: map<Addr, Unit>,
                   a: Addr, n: nat, trace: nat)
    requires HeapOk(cfg, h) && a in h.live && n <= h.live[a]
    requires Holds(cfg, h, pool, sizes, mem, Some(a))
    ensures Holds(cfg, h, pool, sizes, Claim(mem, a, n, trace, h.live[a]), None)
    ensures a in mem
    ensures Claim(mem, a, n, trace, h.live[a])[a].head == Header(trace, h.live[a])
  {
    LiveInMemory(cfg, h, a);
    HeapShape(cfg, h);
    hide HeapOk, Partition;
    var mem' := Claim(mem, a, n, trace, h.live[a]);
    forall i | 0 <= i < |pool|
      ensures Chain(mem', pool[i], h.free[i])
    {
      forall f <- h.free[i]
        ensures f in mem ==> f in mem' && mem'[f] == mem[f]
      {
        FreeOutside(cfg, h, a, i, f);
      }
      ChainFrame(mem, mem', pool[i], h.free[i]);
    }
    forall b <- h.live
      ensures Headed(mem', b, h.live[b])
    {
      if b != a {
        LiveApart(cfg, h, a, b);
        LiveInMemory(cfg, h, b);
      }
    }
  }

  /** The units of the blocks in `live` are the same in both memories. */
  ghost predicate SamePayload(live: map<Addr, nat>, mem: map<Addr, Unit>, mem': map<Addr, Unit>) {
    forall b, c :: b in live && Covers(Range(b, live[b]), c) && c in mem ==> c in mem' && mem'[c] == mem[c]
  }

  lemma ClaimKeeps(cfg: Config, h: Heap, mem: map<Addr, Unit>, a: Addr, n: nat, trace: nat, live: map<Addr, nat>)
    requires HeapOk(cfg, h) && a in h.live && n <= h.live[a]
    requires a !in live && forall b <- live :: b in h.live && h.live[b] == live[b]
    ensures SamePayload(live, mem, Claim(mem, a, n, trace, h.live[a]))
  {
    HeapShape(cfg, h);
    LiveInMemory(cfg, h, a);
    hide HeapOk, Partition;
    forall b, c | b in live && Covers(Range(b, live[b]), c) && c in mem
      ensures Claim(mem, a, n, trace, h.live[a])[c] == mem[c]
    {
      LiveApart(cfg, h, a, b);
    }
  }

  // How each heap operation shows in the pools.

  lemma TakeHolds(cfg: Config, h: Heap, i: nat, pool: seq<Option<Addr>>, sizes: seq<nat>, mem: map<Addr, Unit>)
    requires HeapOk(cfg, h) && Holds(cfg, h, pool, sizes, mem, None) && i < cfg.poolSize && pool[i].Some?
    ensures h.free[i] != [] && pool[i].value == h.free[i][0] && sizes[i] > 0
    ensures pool[i].value in mem && mem[pool[i].value].head.Link?
    ensures Holds(cfg, TakePool(h, i), pool[i := mem[pool[i].value].head.next], sizes[i := sizes[i] - 1], mem,
                  Some(h.free[i][0]))
  {
    hide HeapOk;
    assert Chain(mem, pool[i], h.free[i]);
  }

  lemma ReleaseHolds(cfg: Config, h: Heap, a: Addr, pool: seq<Option<Addr>>, sizes: seq<nat>, mem: map<Addr, Unit>)
    requires HeapOk(cfg, h) && Holds(cfg, h, pool, sizes, mem, None) && a in h.live
    ensures 1 <= h.live[a] <= cfg.poolSize && a in mem
    ensures var i := h.live[a] - 1;
            Holds(cfg, Release(h, a), pool[i := Some(a)], sizes[i := sizes[i] + 1],
                  mem[a := mem[a].(head := Link(pool[i]))], None)
  {
    hide HeapOk, Partition, Holds, Chain;
    HeapShape(cfg, h);
    LiveInMemory(cfg, h, a);
    HoldsShape(cfg, h, pool, sizes, mem, None);
    forall i, f | 0 <= i < |h.free| && f in h.free[i]
      ensures f != a
    {
      FreeOutside(cfg, h, a, i, f);
    }
    PushHolds(cfg, h, a, h.live[a] - 1, pool, sizes, mem);
  }

  lemma HoldsShape(cfg: Config, h: Heap, pool: seq<Option<Addr>>, sizes: seq<nat>, mem: map<Addr, Unit>,
                   but: Option<Addr>)
    requires Holds(cfg, h, pool, sizes, mem, but)
    ensures |pool| == |sizes| == |h.free| == cfg.poolSize
    ensures forall c: Addr :: c.sb < h.sbs && c.off < cfg.chunk ==> c in mem
  {
    hide Chain, Headed;
  }

  /** Linking a block that is on no list in front of pool i. */
  lemma PushHolds(cfg: Config, h: Heap, a: Addr, i: nat, pool: seq<Option<Addr>>, sizes: seq<nat>, mem: map<Addr, Unit>)
    requires Holds(cfg, h, pool, sizes, mem, None) && i < cfg.poolSize && a in mem
    requires forall j, f :: 0 <= j < |h.free| && f in h.free[j] ==> f != a
    ensures Holds(cfg, h.(free := h.free[i := [a] + h.free[i]], live := h.live - {a}),
                  pool[i := Some(a)], sizes[i := sizes[i] + 1], mem[a := mem[a].(head := Link(pool[i]))], None)
  {
    var mem' := mem[a := mem[a].(head := Link(pool[i]))];
    forall j | 0 <= j < |pool|
      ensures Chain(mem', pool[j], h.free[j])
    {
      ChainFrame(mem, mem', pool[j], h.free[j]);
    }
    var list := [a] + h.free[i];
    assert list[1..] == h.free[i];
    assert Chain(mem', Some(a), list);
  }

  lemma GrowHolds(cfg: Config, h: Heap, pool: seq<Option<Addr>>, sizes: seq<nat>, mem: map<Addr, Unit>)
    requires HeapOk(cfg, h) && Holds(cfg, h, pool, sizes, mem, None) && 0 < h.avail <= cfg.poolSize
    ensures var a := TailAt(cfg, h);
            var i := h.avail - 1;
            && a in mem
            && Holds(cfg, Donate(cfg, h), pool[i := Some(a)], sizes[i := sizes[i] + 1],
                     mem[a := mem[a].(head := Link(pool[i]))], None)
            && SamePayload(h.live, mem, mem[a := mem[a].(head := Link(pool[i]))])
  {
    hide HeapOk, Partition, Holds, Chain;
    HeapShape(cfg, h);
    HoldsShape(cfg, h, pool, sizes, mem, None);
    TailPlace(cfg, h);
    var a := TailAt(cfg, h);
    PushHolds(cfg, h, a, h.avail - 1, pool, sizes, mem);
    assert h.live - {a} == h.live;
    assert Donate(cfg, h).live == h.live;
    var mem' := mem[a := mem[a].(head := Link(pool[h.avail - 1]))];
    forall b, c | b in h.live && Covers(Range(b, h.live[b]), c) && c in mem
      ensures c in mem' && mem'[c] == mem[c]
    {
      TailApart(cfg, h, b, c);
    }
    var pushed := h.(free := h.free[h.avail - 1 := [a] + h.free[h.avail - 1]], live := h.live - {a});
    HoldsAnyTail(cfg, pushed, Donate(cfg, h), pool[h.avail - 1 := Some(a)],
                 sizes[h.avail - 1 := sizes[h.avail - 1] + 1], mem');
  }

  /** How much of the tail is left does not show in the pools. */
  lemma HoldsAnyTail(cfg: Config, h: Heap, g: Heap, pool: seq<Option<Addr>>, sizes: seq<nat>, mem: map<Addr, Unit>)
    requires Holds(cfg, h, pool, sizes, mem, None) && g == h.(avail := g.avail)
    ensures Holds(cfg, g, pool, sizes, mem, None)
  {
    hide Chain, Headed;
  }

  lemma TailNotFree(cfg: Config, h: Heap, j: nat, f: Addr)
    requires HeapOk(cfg, h) && 0 < h.avail && j < |h.free| && f in h.free[j]
    ensures f != TailAt(cfg, h)
  {
    hide HeapOk, Partition;
    HeapShape(cfg, h);
    var free, tail := Block(Free, f, j + 1), Block(Tail, TailAt(cfg, h), h.avail);
    assert Has(cfg, h, free) && Has(cfg, h, tail);
    if f == tail.at {
      OneKind(cfg, h, free, tail);
    }
  }

  lemma TailPlace(cfg: Config, h: Heap)
    requires HeapOk(cfg, h) && 0 < h.avail
    ensures TailAt(cfg, h).sb < h.sbs && TailAt(cfg, h).off < cfg.chunk && TailAt(cfg, h) !in h.live
    ensures forall j, f :: 0 <= j < |h.free| && f in h.free[j] ==> f != TailAt(cfg, h)
  {
    hide HeapOk, Partition;
    HeapShape(cfg, h);
    TailNotLive(cfg, h);
    forall j, f | 0 <= j < |h.free| && f in h.free[j]
      ensures f != TailAt(cfg, h)
    {
      TailNotFree(cfg, h, j, f);
    }
  }

  lemma TailApart(cfg: Config, h: Heap, b: Addr, c: Addr)
    requires HeapOk(cfg, h) && 0 < h.avail && b in h.live && Covers(Range(b, h.live[b]), c)
    ensures c != TailAt(cfg, h)
  {
    HeapShape(cfg, h);
    hide HeapOk, InBounds, AllCovered;
    var t, l := Block(Tail, TailAt(cfg, h), h.avail), Block(Live, b, h.live[b]);
    assert Has(cfg, h, t) && Has(cfg, h, l);
    assert Apart(t, l);
  }

  /** The units of a new superblock, zeroed. */
  function Superblock(cfg: Config, sb: nat): (r: map<Addr, Unit>)
    ensures forall c: Addr :: c in r <==> c.sb == sb && c.off < cfg.chunk
  {
    map off: nat | off < cfg.chunk :: Addr(sb, off) := ZERO
  }

  lemma AddHolds(cfg: Config, h: Heap, pool: seq<Option<Addr>>, sizes: seq<nat>, mem: map<Addr, Unit>)
    requires HeapOk(cfg, h) && Holds(cfg, h, pool, sizes, mem, None)
    ensures var mem' := mem + Superblock(cfg, h.sbs);
            Holds(cfg, AddSuperblock(cfg, h), pool, sizes, mem', None) && SamePayload(h.live, mem, mem')
  {
    hide HeapOk, Partition, Covers, Headed;
    HeapShape(cfg, h);
    var mem' := mem + Superblock(cfg, h.sbs);
    forall i | 0 <= i < |pool|
      ensures Chain(mem', pool[i], h.free[i])
    {
      forall f <- h.free[i]
        ensures f.sb < h.sbs
      {
        FreeInMemory(cfg, h, i, f);
      }
      ChainFrame(mem, mem', pool[i], h.free[i]);
    }
    forall b, c | b in h.live && Covers(Range(b, h.live[b]), c) && c in mem
      ensures c in mem' && mem'[c] == mem[c]
    {
      LiveInMemory(cfg, h, b);
      CoversSame(b, h.live[b], c);
    }
    forall b <- h.live
      ensures Headed(mem', b, h.live[b])
    {
      LiveInMemory(cfg, h, b);
      HeadedFrame(mem, mem', b, h.live[b]);
    }
  }

  lemma FreeInMemory(cfg: Config, h: Heap, i: nat, f: Addr)
    requires HeapOk(cfg, h) && i < |h.free| && f in h.free[i]
    ensures f.sb < h.sbs
  {
    HeapShape(cfg, h);
    hide HeapOk, Disjoint, AllCovered;
    assert Has(cfg, h, Block(Free, f, i + 1));
  }

  lemma CoversSame(a: Addr, n: nat, c: Addr)
    requires Covers(Range(a, n), c)
    ensures c.sb == a.sb
  {
  }

  lemma HeadedFrame(mem: map<Addr, Unit>, mem': map<Addr, Unit>, a: Addr, n: nat)
    requires Headed(mem, a, n) && (a in mem ==> a in mem' && mem'[a] == mem[a])
    ensures Headed(mem', a, n)
  {
  }

  lemma HoldsShort(cfg: Config, h: Heap, pool: seq<Option<Addr>>, sizes: seq<nat>, mem: map<Addr, Unit>, i: nat)
    requires Holds(cfg, h, pool, sizes, mem, None) && i < cfg.poolSize
    ensures |pool| == |h.free| == cfg.poolSize && (pool[i].None? <==> h.free[i] == [])
  {
    assert Chain(mem, pool[i], h.free[i]);
  }

  lemma HoldsLive(cfg: Config, h: Heap, pool: seq<Option<Addr>>, sizes: seq<nat>, mem: map<Addr, Unit>, a: Addr)
    requires Holds(cfg, h, pool, sizes, mem, None) && a in h.live
    ensures Headed(mem, a, h.live[a])
  {
  }

  /** Cutting a block off the tail: its header is still to be written. */
  lemma CarveHolds(cfg: Config, h: Heap, blocks: nat, pool: seq<Option<Addr>>, sizes: seq<nat>, mem: map<Addr, Unit>)
    requires Holds(cfg, h, pool, sizes, mem, None) && blocks <= h.avail <= cfg.chunk && 0 < h.sbs
    ensures Holds(cfg, Carve(cfg, h, blocks), pool, sizes, mem, Some(TailAt(cfg, h)))
  {
    hide Chain, Headed;
  }

  datatype Answer = Null | Got(at: Addr) | Abort

  /** The allocator's globals. The client's pointers are those of the units, header included. */
  class Allocator {
    const cfg: Config
    const shift: nat
    var pool: array<Option<Addr>>
    var poolSizes: array<nat>
    var avail: Addr
    var amtAvail: nat
    var countSb: nat
    var traceCounter: nat
    var mem: map<Addr, Unit>
    ghost var heap: Heap

    /** The pools hold the free lists of the heap, and the memory its links and headers. */
    ghost predicate PoolsValid()
      reads this, pool, poolSizes
    {
      && SizesOk(cfg, shift) && HeapOk(cfg, heap)
      && Holds(cfg, heap, pool[..], poolSizes[..], mem, None)
      && countSb == heap.sbs && traceCounter < TWO_TO_32
    }

    ghost predicate Valid()
      reads this, pool, poolSizes
    {
      PoolsValid() && amtAvail == heap.avail && avail == TailAt(cfg, heap)
    }

    /** gbmem_startup, once its checks have passed: the pools are empty and the first superblock is the tail. */
    constructor (cfg: Config, shift: nat)
      requires SizesOk(cfg, shift) && 0 < cfg.maxSb
      ensures Valid() && this.cfg == cfg && this.shift == shift && heap == Start(cfg)
      ensures fresh(pool) && fresh(poolSizes)
    {
      this.cfg, this.shift := cfg, shift;
      pool := new Option<Addr>[cfg.poolSize](_ => None);
      poolSizes := new nat[cfg.poolSize](_ => 0);
      avail, amtAvail, countSb, traceCounter := Addr(0, 0), cfg.chunk, 1, 0;
      mem := Superblock(cfg, 0);
      heap := Start(cfg);
      new;
      StartOk(cfg);
    }

    /** Putting what is left of the tail in its pool. */
    method DonateTail()
      requires Valid() && 0 < heap.avail <= cfg.poolSize
      modifies this`heap, this`mem, this`amtAvail, pool, poolSizes
      ensures PoolsValid() && heap == Donate(cfg, old(heap))
      ensures SamePayload(old(heap.live), old(mem), mem)
    {
      hide HeapOk, Partition, Holds, SamePayload, SizesOk;
      HeapShape(cfg, heap);
      HoldsShape(cfg, heap, pool[..], poolSizes[..], mem, None);
      GrowHolds(cfg, heap, pool[..], poolSizes[..], mem);
      DonateOk(cfg, heap);
      heap := Donate(cfg, heap);
      amtAvail := amtAvail - 1;
      mem := mem[avail := mem[avail].(head := Link(pool[amtAvail]))];
      pool[amtAvail] := Some(avail);
      poolSizes[amtAvail] := poolSizes[amtAvail] + 1;
      assert pool[..] == old(pool[..])[old(amtAvail) - 1 := Some(avail)];
      assert poolSizes[..] == old(poolSizes[..])[old(amtAvail) - 1 := old(poolSizes[amtAvail - 1]) + 1];
    }

    /** A new superblock is the tail. */
    method AddTail()
      requires PoolsValid() && heap.avail == 0 && heap.sbs < cfg.maxSb
      modifies this`heap, this`mem, this`amtAvail, this`avail, this`countSb
      ensures Valid() && heap == AddSuperblock(cfg, old(heap))
      ensures SamePayload(old(heap.live), old(mem), mem)
    {
      hide HeapOk, Partition, Holds, SamePayload;
      AddHolds(cfg, heap, pool[..], poolSizes[..], mem);
      AddSuperblockOk(cfg, heap);
      mem := mem + Superblock(cfg, countSb);
      avail, amtAvail := Addr(countSb, 0), cfg.chunk;
      countSb := countSb + 1;
      heap := AddSuperblock(cfg, heap);
    }

    /** alloc_superblock: false when the configured number of superblocks is reached. */
    method AllocSuperblock() returns (ok: bool)
      requires Valid() && heap.avail <= cfg.poolSize
      modifies this`heap, this`mem, this`amtAvail, this`avail, this`countSb, pool, poolSizes
      ensures Valid()
      ensures ok == (old(heap.sbs) < cfg.maxSb)
      ensures if ok then heap == Grow(cfg, old(heap)) && SamePayload(old(heap.live), old(mem), mem)
              else heap == old(heap) && mem == old(mem)
    {
      hide HeapOk, Partition, Holds, SamePayload, SizesOk, Grow;
      HeapShape(cfg, heap);
      if countSb >= cfg.maxSb {
        return false;
      }
      ghost var h, m := heap, mem;
      GrowIs(cfg, h);
      PayloadSame(h.live, m);
      if amtAvail > 0 {
        DonateTail();
      }
      ghost var m1 := mem;
      AddTail();
      PayloadThen(h.live, m, m1, mem);
      return true;
    }

    /** Takes the head of pool i and makes it a client block, of which the first n units are cleared. */
    method TakeBlock(i: nat, n: nat) returns (p: Addr)
      requires Valid() && i < cfg.poolSize && pool[i].Some? && n <= i + 1
      modifies this`heap, this`mem, pool, poolSizes
      ensures Valid() && i < |old(heap).free| && old(heap).free[i] != []
      ensures p == old(heap).free[i][0] && heap == TakePool(old(heap), i)
      ensures NewBlock(mem, p, n, traceCounter, i + 1) && SamePayload(old(heap.live), old(mem), mem)
    {
      hide HeapOk, Partition, Holds, SamePayload, SizesOk, Claim, NewBlock;
      HeapShape(cfg, heap);
      HoldsShape(cfg, heap, pool[..], poolSizes[..], mem, None);
      TakeHolds(cfg, heap, i, pool[..], poolSizes[..], mem);
      TakePoolOk(cfg, heap, i);
      ghost var h := heap;
      heap := TakePool(heap, i);
      p := pool[i].value;
      pool[i] := mem[p].head.next;
      poolSizes[i] := poolSizes[i] - 1;
      assert pool[..] == old(pool[..])[i := old(mem)[p].head.next];
      assert poolSizes[..] == old(poolSizes[..])[i := old(poolSizes[i]) - 1];
      ClaimHolds(cfg, heap, pool[..], poolSizes[..], mem, p, n, traceCounter);
      ClaimKeeps(cfg, heap, mem, p, n, traceCounter, h.live);
      ClaimNew(mem, p, n, traceCounter, i + 1);
      mem := Claim(mem, p, n, traceCounter, i + 1);
    }

    /** Cuts a client block of n units off the tail, of which the first `clear` are cleared. */
    method CarveBlock(n: nat, clear: nat) returns (p: Addr)
      requires Valid() && 1 <= n <= amtAvail && n <= cfg.poolSize && clear <= n
      modifies this`heap, this`mem, this`avail, this`amtAvail
      ensures Valid() && 0 < old(heap).sbs && n <= old(heap).avail <= cfg.chunk
      ensures p == TailAt(cfg, old(heap)) && heap == Carve(cfg, old(heap), n)
      ensures NewBlock(mem, p, clear, traceCounter, n) && SamePayload(old(heap.live), old(mem), mem)
    {
      hide HeapOk, Partition, Holds, SamePayload, SizesOk, Claim, NewBlock;
      HeapShape(cfg, heap);
      CarveHolds(cfg, heap, n, pool[..], poolSizes[..], mem);
      CarveOk(cfg, heap, n);
      ghost var h := heap;
      heap := Carve(cfg, heap, n);
      p := avail;
      ClaimHolds(cfg, heap, pool[..], poolSizes[..], mem, p, clear, traceCounter);
      ClaimKeeps(cfg, heap, mem, p, clear, traceCounter, h.live);
      ClaimNew(mem, p, clear, traceCounter, n);
      mem := Claim(mem, p, clear, traceCounter, n);
      avail := Addr(avail.sb, avail.off + n);
      amtAvail := amtAvail - n;
    }

    /** The upward search: the first pool from the wanted one up that has a block gives it. */
    method TakeLarger(wanted: nat) returns (r: Answer)
      requires Valid() && 1 <= wanted <= cfg.poolSize
      modifies this`heap, this`mem, pool, poolSizes
      ensures Valid() && |old(heap).free| == cfg.poolSize
      ensures var i := FirstPool(old(heap).free, wanted - 1);
              if i == cfg.poolSize then r == Abort && heap == old(heap) && mem == old(mem)
              else
                && r == Got(old(heap).free[i][0]) && heap == TakePool(old(heap), i)
                && NewBlock(mem, r.at, ClearedUnits(cfg, wanted), traceCounter, i + 1)
      ensures SamePayload(old(heap.live), old(mem), mem)
    {
      hide HeapOk, Partition, Holds, SamePayload, NewBlock, SizesOk, ClearedUnits;
      HeapShape(cfg, heap);
      PayloadSame(heap.live, mem);
      PositiveUnit(cfg, shift);
      ClearsAll(cfg, wanted);
      var blocks := wanted;
      while blocks <= cfg.poolSize
        invariant wanted <= blocks <= cfg.poolSize + 1 && |heap.free| == cfg.poolSize
        invariant Valid() && heap == old(heap) && mem == old(mem) && traceCounter == old(traceCounter)
        invariant FirstPool(heap.free, wanted - 1) == FirstPool(heap.free, blocks - 1)
      {
        HoldsShort(cfg, heap, pool[..], poolSizes[..], mem, blocks - 1);
        if pool[blocks - 1].Some? {
          var p := TakeBlock(blocks - 1, ClearedUnits(cfg, wanted));
          return Got(p);
        }
        blocks := blocks + 1;
      }
      return Abort;
    }

    /** A block of the wanted length: own pool, tail, new superblock, larger pool, in this order. */
    method Allocate(blocks: nat) returns (r: Answer)
      requires Valid() && 1 <= blocks <= cfg.poolSize
      modifies this`heap, this`mem, this`avail, this`amtAvail, this`countSb, pool, poolSizes
      ensures Valid() && SamePayload(old(heap.live), old(mem), mem)
      ensures Mallocable(cfg, old(heap), blocks)
      ensures var m := GbHeap.Malloc(cfg, old(heap), blocks);
              if m.Exhausted? then r == Abort && heap == old(heap) && mem == old(mem)
              else
                && r == Got(m.at) && heap == m.h && m.at in m.h.live
                && NewBlock(mem, m.at, ClearedUnits(cfg, blocks), traceCounter, m.h.live[m.at])
    {
      hide HeapOk, Partition, Holds, SamePayload, NewBlock, Pow2, Grow, ClearedUnits;
      HeapShape(cfg, heap);
      ClearsAll(cfg, blocks);
      HoldsShort(cfg, heap, pool[..], poolSizes[..], mem, blocks - 1);
      if pool[blocks - 1].Some? {
        var p := TakeBlock(blocks - 1, ClearedUnits(cfg, blocks));
        return Got(p);
      }
      ghost var h, m := heap, mem;
      if blocks > amtAvail {
        var ok := AllocSuperblock();
        if !ok {
          r := TakeLarger(blocks);
          return;
        }
        GrowLive(cfg, h);
      } else {
        PayloadSame(h.live, m);
      }
      ghost var m1 := mem;
      var p := CarveBlock(blocks, ClearedUnits(cfg, blocks));
      PayloadThen(h.live, m, m1, mem);
      return Got(p);
    }

    /** gbmem_malloc: NULL, a cleared block with its header, or abort when no pool from the wanted one up has a
        block. */
    method Malloc(size: nat) returns (r: Answer)
      requires Valid() && size < TWO_TO_64
      modifies this`heap, this`mem, this`avail, this`amtAvail, this`countSb, this`traceCounter, pool, poolSizes
      ensures Valid() && SamePayload(old(heap.live), old(mem), mem)
      ensures var q := Request(cfg, shift, size);
              if q.None? then r == Null && heap == old(heap) && mem == old(mem)
              else
                && Mallocable(cfg, old(heap), q.value)
                && var m := GbHeap.Malloc(cfg, old(heap), q.value);
                   if m.Exhausted? then r == Abort && heap == old(heap) && mem == old(mem)
                   else
                     && r == Got(m.at) && heap == m.h && m.at in m.h.live
                     && NewBlock(mem, m.at, ClearedUnits(cfg, q.value), traceCounter, m.h.live[m.at])
    {
      hide HeapOk, Partition, Holds, SamePayload, BytesToBlocks, NewBlock, Pow2, GbHeap.Malloc, ClearedUnits;
      PayloadSame(heap.live, mem);
      var total := (size + HEADER) % TWO_TO_64;
      if size == 0 || total > cfg.maxBlock {
        return Null;
      }
      var blocks := BytesToBlocks(cfg, shift, total);
      if blocks > cfg.poolSize || blocks == 0 {
        return Null;
      }
      traceCounter := (traceCounter + 1) % TWO_TO_32;
      r := Allocate(blocks);
    }

    /** Puts a client block at the head of the pool of its length. */
    method PushBlock(a: Addr, i: nat)
      requires Valid() && a in heap.live && i + 1 == heap.live[a]
      modifies this`heap, this`mem, pool, poolSizes
      ensures Valid() && i < |old(heap).free| && heap == Release(old(heap), a)
      ensures SamePayload(heap.live, old(mem), mem)
    {
      hide HeapOk, Partition, Holds, SamePayload, SizesOk;
      HeapShape(cfg, heap);
      HoldsShape(cfg, heap, pool[..], poolSizes[..], mem, None);
      ReleaseHolds(cfg, heap, a, pool[..], poolSizes[..], mem);
      ReleaseOk(cfg, heap, a);
      ReleaseKeeps(cfg, heap, a, mem, Link(pool[i]));
      heap := Release(heap, a);
      mem := mem[a := mem[a].(head := Link(pool[i]))];
      pool[i] := Some(a);
      poolSizes[i] := poolSizes[i] + 1;
      assert pool[..] == old(pool[..])[i := Some(a)];
      assert poolSizes[..] == old(poolSizes[..])[i := old(poolSizes[i]) + 1];
    }

    /** gbmem_free: the length comes from the block's header, which is what makes the error branches dead. */
    method Free(p: Option<Addr>) returns (r: FreeResult)
      requires Valid() && (p.Some? ==> p.value in heap.live)
      modifies this`heap, this`mem, pool, poolSizes
      ensures Valid() && r == if p.None? then Ignored else Released
      ensures if p.None? then heap == old(heap) && mem == old(mem)
              else
                && 1 <= old(heap).live[p.value] <= |old(heap).free| && heap == Release(old(heap), p.value)
                && SamePayload(heap.live, old(mem), mem)
    {
      if p.None? {
        return Ignored;
      }
      hide HeapOk, Partition, Holds, SamePayload, SizesOk;
      var a := p.value;
      HeapShape(cfg, heap);
      HoldsLive(cfg, heap, pool[..], poolSizes[..], mem, a);
      var blocks := mem[a].head.blocks;
      if blocks > cfg.poolSize {
        return BadLength;
      } else if blocks <= 0 {
        return AlreadyDeleted;
      }
      PushBlock(a, blocks - 1);
      return Released;
    }

    /** What a client may do with its block: write any unit of it, but not the header in the first eight bytes. */
    method ClientWrite(a: Addr, c: Addr, word: int, body: int)
      requires Valid() && a in heap.live && Covers(Range(a, heap.live[a]), c)
      modifies this`mem
      ensures Valid() && c in old(mem) && mem == old(mem)[c := Written(old(mem)[c], a, c, word, body)]
    {
      hide HeapOk, Partition, Holds, SizesOk;
      HeapShape(cfg, heap);
      LiveInMemory(cfg, heap, a);
      HoldsShape(cfg, heap, pool[..], poolSizes[..], mem, None);
      WriteHolds(cfg, heap, pool[..], poolSizes[..], mem, a, c, word, body);
      mem := mem[c := Written(mem[c], a, c, word, body)];
    }

    /** Walking the list of pool i. */
    method CountPool(i: nat) returns (count: nat, bytes: nat)
      requires Valid() && i < pool.Length
      ensures i < |heap.free| && count == |heap.free[i]| && bytes == count * ((i + 1) * cfg.minBlock)
    {
      hide HeapOk, Partition, SizesOk;
      assert Chain(mem, pool[..][i], heap.free[i]);
      var pz := pool[i];
      ghost var rest := heap.free[i];
      hide Holds;
      count, bytes := 0, 0;
      while pz.Some?
        invariant Chain(mem, pz, rest) && count + |rest| == |heap.free[i]|
        invariant bytes == count * ((i + 1) * cfg.minBlock)
        decreases |rest|
      {
        count, bytes := count + 1, bytes + (i + 1) * cfg.minBlock;
        pz := mem[pz.value].head.next;
        rest := rest[1..];
      }
    }

    /** gbmem_stats: the counts in bytes; `incongruent` is set where it would report a wrong pool size. */
    method Stats() returns (freeSegmented: nat, freeSuperblock: nat, taken: nat, inUse: int, incongruent: bool)
      requires Valid()
      ensures !incongruent
      ensures freeSegmented == FreeWeight(heap.free) * cfg.minBlock
      ensures freeSuperblock == heap.avail * cfg.minBlock
      ensures taken == heap.sbs * cfg.chunk * cfg.minBlock
      ensures inUse == Weight(heap.live) * cfg.minBlock
    {
      hide HeapOk, Partition, Chain, SizesOk, FreeWeight;
      ghost var free := heap.free;
      freeSegmented, incongruent := 0, false;
      NextPoolNone(free, cfg.minBlock);
      for i := 0 to cfg.poolSize
        invariant !incongruent && |free| == cfg.poolSize
        invariant freeSegmented == FreeWeight(free[..i]) * cfg.minBlock
      {
        HoldsShort(cfg, heap, pool[..], poolSizes[..], mem, i);
        HoldsSizes(cfg, heap, pool[..], poolSizes[..], mem, i);
        hide Holds;
        NextPool(free, i, cfg.minBlock);
        if pool[i].None? {
          if poolSizes[i] != 0 {
            incongruent := true;
          }
        } else {
          var count, bytes := CountPool(i);
          freeSegmented := freeSegmented + bytes;
          if poolSizes[i] != count {
            incongruent := true;
          }
        }
      }
      assert free[..cfg.poolSize] == free;
      freeSuperblock := amtAvail * cfg.minBlock;
      var totalFree := freeSegmented + freeSuperblock;
      taken := countSb * cfg.chunk * cfg.minBlock;
      inUse := taken - totalFree;
      Accounted(cfg, heap);
      Distribute(Weight(heap.live), FreeWeight(free), heap.avail, cfg.minBlock);
    }
  }

  ghost predicate Mallocable(cfg: Config, h: Heap, blocks: nat) {
    1 <= blocks <= |h.free| <= cfg.chunk && h.avail <= cfg.chunk && 0 < h.sbs
  }

  lemma HoldsSizes(cfg: Config, h: Heap, pool: seq<Option<Addr>>, sizes: seq<nat>, mem: map<Addr, Unit>, i: nat)
    requires Holds(cfg, h, pool, sizes, mem, None) && i < cfg.poolSize
    ensures |sizes| == |h.free| == cfg.poolSize && sizes[i] == |h.free[i]|
  {
  }

  lemma Accounted(cfg: Config, h: Heap)
    requires HeapOk(cfg, h)
    ensures Weight(h.live) + FreeWeight(h.free) + h.avail == h.sbs * cfg.chunk
  {
  }

  lemma NextPoolNone(free: seq<seq<Addr>>, unit: nat)
    ensures FreeWeight(free[..0]) * unit == 0
  {
  }

  datatype FreeResult = Ignored | Released | BadLength | AlreadyDeleted

  /** A block that starts with a header, and of which n units are cleared. */
  ghost predicate NewBlock(mem: map<Addr, Unit>, a: Addr, n: nat, trace: nat, blocks: nat) {
    && a in mem && mem[a].head == Header(trace, blocks) && (n > 0 ==> mem[a].body == 0)
    && forall c :: Covers(Range(a, n), c) && c in mem && c != a ==> mem[c] == ZERO
  }

  lemma ClaimNew(mem: map<Addr, Unit>, a: Addr, n: nat, trace: nat, blocks: nat)
    requires a in mem
    ensures NewBlock(Claim(mem, a, n, trace, blocks), a, n, trace, blocks)
  {
    assert n > 0 ==> Covers(Range(a, n), a);
  }

  /** What a client's write makes of a unit. */
  function Written(u: Unit, a: Addr, c: Addr, word: int, body: int): Unit {
    Unit(if c == a then u.head else Client(word), body)
  }

  lemma WriteHolds(cfg: Config, h: Heap, pool: seq<Option<Addr>>, sizes: seq<nat>, mem: map<Addr, Unit>,
                   a: Addr, c: Addr, word: int, body: int)
    requires HeapOk(cfg, h) && Holds(cfg, h, pool, sizes, mem, None)
    requires a in h.live && Covers(Range(a, h.live[a]), c) && c in mem
    ensures Holds(cfg, h, pool, sizes, mem[c := Written(mem[c], a, c, word, body)], None)
  {
    HeapShape(cfg, h);
    hide HeapOk, Partition;
    var mem' := mem[c := Written(mem[c], a, c, word, body)];
    forall i | 0 <= i < |pool|
      ensures Chain(mem', pool[i], h.free[i])
    {
      forall f <- h.free[i]
        ensures f != c
      {
        FreeOutside(cfg, h, a, i, f);
      }
      ChainFrame(mem, mem', pool[i], h.free[i]);
    }
    forall b <- h.live
      ensures Headed(mem', b, h.live[b])
    {
      if b != a {
        LiveApart(cfg, h, a, b);
        LiveInMemory(cfg, h, b);
      }
    }
  }

  lemma ReleaseKeeps(cfg: Config, h: Heap, a: Addr, mem: map<Addr, Unit>, link: Word)
    requires HeapOk(cfg, h) && a in h.live && 1 <= h.live[a] <= |h.free| && a in mem
    ensures SamePayload(Release(h, a).live, mem, mem[a := mem[a].(head := link)])
  {
    HeapShape(cfg, h);
    hide HeapOk, Partition;
    LiveInMemory(cfg, h, a);
    var live := Release(h, a).live;
    forall b, c | b in live && Covers(Range(b, live[b]), c) && c in mem
      ensures c != a
    {
      LiveApart(cfg, h, a, b);
    }
  }

  lemma GrowLive(cfg: Config, h: Heap)
    requires h.avail <= |h.free| && h.avail <= cfg.chunk && 0 < h.sbs
    ensures Grow(cfg, h).live == h.live && Grow(cfg, h).avail == cfg.chunk
  {
  }

  lemma NextPool(free: seq<seq<Addr>>, i: nat, unit: nat)
    requires i < |free|
    ensures FreeWeight(free[..i + 1]) * unit == FreeWeight(free[..i]) * unit + |free[i]| * ((i + 1) * unit)
  {
    assert free[..i + 1][..i] == free[..i];
    var w, n := FreeWeight(free[..i]), |free[i]|;
    assert FreeWeight(free[..i + 1]) == w + (i + 1) * n;
    assert (w + (i + 1) * n) * unit == w * unit + n * ((i + 1) * unit);
  }

  lemma Distribute(a: nat, b: nat, c: nat, unit: nat)
    ensures (a + b + c) * unit == a * unit + b * unit + c * unit
  {
  }

  lemma PayloadSame(live: map<Addr, nat>, mem: map<Addr, Unit>)
    ensures SamePayload(live, mem, mem)
  {
  }

  lemma PayloadThen(live: map<Addr, nat>, a: map<Addr, Unit>, b: map<Addr, Unit>, c: map<Addr, Unit>)
    requires SamePayload(live, a, b) && SamePayload(live, b, c)
    ensures SamePayload(live, a, c)
  {
  }
}
