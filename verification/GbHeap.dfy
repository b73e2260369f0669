/** The segregated free-list heap of gbmem on values: which blocks there are, what an allocation and a release
    do to them, and what every reachable heap keeps. Addresses count blocks of the smallest size. */
module GbHeap {

  /** A place in memory: a superblock, and a block index in it. */
  datatype Addr = Addr(sb: nat, off: nat)

  /** What gbmem_startup derives from its parameters. */
  datatype Config = Config(minBlock: nat, maxBlock: nat, poolSize: nat, chunk: nat, maxSb: nat)

  /** `free[i]` is the list of pool i, first to last; `live` gives each client block its length;
      the last `avail` blocks of the newest superblock are not carved yet. */
  datatype Heap = Heap(free: seq<seq<Addr>>, live: map<Addr, nat>, sbs: nat, avail: nat)

  datatype Kind = Live | Free | Tail

  predicate ConfigOk(cfg: Config) { cfg.poolSize <= cfg.chunk && 0 < cfg.chunk }

  function TailAt(cfg: Config, h: Heap): Addr
    requires h.avail <= cfg.chunk && 0 < h.sbs
  {
    Addr(h.sbs - 1, cfg.chunk - h.avail)
  }

  /** A block: what it is, where it starts and how many units it has. */
  datatype Block = Block(kind: Kind, at: Addr, len: nat)

  predicate Has(cfg: Config, h: Heap, b: Block)
    requires h.avail <= cfg.chunk && 0 < h.sbs
  {
    match b.kind
    case Live => b.at in h.live && h.live[b.at] == b.len
    case Free => 1 <= b.len <= |h.free| && b.at in h.free[b.len - 1]
    case Tail => b.len == h.avail && 0 < b.len && b.at == TailAt(cfg, h)
  }

  predicate Covers(b: Block, c: Addr) { b.at.sb == c.sb && b.at.off <= c.off < b.at.off + b.len }

  predicate Apart(b: Block, c: Block) {
    b.at.sb != c.at.sb || b.at.off + b.len <= c.at.off || c.at.off + c.len <= b.at.off
  }

  predicate Distinct(s: seq<Addr>) { forall i, j :: 0 <= i < j < |s| ==> s[i] != s[j] }

  predicate AllDistinct(free: seq<seq<Addr>>) { forall i :: 0 <= i < |free| ==> Distinct(free[i]) }

  ghost predicate InBounds(cfg: Config, h: Heap)
    requires h.avail <= cfg.chunk && 0 < h.sbs
  {
    forall b: Block :: Has(cfg, h, b) ==> 1 <= b.len && b.at.sb < h.sbs && b.at.off + b.len <= cfg.chunk
  }

  ghost predicate Disjoint(cfg: Config, h: Heap)
    requires h.avail <= cfg.chunk && 0 < h.sbs
  {
    forall b: Block, c: Block :: Has(cfg, h, b) && Has(cfg, h, c) && b != c ==> Apart(b, c)
  }

  ghost predicate Covered(cfg: Config, h: Heap, c: Addr)
    requires h.avail <= cfg.chunk && 0 < h.sbs
  {
    exists b: Block :: Has(cfg, h, b) && Covers(b, c)
  }

  ghost predicate AllCovered(cfg: Config, h: Heap)
    requires h.avail <= cfg.chunk && 0 < h.sbs
  {
    forall c: Addr :: c.sb < h.sbs && c.off < cfg.chunk ==> Covered(cfg, h, c)
  }

  /** Live blocks, free-list blocks and the tail are pairwise disjoint and exactly cover the superblocks. */
  ghost predicate Partition(cfg: Config, h: Heap)
    requires h.avail <= cfg.chunk && 0 < h.sbs
  {
    InBounds(cfg, h) && Disjoint(cfg, h) && AllCovered(cfg, h)
  }

  // Total sizes.

  /** The units of the blocks in a map. */
  ghost function Weight(m: map<Addr, nat>): nat {
    if m == map[] then 0
    else
      var a :| a in m;
      m[a] + Weight(m - {a})
  }

  lemma {:induction false} WeightWithout(m: map<Addr, nat>, a: Addr)
    requires a in m
    ensures Weight(m) == m[a] + Weight(m - {a})
  {
    var b :| b in m && Weight(m) == m[b] + Weight(m - {b});
    if a != b {
      WeightWithout(m - {b}, a);
      WeightWithout(m - {a}, b);
      assert m - {b} - {a} == m - {a} - {b};
    }
  }

  lemma WeightWith(m: map<Addr, nat>, a: Addr, n: nat)
    requires a !in m
    ensures Weight(m[a := n]) == Weight(m) + n
  {
    assert m[a := n] - {a} == m;
    WeightWithout(m[a := n], a);
  }

  /** The units on the free lists from pool 0: pool i holds blocks of i + 1 units. */
  function FreeWeight(free: seq<seq<Addr>>): nat {
    if free == [] then 0 else FreeWeight(free[..|free| - 1]) + |free| * |free[|free| - 1]|
  }

  lemma {:induction false} FreeWeightChange(free: seq<seq<Addr>>, i: nat, list: seq<Addr>)
    requires i < |free|
    ensures FreeWeight(free[i := list]) == FreeWeight(free) + (i + 1) * |list| - (i + 1) * |free[i]|
  {
    var n := |free| - 1;
    var changed := free[i := list];
    if i == n {
      assert changed[..n] == free[..n];
    } else {
      assert changed[..n] == free[..n][i := list] && changed[n] == free[n];
      FreeWeightChange(free[..n], i, list);
    }
  }

  lemma FreeWeightCons(free: seq<seq<Addr>>, i: nat, a: Addr)
    requires i < |free|
    ensures FreeWeight(free[i := [a] + free[i]]) == FreeWeight(free) + i + 1
  {
    hide FreeWeight;
    var m := |free[i]|;
    FreeWeightChange(free, i, [a] + free[i]);
    assert (i + 1) * (m + 1) == (i + 1) * m + (i + 1);
  }

  lemma FreeWeightTail(free: seq<seq<Addr>>, i: nat)
    requires i < |free| && free[i] != []
    ensures FreeWeight(free) == FreeWeight(free[i := free[i][1..]]) + i + 1
  {
    hide FreeWeight;
    var m := |free[i]| - 1;
    FreeWeightChange(free, i, free[i][1..]);
    assert (i + 1) * (m + 1) == (i + 1) * m + (i + 1);
  }

  /** What every reachable heap satisfies. */
  ghost predicate HeapOk(cfg: Config, h: Heap) {
    && |h.free| == cfg.poolSize
    && 0 < h.sbs <= cfg.maxSb
    && h.avail <= cfg.chunk
    && Partition(cfg, h)
    && AllDistinct(h.free)
    && (forall a <- h.live :: h.live[a] <= cfg.poolSize)
    && Weight(h.live) + FreeWeight(h.free) + h.avail == h.sbs * cfg.chunk
  }

  // The operations.

  /** Takes the head of pool i's list. */
  function TakePool(h: Heap, i: nat): Heap
    requires i < |h.free| && h.free[i] != []
  {
    h.(free := h.free[i := h.free[i][1..]], live := h.live[h.free[i][0] := i + 1])
  }

  /** Cuts a block off the front of the tail. */
  function Carve(cfg: Config, h: Heap, blocks: nat): Heap
    requires blocks <= h.avail <= cfg.chunk && 0 < h.sbs
  {
    h.(live := h.live[TailAt(cfg, h) := blocks], avail := h.avail - blocks)
  }

  /** alloc_superblock: what is left of the tail goes to its pool, and a new superblock is the tail. */
  function Grow(cfg: Config, h: Heap): Heap
    requires h.avail <= |h.free| && h.avail <= cfg.chunk && 0 < h.sbs
  {
    var donated := if h.avail == 0 then h.free
                   else h.free[h.avail - 1 := [TailAt(cfg, h)] + h.free[h.avail - 1]];
    h.(free := donated, sbs := h.sbs + 1, avail := cfg.chunk)
  }

  /** The first pool from i up with a free block, or the number of pools. */
  function FirstPool(free: seq<seq<Addr>>, i: nat): (r: nat)
    requires i <= |free|
    ensures i <= r <= |free|
    ensures r < |free| ==> free[r] != []
    ensures forall j :: i <= j < r ==> free[j] == []
    decreases |free| - i
  {
    if i == |free| || free[i] != [] then i else FirstPool(free, i + 1)
  }

  datatype Allocation = Allocated(h: Heap, at: Addr) | Exhausted

  /** gbmem_malloc of `blocks` units: own pool, then the tail, then a new superblock, then a larger pool. */
  function Malloc(cfg: Config, h: Heap, blocks: nat): Allocation
    requires 1 <= blocks <= |h.free| <= cfg.chunk && h.avail <= cfg.chunk && 0 < h.sbs
  {
    if h.free[blocks - 1] != [] then Allocated(TakePool(h, blocks - 1), h.free[blocks - 1][0])
    else if blocks <= h.avail then Allocated(Carve(cfg, h, blocks), TailAt(cfg, h))
    else if h.sbs < cfg.maxSb then
      var g := Grow(cfg, h);
      Allocated(Carve(cfg, g, blocks), TailAt(cfg, g))
    else
      var i := FirstPool(h.free, blocks - 1);
      if i == |h.free| then Exhausted else Allocated(TakePool(h, i), h.free[i][0])
  }

  /** gbmem_free of a live block: it becomes the head of the pool of its length. */
  function Release(h: Heap, a: Addr): Heap
    requires a in h.live && 1 <= h.live[a] <= |h.free|
  {
    var i := h.live[a] - 1;
    h.(free := h.free[i := [a] + h.free[i]], live := h.live - {a})
  }

  function Start(cfg: Config): Heap {
    Heap(seq(cfg.poolSize, i => []), map[], 1, cfg.chunk)
  }

  // What the operations keep.

  lemma {:induction false} NothingFree(n: nat)
    ensures FreeWeight(seq(n, i => [])) == 0
  {
    var empty: seq<seq<Addr>> := seq(n, i => []);
    if n > 0 {
      assert empty[..n - 1] == seq(n - 1, i => []);
      NothingFree(n - 1);
    }
  }

  lemma StartOk(cfg: Config)
    requires ConfigOk(cfg) && 0 < cfg.maxSb
    ensures HeapOk(cfg, Start(cfg))
  {
    var h := Start(cfg);
    NothingFree(cfg.poolSize);
    forall c: Addr | c.sb < h.sbs && c.off < cfg.chunk
      ensures Covered(cfg, h, c)
    {
      var tail := Block(Tail, Addr(0, 0), cfg.chunk);
      assert Has(cfg, h, tail) && Covers(tail, c);
    }
  }

  /** `g` has the blocks of `h`, but `to` in the place of `from`. */
  ghost predicate Swapped(cfg: Config, h: Heap, g: Heap, from: Block, to: Block)
    requires h.avail <= cfg.chunk && 0 < h.sbs && g.avail <= cfg.chunk && g.sbs == h.sbs
  {
    && Has(cfg, h, from) && from.at == to.at && from.len == to.len
    && Has(cfg, g, to)
    && (forall b: Block :: Has(cfg, g, b) && b != to ==> Has(cfg, h, b) && b != from)
    && (forall b: Block :: Has(cfg, h, b) && b != from ==> Has(cfg, g, b))
  }

  /** Turning one block into another kind, and nothing else, keeps the partition. */
  lemma SwappedPartition(cfg: Config, h: Heap, g: Heap, from: Block, to: Block)
    requires h.avail <= cfg.chunk && 0 < h.sbs && g.avail <= cfg.chunk && g.sbs == h.sbs
    requires Partition(cfg, h) && Swapped(cfg, h, g, from, to)
    ensures Partition(cfg, g)
  {
    hide Has, Covers;
    assert Disjoint(cfg, g) by {
      forall b: Block, c: Block | Has(cfg, g, b) && Has(cfg, g, c) && b != c
        ensures Apart(b, c)
      {
        var b', c' := if b == to then from else b, if c == to then from else c;
        assert Has(cfg, h, b') && Has(cfg, h, c') && b' != c';
        assert Apart(b', c');
      }
    }
    assert AllCovered(cfg, g) by {
      forall c: Addr | c.sb < g.sbs && c.off < cfg.chunk
        ensures Covered(cfg, g, c)
      {
        assert Covered(cfg, h, c);
        var b: Block :| Has(cfg, h, b) && Covers(b, c);
        SameRange(from, to, c);
        assert Has(cfg, g, if b == from then to else b);
      }
    }
    assert InBounds(cfg, g) by {
      hide Disjoint, AllCovered;
    }
  }

  lemma SameRange(a: Block, b: Block, c: Addr)
    requires a.at == b.at && a.len == b.len
    ensures Covers(a, c) == Covers(b, c)
  {
  }

  /** A block is of one kind only. */
  lemma OneKind(cfg: Config, h: Heap, b: Block, c: Block)
    requires h.avail <= cfg.chunk && 0 < h.sbs && Partition(cfg, h)
    requires Has(cfg, h, b) && Has(cfg, h, c) && b.at == c.at
    ensures b == c
  {
    hide Has, AllCovered;
    assert b == c || Apart(b, c);
  }

  lemma InHead(s: seq<Addr>, a: Addr)
    requires s != [] && Distinct(s)
    ensures a in s <==> a == s[0] || a in s[1..]
    ensures s[0] !in s[1..]
  {
  }

  lemma HeapShape(cfg: Config, h: Heap)
    requires HeapOk(cfg, h)
    ensures |h.free| == cfg.poolSize && 0 < h.sbs <= cfg.maxSb && h.avail <= cfg.chunk && Partition(cfg, h)
    ensures forall a <- h.live :: 1 <= h.live[a] <= cfg.poolSize
  {
    forall a <- h.live
      ensures 1 <= h.live[a]
    {
      assert Has(cfg, h, Block(Live, a, h.live[a]));
    }
  }

  lemma SwappedIf(cfg: Config, h: Heap, g: Heap, from: Block, to: Block)
    requires h.avail <= cfg.chunk && 0 < h.sbs && g.avail <= cfg.chunk && g.sbs == h.sbs
    requires Has(cfg, h, from) && from.at == to.at && from.len == to.len
    requires forall b: Block :: Has(cfg, g, b) <==> b == to || (Has(cfg, h, b) && b != from)
    ensures Swapped(cfg, h, g, from, to)
  {
    hide Has;
  }

  lemma TakePoolHas(cfg: Config, h: Heap, i: nat, b: Block)
    requires h.avail <= cfg.chunk && 0 < h.sbs
    requires i < |h.free| && h.free[i] != [] && Distinct(h.free[i]) && h.free[i][0] !in h.live
    ensures var a := h.free[i][0];
            Has(cfg, TakePool(h, i), b) <==>
            b == Block(Live, a, i + 1) || (Has(cfg, h, b) && b != Block(Free, a, i + 1))
  {
    InHead(h.free[i], b.at);
    hide Distinct;
  }

  lemma TakePoolSwaps(cfg: Config, h: Heap, i: nat)
    requires HeapOk(cfg, h) && i < |h.free| && h.free[i] != []
    ensures var a := h.free[i][0];
            && h.avail <= cfg.chunk && a !in h.live && Distinct(h.free[i])
            && Swapped(cfg, h, TakePool(h, i), Block(Free, a, i + 1), Block(Live, a, i + 1))
  {
    var a := h.free[i][0];
    var from, to := Block(Free, a, i + 1), Block(Live, a, i + 1);
    assert Has(cfg, h, from);
    assert Distinct(h.free[i]);
    HeapShape(cfg, h);
    hide HeapOk, Partition, Distinct;
    if a in h.live {
      OneKind(cfg, h, Block(Live, a, h.live[a]), from);
    }
    hide Has;
    forall b: Block
      ensures Has(cfg, TakePool(h, i), b) <==> b == to || (Has(cfg, h, b) && b != from)
    {
      TakePoolHas(cfg, h, i, b);
    }
    SwappedIf(cfg, h, TakePool(h, i), from, to);
  }

  lemma DistinctWith(free: seq<seq<Addr>>, i: nat, list: seq<Addr>)
    requires AllDistinct(free) && i < |free| && Distinct(list)
    ensures AllDistinct(free[i := list])
  {
    hide Distinct;
  }

  lemma DistinctTail(s: seq<Addr>)
    requires Distinct(s) && s != []
    ensures Distinct(s[1..])
  {
  }

  lemma DistinctCons(a: Addr, s: seq<Addr>)
    requires Distinct(s) && a !in s
    ensures Distinct([a] + s)
  {
  }

  lemma TakePoolOk(cfg: Config, h: Heap, i: nat)
    requires HeapOk(cfg, h) && i < |h.free| && h.free[i] != []
    ensures HeapOk(cfg, TakePool(h, i)) && h.free[i][0] !in h.live
  {
    var a := h.free[i][0];
    var g := TakePool(h, i);
    hide Partition, Swapped, Distinct, Weight, FreeWeight, AllDistinct;
    TakePoolSwaps(cfg, h, i);
    SwappedPartition(cfg, h, g, Block(Free, a, i + 1), Block(Live, a, i + 1));
    DistinctTail(h.free[i]);
    DistinctWith(h.free, i, h.free[i][1..]);
    WeightWith(h.live, a, i + 1);
    FreeWeightTail(h.free, i);
  }

  lemma InCons(a: Addr, s: seq<Addr>, c: Addr)
    ensures c in [a] + s <==> c == a || c in s
  {
  }

  lemma ReleaseHas(cfg: Config, h: Heap, a: Addr, b: Block)
    requires h.avail <= cfg.chunk && 0 < h.sbs
    requires a in h.live && 1 <= h.live[a] <= |h.free| && a !in h.free[h.live[a] - 1]
    ensures Has(cfg, Release(h, a), b) <==>
            b == Block(Free, a, h.live[a]) || (Has(cfg, h, b) && b != Block(Live, a, h.live[a]))
  {
    InCons(a, h.free[h.live[a] - 1], b.at);
  }

  lemma ReleaseSwaps(cfg: Config, h: Heap, a: Addr)
    requires HeapOk(cfg, h) && a in h.live
    ensures 1 <= h.live[a] <= cfg.poolSize && a !in h.free[h.live[a] - 1]
    ensures Swapped(cfg, h, Release(h, a), Block(Live, a, h.live[a]), Block(Free, a, h.live[a]))
  {
    HeapShape(cfg, h);
    hide HeapOk, Partition;
    var n := h.live[a];
    var from, to := Block(Live, a, n), Block(Free, a, n);
    assert Has(cfg, h, from);
    if a in h.free[n - 1] {
      OneKind(cfg, h, from, to);
    }
    hide Has;
    forall b: Block
      ensures Has(cfg, Release(h, a), b) <==> b == to || (Has(cfg, h, b) && b != from)
    {
      ReleaseHas(cfg, h, a, b);
    }
    SwappedIf(cfg, h, Release(h, a), from, to);
  }

  lemma ReleaseOk(cfg: Config, h: Heap, a: Addr)
    requires HeapOk(cfg, h) && a in h.live
    ensures 1 <= h.live[a] <= cfg.poolSize && HeapOk(cfg, Release(h, a))
  {
    var n := h.live[a];
    hide Partition, Swapped, Distinct, Weight, FreeWeight;
    ReleaseSwaps(cfg, h, a);
    SwappedPartition(cfg, h, Release(h, a), Block(Live, a, n), Block(Free, a, n));
    DistinctCons(a, h.free[n - 1]);
    DistinctWith(h.free, n - 1, [a] + h.free[n - 1]);
    hide AllDistinct;
    WeightWithout(h.live, a);
    FreeWeightCons(h.free, n - 1, a);
  }

  lemma TailNotLive(cfg: Config, h: Heap)
    requires HeapOk(cfg, h) && 0 < h.avail
    ensures TailAt(cfg, h) !in h.live
  {
    HeapShape(cfg, h);
    hide HeapOk, Partition;
    if TailAt(cfg, h) in h.live {
      OneKind(cfg, h, Block(Live, TailAt(cfg, h), h.live[TailAt(cfg, h)]), Block(Tail, TailAt(cfg, h), h.avail));
    }
  }

  lemma CarveHas(cfg: Config, h: Heap, blocks: nat, b: Block)
    requires 1 <= blocks <= h.avail <= cfg.chunk && 0 < h.sbs && TailAt(cfg, h) !in h.live
    ensures var a := TailAt(cfg, h);
            Has(cfg, Carve(cfg, h, blocks), b) <==>
            || b == Block(Live, a, blocks)
            || (blocks < h.avail && b == Block(Tail, Addr(a.sb, a.off + blocks), h.avail - blocks))
            || (Has(cfg, h, b) && b != Block(Tail, a, h.avail))
  {
  }

  /** `g` has the blocks of `h`, but its tail cut in two: `cut` and, unless empty, `rest`. */
  ghost predicate TailCut(cfg: Config, h: Heap, g: Heap, whole: Block, cut: Block, rest: Block)
    requires h.avail <= cfg.chunk && 0 < h.sbs && g.avail <= cfg.chunk && g.sbs == h.sbs
  {
    && Has(cfg, h, whole) && Has(cfg, g, cut) && (rest.len > 0 ==> Has(cfg, g, rest))
    && 1 <= cut.len <= whole.len && rest.len == whole.len - cut.len
    && cut.at == whole.at && rest.at == Addr(whole.at.sb, whole.at.off + cut.len)
    && (forall b: Block :: Has(cfg, g, b) && b != cut && b != rest ==> Has(cfg, h, b) && b != whole)
    && (forall b: Block :: Has(cfg, g, b) && b == rest ==> 1 <= b.len)
    && (forall b: Block :: Has(cfg, h, b) && b != whole ==> Has(cfg, g, b))
  }

  lemma TailCutDisjoint(cfg: Config, h: Heap, g: Heap, whole: Block, cut: Block, rest: Block)
    requires h.avail <= cfg.chunk && 0 < h.sbs && g.avail <= cfg.chunk && g.sbs == h.sbs
    requires Disjoint(cfg, h) && TailCut(cfg, h, g, whole, cut, rest)
    ensures Disjoint(cfg, g)
  {
    hide Has;
    forall b: Block, c: Block | Has(cfg, g, b) && Has(cfg, g, c) && b != c
      ensures Apart(b, c)
    {
      var b' := if b == cut || b == rest then whole else b;
      var c' := if c == cut || c == rest then whole else c;
      assert Has(cfg, h, b') && Has(cfg, h, c');
      assert b' == c' || Apart(b', c');
    }
  }

  lemma TailCutCovered(cfg: Config, h: Heap, g: Heap, whole: Block, cut: Block, rest: Block)
    requires h.avail <= cfg.chunk && 0 < h.sbs && g.avail <= cfg.chunk && g.sbs == h.sbs
    requires AllCovered(cfg, h) && TailCut(cfg, h, g, whole, cut, rest)
    ensures AllCovered(cfg, g)
  {
    hide Has, Covers;
    forall c: Addr | c.sb < g.sbs && c.off < cfg.chunk
      ensures Covered(cfg, g, c)
    {
      assert Covered(cfg, h, c);
      var b: Block :| Has(cfg, h, b) && Covers(b, c);
      CutCovers(whole, cut, rest, c);
      var b' := if b != whole then b else if Covers(cut, c) then cut else rest;
      assert Has(cfg, g, b') && Covers(b', c);
    }
  }

  lemma TailCutPartition(cfg: Config, h: Heap, g: Heap, whole: Block, cut: Block, rest: Block)
    requires h.avail <= cfg.chunk && 0 < h.sbs && g.avail <= cfg.chunk && g.sbs == h.sbs
    requires Partition(cfg, h) && TailCut(cfg, h, g, whole, cut, rest)
    ensures Partition(cfg, g)
  {
    hide Has, Covers, Disjoint, AllCovered;
    TailCutDisjoint(cfg, h, g, whole, cut, rest);
    TailCutCovered(cfg, h, g, whole, cut, rest);
  }

  lemma CutCovers(whole: Block, cut: Block, rest: Block, c: Addr)
    requires cut.len <= whole.len && rest.len == whole.len - cut.len
    requires cut.at == whole.at && rest.at == Addr(whole.at.sb, whole.at.off + cut.len)
    ensures Covers(whole, c) <==> Covers(cut, c) || Covers(rest, c)
    ensures Covers(rest, c) ==> rest.len > 0
  {
  }

  lemma TailCutIf(cfg: Config, h: Heap, g: Heap, whole: Block, cut: Block, rest: Block)
    requires h.avail <= cfg.chunk && 0 < h.sbs && g.avail <= cfg.chunk && g.sbs == h.sbs
    requires Has(cfg, h, whole) && 1 <= cut.len <= whole.len && rest.len == whole.len - cut.len
    requires cut.at == whole.at && rest.at == Addr(whole.at.sb, whole.at.off + cut.len)
    requires whole != cut && whole != rest && (rest.len == 0 ==> !Has(cfg, g, rest))
    requires forall b: Block ::
               Has(cfg, g, b) <==> b == cut || (0 < rest.len && b == rest) || (Has(cfg, h, b) && b != whole)
    ensures TailCut(cfg, h, g, whole, cut, rest)
  {
    hide Has;
  }

  lemma CarvePartition(cfg: Config, h: Heap, blocks: nat)
    requires HeapOk(cfg, h) && 1 <= blocks <= h.avail
    ensures Partition(cfg, Carve(cfg, h, blocks))
  {
    HeapShape(cfg, h);
    TailNotLive(cfg, h);
    hide HeapOk, Partition;
    var g := Carve(cfg, h, blocks);
    var at := TailAt(cfg, h);
    var whole, cut := Block(Tail, at, h.avail), Block(Live, at, blocks);
    var rest := Block(Tail, Addr(at.sb, at.off + blocks), g.avail);
    assert Has(cfg, h, whole) && (rest.len == 0 ==> !Has(cfg, g, rest));
    hide Has;
    forall b: Block
      ensures Has(cfg, g, b) <==> b == cut || (0 < rest.len && b == rest) || (Has(cfg, h, b) && b != whole)
    {
      CarveHas(cfg, h, blocks, b);
    }
    TailCutIf(cfg, h, g, whole, cut, rest);
    TailCutPartition(cfg, h, g, whole, cut, rest);
  }

  lemma CarveOk(cfg: Config, h: Heap, blocks: nat)
    requires HeapOk(cfg, h) && 1 <= blocks <= h.avail && blocks <= cfg.poolSize
    ensures HeapOk(cfg, Carve(cfg, h, blocks)) && TailAt(cfg, h) !in h.live
  {
    hide Partition, Distinct, AllDistinct, Weight, FreeWeight;
    CarvePartition(cfg, h, blocks);
    TailNotLive(cfg, h);
    WeightWith(h.live, TailAt(cfg, h), blocks);
  }

  /** The tail's remainder as a free block. */
  function Donate(cfg: Config, h: Heap): Heap
    requires 0 < h.avail <= |h.free| && h.avail <= cfg.chunk && 0 < h.sbs
  {
    h.(free := h.free[h.avail - 1 := [TailAt(cfg, h)] + h.free[h.avail - 1]], avail := 0)
  }

  lemma DonateHas(cfg: Config, h: Heap, b: Block)
    requires 0 < h.avail <= |h.free| && h.avail <= cfg.chunk && 0 < h.sbs
    ensures var a := TailAt(cfg, h);
            Has(cfg, Donate(cfg, h), b) <==>
            b == Block(Free, a, h.avail) || (Has(cfg, h, b) && b != Block(Tail, a, h.avail))
  {
    InCons(TailAt(cfg, h), h.free[h.avail - 1], b.at);
  }

  lemma DonateSwaps(cfg: Config, h: Heap)
    requires HeapOk(cfg, h) && 0 < h.avail <= cfg.poolSize
    ensures TailAt(cfg, h) !in h.free[h.avail - 1]
    ensures Swapped(cfg, h, Donate(cfg, h), Block(Tail, TailAt(cfg, h), h.avail), Block(Free, TailAt(cfg, h), h.avail))
  {
    HeapShape(cfg, h);
    hide HeapOk, Partition;
    var a, n := TailAt(cfg, h), h.avail;
    var from, to := Block(Tail, a, n), Block(Free, a, n);
    if a in h.free[n - 1] {
      OneKind(cfg, h, from, to);
    }
    assert Has(cfg, h, from);
    hide Has;
    forall b: Block
      ensures Has(cfg, Donate(cfg, h), b) <==> b == to || (Has(cfg, h, b) && b != from)
    {
      DonateHas(cfg, h, b);
    }
    SwappedIf(cfg, h, Donate(cfg, h), from, to);
  }

  lemma DonateOk(cfg: Config, h: Heap)
    requires HeapOk(cfg, h) && 0 < h.avail <= cfg.poolSize
    ensures HeapOk(cfg, Donate(cfg, h))
  {
    var a, n, g := TailAt(cfg, h), h.avail, Donate(cfg, h);
    hide Partition, Swapped, Distinct, FreeWeight;
    DonateSwaps(cfg, h);
    SwappedPartition(cfg, h, g, Block(Tail, a, n), Block(Free, a, n));
    DistinctCons(a, h.free[n - 1]);
    DistinctWith(h.free, n - 1, [a] + h.free[n - 1]);
    hide AllDistinct;
    FreeWeightCons(h.free, n - 1, a);
  }

  function AddSuperblock(cfg: Config, h: Heap): Heap { h.(sbs := h.sbs + 1, avail := cfg.chunk) }

  lemma AddSuperblockHas(cfg: Config, h: Heap, b: Block)
    requires HeapOk(cfg, h) && h.avail == 0 && ConfigOk(cfg)
    ensures Has(cfg, AddSuperblock(cfg, h), b) <==> Has(cfg, h, b) || b == Block(Tail, Addr(h.sbs, 0), cfg.chunk)
  {
    hide HeapOk;
    HeapShape(cfg, h);
  }

  lemma AddSuperblockPartition(cfg: Config, h: Heap)
    requires HeapOk(cfg, h) && h.avail == 0 && ConfigOk(cfg)
    ensures Partition(cfg, AddSuperblock(cfg, h))
  {
    hide Has, Covers, HeapOk;
    HeapShape(cfg, h);
    var g := AddSuperblock(cfg, h);
    var tail := Block(Tail, Addr(h.sbs, 0), cfg.chunk);
    forall b: Block
      ensures Has(cfg, g, b) <==> Has(cfg, h, b) || b == tail
    {
      AddSuperblockHas(cfg, h, b);
    }
    forall c: Addr | c.sb < g.sbs && c.off < cfg.chunk
      ensures Covered(cfg, g, c)
    {
      if c.sb == h.sbs {
        NewTailCovers(cfg, h, c);
        assert Has(cfg, g, tail);
      } else {
        assert Covered(cfg, h, c);
        var b: Block :| Has(cfg, h, b) && Covers(b, c);
        assert Has(cfg, g, b);
      }
    }
  }

  lemma NewTailCovers(cfg: Config, h: Heap, c: Addr)
    requires c.sb == h.sbs && c.off < cfg.chunk
    ensures Covers(Block(Tail, Addr(h.sbs, 0), cfg.chunk), c)
  {
  }

  lemma AddSuperblockOk(cfg: Config, h: Heap)
    requires HeapOk(cfg, h) && h.avail == 0 && h.sbs < cfg.maxSb && ConfigOk(cfg)
    ensures HeapOk(cfg, AddSuperblock(cfg, h))
  {
    AddSuperblockPartition(cfg, h);
    hide Partition;
    assert (h.sbs + 1) * cfg.chunk == h.sbs * cfg.chunk + cfg.chunk;
  }

  lemma GrowIs(cfg: Config, h: Heap)
    requires h.avail <= |h.free| && h.avail <= cfg.chunk && 0 < h.sbs
    ensures Grow(cfg, h) == AddSuperblock(cfg, if h.avail > 0 then Donate(cfg, h) else h)
  {
  }

  lemma GrowOk(cfg: Config, h: Heap)
    requires HeapOk(cfg, h) && h.avail <= cfg.poolSize && h.sbs < cfg.maxSb && ConfigOk(cfg)
    ensures HeapOk(cfg, Grow(cfg, h))
  {
    hide HeapOk, Grow;
    HeapShape(cfg, h);
    GrowIs(cfg, h);
    if h.avail > 0 {
      DonateOk(cfg, h);
      AddSuperblockOk(cfg, Donate(cfg, h));
    } else {
      AddSuperblockOk(cfg, h);
    }
  }

  // Main results.

  /** An allocation keeps the heap sound on every path; the block is new, at least as long as asked, in its pool's
      range, and no live block moves or changes length. */
  lemma MallocOk(cfg: Config, h: Heap, blocks: nat)
    requires ConfigOk(cfg) && HeapOk(cfg, h) && 1 <= blocks <= cfg.poolSize
    ensures match Malloc(cfg, h, blocks)
            case Exhausted =>
              && h.sbs == cfg.maxSb && h.avail < blocks
              && forall i :: blocks - 1 <= i < cfg.poolSize ==> h.free[i] == []
            case Allocated(g, a) =>
              && HeapOk(cfg, g)
              && a !in h.live && a in g.live && blocks <= g.live[a] <= cfg.poolSize
              && g.live == h.live[a := g.live[a]]
  {
    hide HeapOk;
    HeapShape(cfg, h);
    if h.free[blocks - 1] != [] {
      TakePoolOk(cfg, h, blocks - 1);
    } else if blocks <= h.avail {
      CarveOk(cfg, h, blocks);
    } else if h.sbs < cfg.maxSb {
      GrowOk(cfg, h);
      CarveOk(cfg, Grow(cfg, h), blocks);
    } else if FirstPool(h.free, blocks - 1) < |h.free| {
      TakePoolOk(cfg, h, FirstPool(h.free, blocks - 1));
    }
  }

  /** Which block an allocation takes. It has exactly the length asked for unless its pool, the tail and the superblocks
      are all used up, and then the least length from there up that a pool has. A superblock is added only when neither
      the pool nor the tail has room. The block is the head of its pool, or the front of the old tail or of the new one;
      the other pools stay, but for the rest of a tail that was given up, which becomes the head of its pool. */
  lemma MallocTakes(cfg: Config, h: Heap, blocks: nat)
    requires ConfigOk(cfg) && HeapOk(cfg, h) && 1 <= blocks <= cfg.poolSize
    ensures |h.free| == cfg.poolSize && h.avail <= cfg.chunk && 0 < h.sbs
    ensures Malloc(cfg, h, blocks).Exhausted? <==>
            && h.avail < blocks && h.sbs == cfg.maxSb
            && forall i :: blocks - 1 <= i < cfg.poolSize ==> h.free[i] == []
    ensures var r := Malloc(cfg, h, blocks);
            r.Allocated? ==>
              && r.at in r.h.live && blocks <= r.h.live[r.at] <= cfg.poolSize
              && var g, n := r.h, r.h.live[r.at];
                 var own, room, more := h.free[blocks - 1] != [], blocks <= h.avail, h.sbs < cfg.maxSb;
                 && (n != blocks <==> !own && !room && !more)
                 && (forall i :: blocks - 1 <= i < n - 1 ==> h.free[i] == [])
                 && (g.sbs == h.sbs + 1 <==> !own && !room && more) && (g.sbs == h.sbs || g.sbs == h.sbs + 1)
                 && (own || (!room && !more) ==>
                       && h.free[n - 1] != [] && r.at == h.free[n - 1][0]
                       && g.free == h.free[n - 1 := h.free[n - 1][1..]] && g.avail == h.avail)
                 && (!own && room ==>
                       r.at == Addr(h.sbs - 1, cfg.chunk - h.avail) && g.free == h.free && g.avail == h.avail - blocks)
                 && (!own && !room && more ==>
                       && r.at == Addr(h.sbs, 0) && g.avail == cfg.chunk - blocks
                       && (h.avail == 0 ==> g.free == h.free)
                       && (h.avail > 0 ==>
                             var rest := Addr(h.sbs - 1, cfg.chunk - h.avail);
                             g.free == h.free[h.avail - 1 := [rest] + h.free[h.avail - 1]]))
  {
    hide HeapOk, Partition;
    HeapShape(cfg, h);
    MallocOk(cfg, h, blocks);
  }

  /** The units of a new block were in no live block before: they were free or in the tail, or did not exist. */
  lemma FreshUnits(cfg: Config, h: Heap, blocks: nat, b: Addr, c: Addr)
    requires ConfigOk(cfg) && HeapOk(cfg, h) && 1 <= blocks <= cfg.poolSize
    requires Malloc(cfg, h, blocks).Allocated? && b in h.live
    requires var r := Malloc(cfg, h, blocks); r.at in r.h.live && Covers(Block(Live, r.at, r.h.live[r.at]), c)
    ensures !Covers(Block(Live, b, h.live[b]), c)
  {
    hide Malloc, HeapOk;
    HeapShape(cfg, h);
    var r := Malloc(cfg, h, blocks);
    MallocOk(cfg, h, blocks);
    HeapShape(cfg, r.h);
    LiveApart(cfg, r.h, r.at, b);
  }

  lemma LiveApart(cfg: Config, h: Heap, a: Addr, b: Addr)
    requires h.avail <= cfg.chunk && 0 < h.sbs && Partition(cfg, h)
    requires a in h.live && b in h.live && a != b
    ensures Apart(Block(Live, a, h.live[a]), Block(Live, b, h.live[b]))
  {
    hide InBounds, AllCovered;
    assert Has(cfg, h, Block(Live, a, h.live[a])) && Has(cfg, h, Block(Live, b, h.live[b]));
  }

  /** Releasing a block and asking for its size again gives it back and undoes the release. */
  lemma ReleaseThenMalloc(cfg: Config, h: Heap, a: Addr)
    requires ConfigOk(cfg) && HeapOk(cfg, h) && a in h.live
    ensures 1 <= h.live[a] <= cfg.poolSize
    ensures Malloc(cfg, Release(h, a), h.live[a]) == Allocated(h, a)
  {
    ReleaseOk(cfg, h, a);
    var i := h.live[a] - 1;
    var g := Release(h, a);
    assert g.free[i] == [a] + h.free[i] && g.free[i][1..] == h.free[i];
    assert g.free[i := h.free[i]] == h.free;
    assert (h.live - {a})[a := i + 1] == h.live;
  }

  datatype Op = Ask(blocks: nat) | Return(at: Addr)

  /** A client: it asks for sizes there are pools for, returns only live blocks, and stops when memory is exhausted. */
  function Do(cfg: Config, h: Heap, op: Op): Heap
    requires ConfigOk(cfg) && HeapOk(cfg, h)
  {
    match op
    case Ask(blocks) =>
      if 1 <= blocks <= cfg.poolSize then
        match Malloc(cfg, h, blocks)
        case Allocated(g, _) => g
        case Exhausted => h
      else h
    case Return(a) => if a in h.live && 1 <= h.live[a] <= cfg.poolSize then Release(h, a) else h
  }

  lemma DoOk(cfg: Config, h: Heap, op: Op)
    requires ConfigOk(cfg) && HeapOk(cfg, h)
    ensures HeapOk(cfg, Do(cfg, h, op))
  {
    hide HeapOk, Malloc;
    match op
    case Ask(blocks) =>
      if 1 <= blocks <= cfg.poolSize {
        MallocOk(cfg, h, blocks);
      }
    case Return(a) =>
      if a in h.live {
        ReleaseOk(cfg, h, a);
      }
  }

  /** Every heap a client can reach from startup is partitioned and accounted for, and every run goes on. */
  ghost function After(cfg: Config, ops: seq<Op>): (h: Heap)
    requires ConfigOk(cfg) && 0 < cfg.maxSb
    ensures HeapOk(cfg, h)
  {
    if ops == [] then
      StartOk(cfg);
      Start(cfg)
    else
      var g := After(cfg, ops[..|ops| - 1]);
      DoOk(cfg, g, ops[|ops| - 1]);
      Do(cfg, g, ops[|ops| - 1])
  }
}
