/** Power-of-two blocks of page frames: the arithmetic under the buddy allocator of
    kernel/src/mm/phys.rs. A block is a page number and an order; `Cover` counts how many
    blocks of the eleven free lists contain a page, so that disjointness, conservation and
    membership are all statements about one number per page. */
module BuddyBlocks {
  import opened Basics

  const MAX_ORDER: nat := 10

  type Lists = seq<seq<nat>>

  datatype Block = Block(pn: nat, order: nat)

  function Pow2(k: nat): (r: nat)
    ensures r >= 1
  {
    if k == 0 then 1 else 2 * Pow2(k - 1)
  }

  // The low `k` bits of `pn` are zero.
  predicate AlignedTo(pn: nat, k: nat) {
    k == 0 || (pn % 2 == 0 && AlignedTo(pn / 2, k - 1))
  }

  // `pn ^ (1 << k)`, bit by bit.
  function FlipBit(pn: nat, k: nat): nat {
    if k == 0 then (if pn % 2 == 0 then pn + 1 else pn - 1)
    else 2 * FlipBit(pn / 2, k - 1) + pn % 2
  }

  // u64::trailing_zeros, which is 64 on zero.
  function TrailingZeros(pn: nat): nat {
    if pn == 0 then 64 else if pn % 2 == 1 then 0 else 1 + TrailingZeros(pn / 2)
  }

  // 63 - leading_zeros(x), for x > 0.
  function FloorLog2(x: nat): nat {
    if x < 2 then 0 else 1 + FloorLog2(x / 2)
  }

  predicate Has(b: Block, p: nat) {
    b.pn <= p < b.pn + Pow2(b.order)
  }

  function One(b: Block, p: nat): nat {
    if Has(b, p) then 1 else 0
  }

  // Number of blocks of order `k` in `s` that contain page `p`.
  function CoverList(s: seq<nat>, k: nat, p: nat): nat {
    if s == [] then 0 else One(Block(s[0], k), p) + CoverList(s[1..], k, p)
  }

  function CoverFrom(lists: Lists, k: nat, p: nat): nat
    decreases |lists| - k
  {
    if k >= |lists| then 0 else CoverList(lists[k], k, p) + CoverFrom(lists, k + 1, p)
  }

  // Number of blocks, over all orders, that contain page `p`.
  function Cover(lists: Lists, p: nat): nat {
    CoverFrom(lists, 0, p)
  }

  function WeightFrom(lists: Lists, k: nat): nat
    decreases |lists| - k
  {
    if k >= |lists| then 0 else |lists[k]| * Pow2(k) + WeightFrom(lists, k + 1)
  }

  // Sum of 2^k over every block on every list.
  function Weight(lists: Lists): nat {
    WeightFrom(lists, 0)
  }

  predicate AllAligned(lists: Lists) {
    forall k, i :: 0 <= k < |lists| && 0 <= i < |lists[k]| ==> AlignedTo(lists[k][i], k)
  }

  // -- Alignment and buddies -------------------------------------------

  lemma {:induction false} Pow2Monotone(j: nat, k: nat)
    requires j <= k
    ensures Pow2(j) <= Pow2(k)
    ensures j < k ==> 2 * Pow2(j) <= Pow2(k)
  {
    if j < k {
      Pow2Monotone(j, k - 1);
    }
  }

  lemma {:induction false} AlignedHalves(pn: nat, k: nat)
    requires AlignedTo(pn, k + 1)
    ensures AlignedTo(pn, k)
    ensures AlignedTo(pn + Pow2(k), k)
  {
    if k > 0 {
      AlignedHalves(pn / 2, k - 1);
      assert (pn + Pow2(k)) / 2 == pn / 2 + Pow2(k - 1);
    }
  }

  lemma {:induction false} AlignedDown(pn: nat, j: nat, k: nat)
    requires AlignedTo(pn, k) && j <= k
    ensures AlignedTo(pn, j)
  {
    if j < k {
      AlignedHalves(pn, k - 1);
      AlignedDown(pn, j, k - 1);
    }
  }

  // For an aligned block the xor of its address with its size is the other half of the
  // enclosing block of the next order.
  lemma {:induction false} BuddyCompletes(pn: nat, k: nat)
    requires AlignedTo(pn, k)
    ensures var buddy := FlipBit(pn, k);
            var low := if pn < buddy then pn else buddy;
            && AlignedTo(buddy, k)
            && AlignedTo(low, k + 1)
            && (buddy == pn + Pow2(k) || pn == buddy + Pow2(k))
  {
    if k > 0 {
      var half := FlipBit(pn / 2, k - 1);
      BuddyCompletes(pn / 2, k - 1);
      FlipAbove(pn, k, half);
      assert pn == 2 * (pn / 2) && FlipBit(pn, k) == 2 * half;
    }
  }

  // Flipping a bit twice is the identity: buddies are mutual.
  lemma {:induction false} BuddyOfBuddy(pn: nat, k: nat)
    ensures FlipBit(FlipBit(pn, k), k) == pn
  {
    if k > 0 {
      BuddyOfBuddy(pn / 2, k - 1);
      FlipAbove(pn, k, FlipBit(pn / 2, k - 1));
    }
  }

  // Flipping a higher bit leaves the lowest one alone.
  lemma FlipAbove(pn: nat, k: nat, half: nat)
    requires k > 0 && half == FlipBit(pn / 2, k - 1)
    ensures FlipBit(pn, k) == 2 * half + pn % 2 && FlipBit(pn, k) / 2 == half && FlipBit(pn, k) % 2 == pn % 2
  {
  }

  lemma {:induction false} TrailingZerosMeansAligned(pn: nat, k: nat)
    requires k <= 64
    ensures k <= TrailingZeros(pn) ==> AlignedTo(pn, k)
    ensures pn > 0 ==> (k <= TrailingZeros(pn) <==> AlignedTo(pn, k))
  {
    if k > 0 {
      TrailingZerosMeansAligned(pn / 2, k - 1);
    }
  }

  lemma {:induction false} FloorLog2Bounds(x: nat)
    requires x > 0
    ensures Pow2(FloorLog2(x)) <= x < Pow2(FloorLog2(x) + 1)
  {
    if x >= 2 {
      FloorLog2Bounds(x / 2);
    }
  }

  // -- Counting covers -------------------------------------------------

  lemma {:induction false} CoverListWithout(s: seq<nat>, i: nat, k: nat, p: nat)
    requires i < |s|
    ensures CoverList(s, k, p) == CoverList(s[..i] + s[i + 1..], k, p) + One(Block(s[i], k), p)
  {
    var t := s[..i] + s[i + 1..];
    if i == 0 {
      assert t == s[1..];
    } else {
      CoverListWithout(s[1..], i - 1, k, p);
      assert t[1..] == s[1..][..i - 1] + s[1..][i..];
    }
  }

  lemma {:induction false} CoverFromUpdate(lists: Lists, k: nat, j: nat, s: seq<nat>, p: nat)
    requires j < |lists|
    ensures CoverFrom(lists[j := s], k, p) + (if k <= j then CoverList(lists[j], j, p) else 0)
         == CoverFrom(lists, k, p) + (if k <= j then CoverList(s, j, p) else 0)
    decreases |lists| - k
  {
    if k < |lists| {
      CoverFromUpdate(lists, k + 1, j, s, p);
    }
  }

  lemma {:induction false} WeightFromUpdate(lists: Lists, k: nat, j: nat, s: seq<nat>)
    requires j < |lists|
    ensures WeightFrom(lists[j := s], k) + (if k <= j then |lists[j]| * Pow2(j) else 0)
         == WeightFrom(lists, k) + (if k <= j then |s| * Pow2(j) else 0)
    decreases |lists| - k
  {
    if k < |lists| {
      WeightFromUpdate(lists, k + 1, j, s);
    }
  }

  function Push(lists: Lists, b: Block): Lists
    requires b.order < |lists|
  {
    lists[b.order := [b.pn] + lists[b.order]]
  }

  function Without(lists: Lists, k: nat, i: nat): Lists
    requires k < |lists| && i < |lists[k]|
  {
    lists[k := lists[k][..i] + lists[k][i + 1..]]
  }

  lemma PushCounts(lists: Lists, b: Block)
    requires b.order < |lists|
    ensures forall p :: Cover(Push(lists, b), p) == Cover(lists, p) + One(b, p)
    ensures Weight(Push(lists, b)) == Weight(lists) + Pow2(b.order)
    ensures AllAligned(lists) && AlignedTo(b.pn, b.order) ==> AllAligned(Push(lists, b))
  {
    var s := [b.pn] + lists[b.order];
    assert s[1..] == lists[b.order];
    forall p
      ensures Cover(Push(lists, b), p) == Cover(lists, p) + One(b, p)
    {
      CoverFromUpdate(lists, 0, b.order, s, p);
    }
    WeightFromUpdate(lists, 0, b.order, s);
    assert |s| * Pow2(b.order) == |lists[b.order]| * Pow2(b.order) + Pow2(b.order);
  }

  lemma WithoutCounts(lists: Lists, k: nat, i: nat)
    requires k < |lists| && i < |lists[k]|
    ensures forall p :: Cover(lists, p) == Cover(Without(lists, k, i), p) + One(Block(lists[k][i], k), p)
    ensures Weight(lists) == Weight(Without(lists, k, i)) + Pow2(k)
    ensures AllAligned(lists) ==> AllAligned(Without(lists, k, i)) && AlignedTo(lists[k][i], k)
  {
    var s := lists[k][..i] + lists[k][i + 1..];
    forall p
      ensures Cover(lists, p) == Cover(Without(lists, k, i), p) + One(Block(lists[k][i], k), p)
    {
      CoverListWithout(lists[k], i, k, p);
      CoverFromUpdate(lists, 0, k, s, p);
    }
    WeightFromUpdate(lists, 0, k, s);
    assert |lists[k]| * Pow2(k) == |s| * Pow2(k) + Pow2(k);
  }

  // Halving a block or joining two buddies covers the same pages.
  lemma HalvesCover(pn: nat, k: nat, p: nat)
    ensures One(Block(pn, k + 1), p) == One(Block(pn, k), p) + One(Block(pn + Pow2(k), k), p)
  {
  }

  // -- What a cover count of at most one means --------------------------

  lemma {:induction false} ListedCovers(lists: Lists, k: nat, j: nat, i: nat, p: nat)
    requires k <= j < |lists| && i < |lists[j]| && Has(Block(lists[j][i], j), p)
    ensures CoverFrom(lists, k, p) >= 1
    decreases |lists| - k
  {
    if k == j {
      CoverListWithout(lists[j], i, j, p);
    } else {
      ListedCovers(lists, k + 1, j, i, p);
    }
  }

  // If no page is covered twice, two different places on the lists hold disjoint blocks.
  lemma CoverOnceDisjoint(lists: Lists, k: nat, i: nat, l: nat, j: nat, p: nat)
    requires k < |lists| && i < |lists[k]| && l < |lists| && j < |lists[l]| && (k, i) != (l, j)
    requires Cover(lists, p) <= 1
    ensures !(Has(Block(lists[k][i], k), p) && Has(Block(lists[l][j], l), p))
  {
    if Has(Block(lists[k][i], k), p) && Has(Block(lists[l][j], l), p) {
      WithoutCounts(lists, k, i);
      var rest := Without(lists, k, i);
      ListedCovers(rest, 0, l, if l == k && j > i then j - 1 else j, p);
      assert false;
    }
  }

  ghost function Interval(lo: nat, hi: nat): (s: set<nat>)
    ensures forall p :: p in s <==> lo <= p < hi
    ensures |s| == if lo <= hi then hi - lo else 0
  {
    if lo >= hi then {} else Interval(lo, hi - 1) + {hi - 1}
  }

  ghost function BlockPages(b: Block): set<nat> {
    Interval(b.pn, b.pn + Pow2(b.order))
  }

  ghost function ListPages(s: seq<nat>, k: nat): set<nat> {
    if s == [] then {} else BlockPages(Block(s[0], k)) + ListPages(s[1..], k)
  }

  ghost function PagesFrom(lists: Lists, k: nat): set<nat>
    decreases |lists| - k
  {
    if k >= |lists| then {} else ListPages(lists[k], k) + PagesFrom(lists, k + 1)
  }

  // The set of free pages.
  ghost function Pages(lists: Lists): set<nat> {
    PagesFrom(lists, 0)
  }

  lemma {:induction false} ListPagesIn(s: seq<nat>, k: nat, p: nat)
    ensures p in ListPages(s, k) <==> CoverList(s, k, p) > 0
  {
    if s != [] {
      ListPagesIn(s[1..], k, p);
    }
  }

  lemma {:induction false} ListPagesCount(s: seq<nat>, k: nat)
    requires forall p: nat :: CoverList(s, k, p) <= 1
    ensures |ListPages(s, k)| == |s| * Pow2(k)
  {
    if s != [] {
      var first, rest := BlockPages(Block(s[0], k)), s[1..];
      forall p: nat
        ensures CoverList(rest, k, p) <= 1
      {
        assert CoverList(s, k, p) == One(Block(s[0], k), p) + CoverList(rest, k, p);
      }
      ListPagesCount(rest, k);
      forall p | p in first
        ensures p !in ListPages(rest, k)
      {
        ListPagesIn(rest, k, p);
        assert CoverList(s, k, p) == One(Block(s[0], k), p) + CoverList(rest, k, p);
      }
      assert first !! ListPages(rest, k);
      assert |ListPages(s, k)| == |first| + |ListPages(rest, k)|;
      Times(|rest|, Pow2(k));
    }
  }

  lemma Times(n: nat, m: nat)
    ensures (n + 1) * m == n * m + m
  {
  }

  lemma {:induction false} PagesFromIn(lists: Lists, k: nat, p: nat)
    ensures p in PagesFrom(lists, k) <==> CoverFrom(lists, k, p) > 0
    decreases |lists| - k
  {
    if k < |lists| {
      PagesFromIn(lists, k + 1, p);
      ListPagesIn(lists[k], k, p);
    }
  }

  lemma {:induction false} PagesFromCount(lists: Lists, k: nat)
    requires forall p: nat :: CoverFrom(lists, k, p) <= 1
    ensures |PagesFrom(lists, k)| == WeightFrom(lists, k)
    decreases |lists| - k
  {
    if k < |lists| {
      var next := k + 1;
      forall p: nat
        ensures CoverFrom(lists, next, p) <= 1
      {
        assert CoverFrom(lists, k, p) == CoverList(lists[k], k, p) + CoverFrom(lists, next, p);
      }
      PagesFromCount(lists, next);
      forall p: nat
        ensures CoverList(lists[k], k, p) <= 1
      {
        assert CoverFrom(lists, k, p) == CoverList(lists[k], k, p) + CoverFrom(lists, next, p);
      }
      ListPagesCount(lists[k], k);
      forall p | p in ListPages(lists[k], k)
        ensures p !in PagesFrom(lists, next)
      {
        PagesFromIn(lists, next, p);
        ListPagesIn(lists[k], k, p);
        assert CoverFrom(lists, k, p) == CoverList(lists[k], k, p) + CoverFrom(lists, next, p);
      }
      assert ListPages(lists[k], k) !! PagesFrom(lists, next);
    }
  }

  // When no page is covered twice, the free pages number exactly the sum of 2^k.
  lemma FreePagesCounted(lists: Lists)
    requires forall p :: Cover(lists, p) <= 1
    ensures |Pages(lists)| == Weight(lists)
    ensures forall p :: p in Pages(lists) <==> Cover(lists, p) == 1
  {
    assert forall p :: CoverFrom(lists, 0, p) == Cover(lists, p);
    PagesFromCount(lists, 0);
    forall p
      ensures p in Pages(lists) <==> Cover(lists, p) == 1
    {
      PagesFromIn(lists, 0, p);
    }
  }

  // -- The greedy tiling -----------------------------------------------

  // The order that carve_range and free_pages_chunked choose at `pn` with `n` pages left.
  function ChunkOrder(pn: nat, n: nat): nat
    requires n > 0
  {
    var maxFit := if n <= 1 then 0 else FloorLog2(n - 1);
    Min(MAX_ORDER, Min(TrailingZeros(pn), maxFit))
  }

  function Min(a: nat, b: nat): nat {
    if a < b then a else b
  }

  lemma ChunkFits(pn: nat, n: nat)
    requires n > 0
    ensures var k := ChunkOrder(pn, n);
            k <= MAX_ORDER && AlignedTo(pn, k) && Pow2(k) <= n && (n > 1 ==> Pow2(k) < n)
  {
    var k := ChunkOrder(pn, n);
    TrailingZerosMeansAligned(pn, k);
    if n > 1 {
      FloorLog2Bounds(n - 1);
      Pow2Monotone(k, FloorLog2(n - 1));
    }
  }

  // The tiling of [pn, pn + n) the greedy loop produces.
  function Chunks(pn: nat, n: nat): seq<Block>
    decreases n
  {
    if n == 0 then [] else
    ChunkFits(pn, n);
    var k := ChunkOrder(pn, n);
    [Block(pn, k)] + Chunks(pn + Pow2(k), n - Pow2(k))
  }

  lemma ChunksStep(pn: nat, n: nat)
    requires n > 0
    ensures var k := ChunkOrder(pn, n);
            && k <= MAX_ORDER && AlignedTo(pn, k) && Pow2(k) <= n
            && Chunks(pn, n) != [] && Chunks(pn, n)[0] == Block(pn, k)
            && Chunks(pn, n)[1..] == Chunks(pn + Pow2(k), n - Pow2(k))
  {
    ChunkFits(pn, n);
  }

  function CoverBlocks(bs: seq<Block>, p: nat): nat {
    if bs == [] then 0 else One(bs[0], p) + CoverBlocks(bs[1..], p)
  }

  // Every page of the range is in exactly one chunk, and no other page is in any.
  lemma ChunksTile(pn: nat, n: nat, p: nat)
    ensures CoverBlocks(Chunks(pn, n), p) == if pn <= p < pn + n then 1 else 0
    ensures forall i :: 0 <= i < |Chunks(pn, n)| ==>
              var b := Chunks(pn, n)[i]; b.order <= MAX_ORDER && AlignedTo(b.pn, b.order)
  {
    ChunksCover(pn, n, p);
    ChunksAligned(pn, n);
  }

  // The first chunk, of `size` pages, and the rest.
  lemma FirstChunk(pn: nat, n: nat) returns (k: nat, size: nat)
    requires n > 0
    ensures size == Pow2(k) <= n && Chunks(pn, n) == [Block(pn, k)] + Chunks(pn + size, n - size)
  {
    ChunkFits(pn, n);
    k := ChunkOrder(pn, n);
    size := Pow2(k);
  }

  lemma {:induction false} ChunksCover(pn: nat, n: nat, p: nat)
    ensures CoverBlocks(Chunks(pn, n), p) == if pn <= p < pn + n then 1 else 0
    decreases n
  {
    if n > 0 {
      var k, size := FirstChunk(pn, n);
      var rest := Chunks(pn + size, n - size);
      ChunksCover(pn + size, n - size, p);
      assert ([Block(pn, k)] + rest)[1..] == rest;
      assert CoverBlocks([Block(pn, k)] + rest, p) == One(Block(pn, k), p) + CoverBlocks(rest, p);
    }
  }

  lemma {:induction false} ChunksAligned(pn: nat, n: nat)
    ensures forall i :: 0 <= i < |Chunks(pn, n)| ==>
              var b := Chunks(pn, n)[i]; b.order <= MAX_ORDER && AlignedTo(b.pn, b.order)
    decreases n
  {
    if n > 0 {
      ChunksStep(pn, n);
      var k := ChunkOrder(pn, n);
      ChunksAligned(pn + Pow2(k), n - Pow2(k));
    }
  }

  // The order a largest-fitting choice would take.
  function LargestOrder(pn: nat, n: nat): nat
    requires n > 0
  {
    Min(MAX_ORDER, Min(TrailingZeros(pn), FloorLog2(n)))
  }

  lemma LargestOrderIsLargest(pn: nat, n: nat, j: nat)
    requires n > 0 && j <= MAX_ORDER && j <= TrailingZeros(pn) && Pow2(j) <= n
    ensures j <= LargestOrder(pn, n)
  {
    FloorLog2Bounds(n);
    if FloorLog2(n) < j {
      Pow2Monotone(FloorLog2(n) + 1, j);
    }
  }

  lemma FloorLog2Before(n: nat)
    requires n > 1
    ensures FloorLog2(n - 1) == if Pow2(FloorLog2(n)) == n then FloorLog2(n) - 1 else FloorLog2(n)
  {
    var f, m := FloorLog2(n - 1), FloorLog2(n);
    FloorLog2Bounds(n - 1);
    FloorLog2Bounds(n);
    if f + 1 < m { Pow2Monotone(f + 1, m - 1); }
    if f < m { Pow2Monotone(f + 1, m); }
    if m < f { Pow2Monotone(m + 1, f); }
  }

  // The documentation promises the largest possible blocks. The greedy choice is the largest
  // exactly when the pages left are not themselves a power of two 2^m, m >= 1, that alignment
  // and MAX_ORDER would allow: there the loop settles for half of it.
  lemma ChunkIsLargest(pn: nat, n: nat)
    requires n > 0
    ensures ChunkOrder(pn, n) == LargestOrder(pn, n)
       <==> !(n > 1 && Pow2(FloorLog2(n)) == n && FloorLog2(n) <= MAX_ORDER && FloorLog2(n) <= TrailingZeros(pn))
  {
    if n > 1 {
      FloorLog2Before(n);
      assert FloorLog2(n) >= 1;
    }
  }

  lemma TwoAlignedPagesAreSplit(pn: nat)
    requires pn % 2 == 0
    ensures Chunks(pn, 2) == [Block(pn, 0), Block(pn + 1, 0)]
    ensures LargestOrder(pn, 2) == 1
  {
    assert FloorLog2(1) == 0 && FloorLog2(2) == 1;
    assert TrailingZeros(pn) >= 1;
    assert ChunkOrder(pn, 2) == 0;
    assert Chunks(pn + 1, 1) == [Block(pn + 1, 0)] + Chunks(pn + 2, 0);
  }
}
