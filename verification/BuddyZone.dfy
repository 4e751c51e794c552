/** The buddy page allocator of kernel/src/mm/phys.rs, one operation at a time. Addresses are
    page numbers, except where the source is handed a byte address that may be unaligned.
    The singly linked free lists are sequences, head first. */
module BuddyZone {
  import opened Basics
  import opened BuddyBlocks

  const PAGE_SIZE: nat := 4096
  const U64_MAX: nat := 0xFFFF_FFFF_FFFF_FFFF
  const BOOTINFO_HANDOFF_PN: nat := 5
  const REFCOUNT_MAX_PAGES: nat := 32768
  const CARVE_SLOTS: nat := 64

  // Zone bounds and the reserved ranges, as page numbers. A range of no pages reserves nothing.
  datatype Config = Config(base: nat, top: nat, bootPn: nat, bootPages: nat, kernelPn: nat, kernelPages: nat)

  predicate Reserved(c: Config, pn: nat) {
    || pn == 0 || pn == BOOTINFO_HANDOFF_PN
    || c.bootPn <= pn < c.bootPn + c.bootPages
    || c.kernelPn <= pn < c.kernelPn + c.kernelPages
  }

  // free_order takes the block at all.
  predicate Accepts(c: Config, b: Block) {
    b.order <= MAX_ORDER && !Reserved(c, b.pn) && c.base <= b.pn && b.pn + Pow2(b.order) <= c.top
  }

  // The reference-count gate: a tracked single page is released only at count 1.
  predicate PassesGate(refcounts: seq<nat>, b: Block) {
    b.order > 0 || b.pn >= |refcounts| || refcounts[b.pn] == 1
  }

  function Unref(refcounts: seq<nat>, pn: nat): seq<nat> {
    if pn < |refcounts| then refcounts[pn := (refcounts[pn] + 0xFFFF) % 0x1_0000] else refcounts
  }

  // How many of the chunks that free_order actually gives back contain page `p`.
  function Returned(c: Config, refcounts: seq<nat>, bs: seq<Block>, p: nat): nat {
    if bs == [] then 0 else
    (if Accepts(c, bs[0]) && PassesGate(refcounts, bs[0]) then One(bs[0], p) else 0)
    + Returned(c, refcounts, bs[1..], p)
  }

  // The counts after freeing the chunks: each accepted chunk of one page lost a reference.
  function Unrefs(c: Config, refcounts: seq<nat>, bs: seq<Block>): seq<nat>
    decreases |bs|
  {
    if bs == [] then refcounts else
    Unrefs(c, if Accepts(c, bs[0]) && bs[0].order == 0 then Unref(refcounts, bs[0].pn) else refcounts, bs[1..])
  }

  // The free pages and what is still to come back of `rest` are the free pages and what was to come back
  // of `goal` before.
  ghost predicate Settles(c: Config, refs: seq<nat>, before: Lists, goal: seq<Block>, now: Lists, rest: seq<Block>) {
    forall p: nat :: Cover(now, p) + Returned(c, refs, rest, p) == Cover(before, p) + Returned(c, refs, goal, p)
  }

  lemma SettlesOn(c: Config, refs: seq<nat>, a: Lists, x: seq<Block>, b: Lists, y: seq<Block>, d: Lists, z: seq<Block>)
    requires Settles(c, refs, a, x, b, y) && Settles(c, refs, b, y, d, z)
    ensures Settles(c, refs, a, x, d, z)
  {
  }

  function SatAdd(a: nat, b: nat): nat {
    if a + b > U64_MAX then U64_MAX else a + b
  }

  function DownToPage(x: nat): nat { x / PAGE_SIZE }

  // align_up: the addition saturates before the mask is applied.
  function UpToPage(x: nat): nat { SatAdd(x, PAGE_SIZE - 1) / PAGE_SIZE }

  datatype Region = Region(start: nat, size: nat)

  function FirstPage(r: Region): nat { UpToPage(r.start) }

  function EndPage(r: Region): nat { DownToPage(SatAdd(r.start, r.size)) }

  predicate Excluded(pn: nat, excludes: seq<Region>) {
    exists i :: 0 <= i < |excludes| &&
      pn * PAGE_SIZE < SatAdd(excludes[i].start, excludes[i].size) &&
      SatAdd(pn * PAGE_SIZE, PAGE_SIZE) > excludes[i].start
  }

  predicate Usable(c: Config, excludes: seq<Region>, pn: nat) {
    !Reserved(c, pn) && !Excluded(pn, excludes)
  }

  // Number of regions whose whole pages include `p`.
  function RegionsAt(regions: seq<Region>, p: nat): nat {
    if regions == [] then 0 else
    (if FirstPage(regions[0]) <= p < EndPage(regions[0]) then 1 else 0) + RegionsAt(regions[1..], p)
  }

  function CoverRanges(rs: seq<(nat, nat)>, p: nat): nat {
    if rs == [] then 0 else (if rs[0].0 <= p < rs[0].1 then 1 else 0) + CoverRanges(rs[1..], p)
  }

  lemma {:induction false} CoverRangesAppend(rs: seq<(nat, nat)>, r: (nat, nat), p: nat)
    ensures CoverRanges(rs + [r], p) == CoverRanges(rs, p) + if r.0 <= p < r.1 then 1 else 0
  {
    if rs != [] {
      CoverRangesAppend(rs[1..], r, p);
      assert (rs + [r])[1..] == rs[1..] + [r];
    }
  }

  lemma {:induction false} RegionsAtAppend(regions: seq<Region>, r: Region, p: nat)
    ensures RegionsAt(regions + [r], p) ==
            RegionsAt(regions, p) + if FirstPage(r) <= p < EndPage(r) then 1 else 0
  {
    if regions != [] {
      RegionsAtAppend(regions[1..], r, p);
      assert (regions + [r])[1..] == regions[1..] + [r];
    }
  }

  // Orders from `k` up that hold no block.
  predicate NoneFrom(lists: Lists, k: nat) {
    forall j :: k <= j < |lists| ==> lists[j] == []
  }

  // The order alloc_order pops from.
  function SourceOrder(lists: Lists, k: nat): (h: nat)
    requires k < |lists| && !NoneFrom(lists, k)
    ensures k <= h < |lists| && lists[h] != []
    ensures forall j :: k <= j < h ==> lists[j] == []
    decreases |lists| - k
  {
    if lists[k] != [] then k else SourceOrder(lists, k + 1)
  }

  class Zone {
    var cfg: Config
    var lists: Lists
    var totalPages: nat
    var freePages: nat
    var refcounts: seq<nat>
    var initialized: bool

    // The lists are well shaped and the counter is the sum of 2^k.
    ghost predicate Consistent()
      reads this
    {
      && |lists| == MAX_ORDER + 1 && AllAligned(lists) && freePages == Weight(lists)
      && |refcounts| == REFCOUNT_MAX_PAGES
    }

    // Free blocks are also pairwise disjoint, inside the zone and off the reserved pages.
    ghost predicate Valid()
      reads this
    {
      && Consistent()
      && forall p: nat ::
           Cover(lists, p) <= 1 && (Cover(lists, p) == 1 ==> cfg.base <= p < cfg.top && !Reserved(cfg, p))
    }

    method AddBlock(pn: nat, order: nat)
      requires Consistent() && order <= MAX_ORDER && AlignedTo(pn, order)
      modifies this`lists, this`freePages
      ensures Consistent() && lists == Push(old(lists), Block(pn, order))
      ensures forall p: nat :: Cover(lists, p) == old(Cover(lists, p)) + One(Block(pn, order), p)
    {
      PushCounts(lists, Block(pn, order));
      lists := lists[order := [pn] + lists[order]];
      freePages := freePages + Pow2(order);
    }

    method PopBlock(order: nat) returns (r: Option<nat>)
      requires Consistent() && order <= MAX_ORDER
      modifies this`lists, this`freePages
      ensures Consistent()
      ensures r.None? <==> old(lists)[order] == []
      ensures r.None? ==> lists == old(lists)
      ensures r.Some? ==> r.value == old(lists)[order][0] && lists == old(lists)[order := old(lists)[order][1..]]
      ensures r.Some? ==> AlignedTo(r.value, order)
      ensures r.Some? ==> forall p: nat :: old(Cover(lists, p)) == Cover(lists, p) + One(Block(r.value, order), p)
    {
      if lists[order] == [] {
        return None;
      }
      WithoutCounts(lists, order, 0);
      assert lists[order][..0] + lists[order][1..] == lists[order][1..];
      var head := lists[order][0];
      lists := lists[order := lists[order][1..]];
      freePages := freePages - Pow2(order);
      return Some(head);
    }

    method RemoveBlock(target: nat, order: nat) returns (found: bool)
      requires Consistent() && order <= MAX_ORDER
      modifies this`lists, this`freePages
      ensures Consistent()
      ensures found <==> target in old(lists)[order]
      ensures !found ==> lists == old(lists)
      ensures found ==> forall p: nat :: old(Cover(lists, p)) == Cover(lists, p) + One(Block(target, order), p)
    {
      var i := 0;
      while i < |lists[order]|
        invariant i <= |lists[order]| && target !in lists[order][..i]
        invariant lists == old(lists) && freePages == old(freePages)
      {
        if lists[order][i] == target {
          TakeAt(order, i);
          return true;
        }
        i := i + 1;
      }
      return false;
    }

    // Tiles [start, end) with blocks; blocks larger than the range are left alone.
    method CarveRange(start: nat, end: nat)
      requires Consistent() && start <= end
      modifies this`lists, this`freePages
      ensures Consistent()
      ensures forall p: nat :: Cover(lists, p) == old(Cover(lists, p)) + if start <= p < end then 1 else 0
      ensures forall k :: 0 <= k <= MAX_ORDER && end - start < Pow2(k) ==> lists[k] == old(lists)[k]
    {
      var pn := start;
      while pn < end
        invariant start <= pn <= end && Consistent()
        invariant forall p: nat :: Cover(lists, p) == old(Cover(lists, p)) + if start <= p < pn then 1 else 0
        invariant forall k :: 0 <= k <= MAX_ORDER && end - start < Pow2(k) ==> lists[k] == old(lists)[k]
      {
        ChunkFits(pn, end - pn);
        var order := ChunkOrder(pn, end - pn);
        AddBlock(pn, order);
        pn := pn + Pow2(order);
      }
    }

    // Joins the block with its buddy, as long as the buddy is free, and lists the result.
    method Coalesce(pn: nat, order: nat)
      requires Consistent() && order <= MAX_ORDER && AlignedTo(pn, order)
      modifies this`lists, this`freePages
      ensures Consistent()
      ensures forall p: nat :: Cover(lists, p) == old(Cover(lists, p)) + One(Block(pn, order), p)
      decreases MAX_ORDER - order
    {
      if order >= MAX_ORDER {
        AddBlock(pn, order);
        return;
      }
      BuddyCompletes(pn, order);
      var buddy := FlipBit(pn, order);
      var found := RemoveBlock(buddy, order);
      if found {
        var low := if pn < buddy then pn else buddy;
        forall p: nat
          ensures One(Block(low, order + 1), p) == One(Block(pn, order), p) + One(Block(buddy, order), p)
        {
          HalvesCover(low, order, p);
        }
        Coalesce(low, order + 1);
      } else {
        AddBlock(pn, order);
      }
    }

    method AllocOrder(order: nat) returns (r: Option<nat>)
      requires Consistent()
      modifies this`lists, this`freePages, this`refcounts
      ensures Consistent() && (old(Valid()) ==> Valid())
      ensures r.None? <==> order > MAX_ORDER || NoneFrom(old(lists), order)
      ensures r.None? ==> lists == old(lists) && refcounts == old(refcounts)
      ensures r.Some? ==> var h := SourceOrder(old(lists), order);
                          AlignedTo(r.value, order) && r.value == old(lists)[h][0] + Pow2(h) - Pow2(order)
      ensures r.Some? ==> forall p: nat :: old(Cover(lists, p)) == Cover(lists, p) + One(Block(r.value, order), p)
      ensures r.Some? ==> refcounts == if order == 0 && r.value < REFCOUNT_MAX_PAGES
                                       then old(refcounts)[r.value := 1] else old(refcounts)
    {
      if order > MAX_ORDER {
        return None;
      }
      var fast := PopBlock(order);
      if fast.Some? {
        ResetRefcount(fast.value, order);
        return fast;
      }
      var higher := order + 1;
      while higher <= MAX_ORDER
        invariant order < higher <= MAX_ORDER + 1 && Consistent() && lists == old(lists) && refcounts == old(refcounts)
        invariant forall j :: order <= j < higher ==> lists[j] == []
      {
        var popped := PopBlock(higher);
        if popped.Some? {
          var current := SplitDown(popped.value, higher, order);
          ResetRefcount(current, order);
          assert higher == SourceOrder(old(lists), order);
          return Some(current);
        }
        higher := higher + 1;
      }
      return None;
    }

    // The splitting loop of alloc_order: the lower half of each cut goes back on a list.
    method SplitDown(pn: nat, higher: nat, order: nat) returns (current: nat)
      requires Consistent() && order <= higher <= MAX_ORDER && AlignedTo(pn, higher)
      modifies this`lists, this`freePages
      ensures Consistent() && AlignedTo(current, order) && current == pn + Pow2(higher) - Pow2(order)
      ensures forall p: nat :: Cover(lists, p) + One(Block(current, order), p)
                            == old(Cover(lists, p)) + One(Block(pn, higher), p)
    {
      current := pn;
      var cut := higher;
      while cut > order
        invariant order <= cut <= higher && Consistent() && AlignedTo(current, cut)
        invariant current == pn + Pow2(higher) - Pow2(cut)
        invariant forall p: nat :: Cover(lists, p) + One(Block(current, cut), p)
                                == old(Cover(lists, p)) + One(Block(pn, higher), p)
      {
        cut := cut - 1;
        current := Halve(current, cut);
      }
    }

    // The lower half goes on a list, the upper half is what is left.
    method Halve(pn: nat, order: nat) returns (upper: nat)
      requires Consistent() && order < MAX_ORDER && AlignedTo(pn, order + 1)
      modifies this`lists, this`freePages
      ensures Consistent() && upper == pn + Pow2(order) && AlignedTo(upper, order)
      ensures forall p: nat :: Cover(lists, p) + One(Block(upper, order), p)
                            == old(Cover(lists, p)) + One(Block(pn, order + 1), p)
    {
      AlignedHalves(pn, order);
      forall p: nat
        ensures One(Block(pn, order + 1), p) == One(Block(pn, order), p) + One(Block(pn + Pow2(order), order), p)
      {
        HalvesCover(pn, order, p);
      }
      AddBlock(pn, order);
      upper := pn + Pow2(order);
    }

    method ResetRefcount(pn: nat, order: nat)
      modifies this`refcounts
      ensures refcounts == if order == 0 && pn < |old(refcounts)| then old(refcounts)[pn := 1] else old(refcounts)
    {
      if order == 0 && pn < |refcounts| {
        refcounts := refcounts[pn := 1];
      }
    }

    // unref_page: the decrement wraps at 16 bits, and only a count of 1 reads as "last".
    method UnrefPage(pn: nat) returns (last: bool)
      modifies this`refcounts
      ensures refcounts == Unref(old(refcounts), pn)
      ensures last == PassesGate(old(refcounts), Block(pn, 0))
    {
      if pn >= |refcounts| {
        return true;
      }
      var prev := refcounts[pn];
      refcounts := refcounts[pn := (prev + 0xFFFF) % 0x1_0000];
      return prev == 1;
    }

    // `addr` is in bytes. What is freed must be a block the caller holds, hence aligned.
    method FreeOrder(addr: nat, order: nat)
      requires Consistent() && AlignedTo(addr / PAGE_SIZE, order)
      modifies this`lists, this`freePages, this`refcounts
      ensures Consistent()
      ensures var b := Block(addr / PAGE_SIZE, order);
              var taken := addr % PAGE_SIZE == 0 && Accepts(cfg, b);
              && (if taken && PassesGate(old(refcounts), b)
                  then forall p: nat :: Cover(lists, p) == old(Cover(lists, p)) + One(b, p)
                  else lists == old(lists))
              && refcounts == if taken && order == 0 then Unref(old(refcounts), b.pn) else old(refcounts)
    {
      if order > MAX_ORDER || addr % PAGE_SIZE != 0 {
        return;
      }
      var pn := addr / PAGE_SIZE;
      if Reserved(cfg, pn) {
        return;
      }
      if pn < cfg.base || pn + Pow2(order) > cfg.top {
        return;
      }
      if order == 0 {
        var last := UnrefPage(pn);
        if !last {
          return;
        }
      }
      Coalesce(pn, order);
    }

    // Gives the `count` pages from byte address `addr` on back chunk by chunk: exactly the accepted
    // chunks that pass the reference-count gate, judged on the counts at entry, become free. Off a page
    // boundary nothing does.
    method FreePagesChunked(addr: nat, count: nat)
      requires Consistent()
      modifies this`lists, this`freePages, this`refcounts
      ensures Consistent()
      ensures addr % PAGE_SIZE != 0 ==> lists == old(lists) && refcounts == old(refcounts)
      ensures addr % PAGE_SIZE == 0 ==>
                var pn := addr / PAGE_SIZE;
                && (forall p: nat :: Cover(lists, p) == old(Cover(lists, p))
                                  + Returned(cfg, old(refcounts), Chunks(pn, count), p))
                && refcounts == Unrefs(cfg, old(refcounts), Chunks(pn, count))
                && forall q: nat :: q < REFCOUNT_MAX_PAGES && !(pn <= q < pn + count) ==>
                     refcounts[q] == old(refcounts)[q]
    {
      if addr % PAGE_SIZE == 0 {
        FreeAligned(addr / PAGE_SIZE, count);
      } else {
        FreeMisaligned(addr, count);
      }
    }

    // The chunk loop off a page boundary: free_order refuses every chunk.
    method FreeMisaligned(addr: nat, count: nat)
      requires Consistent() && addr % PAGE_SIZE != 0
      modifies this`lists, this`freePages, this`refcounts
      ensures Consistent() && lists == old(lists) && refcounts == old(refcounts)
    {
      var done := 0;
      while done < count
        invariant done <= count && Consistent() && lists == old(lists) && refcounts == old(refcounts)
      {
        var current := addr + done * PAGE_SIZE;
        assert current % PAGE_SIZE == addr % PAGE_SIZE;
        var order := ChunkOrder(current / PAGE_SIZE, count - done);
        ChunkFits(current / PAGE_SIZE, count - done);
        FreeOrder(current, order);
        done := done + Pow2(order);
      }
    }

    // The chunk loop on a page boundary.
    method FreeAligned(pn: nat, count: nat)
      requires Consistent()
      modifies this`lists, this`freePages, this`refcounts
      ensures Consistent()
      ensures forall p: nat :: Cover(lists, p) == old(Cover(lists, p))
                            + Returned(cfg, old(refcounts), Chunks(pn, count), p)
      ensures refcounts == Unrefs(cfg, old(refcounts), Chunks(pn, count))
      ensures forall q: nat :: q < REFCOUNT_MAX_PAGES && !(pn <= q < pn + count) ==> refcounts[q] == old(refcounts)[q]
    {
      ghost var refs, before := refcounts, lists;
      ghost var goal := Chunks(pn, count);
      ghost var rest := goal;
      var current := pn;
      while current < pn + count
        invariant pn <= current <= pn + count && Consistent() && rest == Chunks(current, pn + count - current)
        invariant Settles(cfg, refs, before, goal, lists, rest)
        invariant Unrefs(cfg, refcounts, rest) == Unrefs(cfg, refs, goal)
        invariant forall q: nat :: q < REFCOUNT_MAX_PAGES && !(pn <= q < current) ==> refcounts[q] == refs[q]
      {
        ghost var was := lists;
        var size := FreeFirst(current, pn + count - current, refs, rest);
        SettlesOn(cfg, refs, before, goal, was, rest, lists, rest[1..]);
        rest := rest[1..];
        current := current + size;
      }
    }

    // The same with the size of the chunk in pages.
    method FreeFirst(pn: nat, n: nat, ghost refs: seq<nat>, ghost rest: seq<Block>) returns (size: nat)
      requires Consistent() && n > 0 && |refs| == REFCOUNT_MAX_PAGES && rest == Chunks(pn, n)
      requires pn < REFCOUNT_MAX_PAGES ==> refcounts[pn] == refs[pn]
      modifies this`lists, this`freePages, this`refcounts
      ensures Consistent() && rest != [] && 1 <= size <= n && rest[1..] == Chunks(pn + size, n - size)
      ensures Settles(cfg, refs, old(lists), rest, lists, rest[1..])
      ensures Unrefs(cfg, refcounts, rest[1..]) == Unrefs(cfg, old(refcounts), rest)
      ensures forall q: nat :: q < REFCOUNT_MAX_PAGES && q != pn ==> refcounts[q] == old(refcounts)[q]
    {
      var order := FreeChunk(pn, n, refs, rest);
      size := Pow2(order);
    }

    // One turn of the chunk loop with `n` pages left; `refs` are the counts the loop started from.
    method FreeChunk(pn: nat, n: nat, ghost refs: seq<nat>, ghost rest: seq<Block>) returns (order: nat)
      requires Consistent() && n > 0 && |refs| == REFCOUNT_MAX_PAGES && rest == Chunks(pn, n)
      requires pn < REFCOUNT_MAX_PAGES ==> refcounts[pn] == refs[pn]
      modifies this`lists, this`freePages, this`refcounts
      ensures Consistent() && order == ChunkOrder(pn, n) && rest != []
      ensures 1 <= Pow2(order) <= n && rest[1..] == Chunks(pn + Pow2(order), n - Pow2(order))
      ensures forall p: nat :: Cover(lists, p) + Returned(cfg, refs, rest[1..], p)
                            == old(Cover(lists, p)) + Returned(cfg, refs, rest, p)
      ensures Unrefs(cfg, refcounts, rest[1..]) == Unrefs(cfg, old(refcounts), rest)
      ensures forall q: nat :: q < REFCOUNT_MAX_PAGES && q != pn ==> refcounts[q] == old(refcounts)[q]
    {
      order := ChunkOrder(pn, n);
      ChunksStep(pn, n);
      ByteAddress(pn);
      assert PassesGate(refcounts, Block(pn, order)) == PassesGate(refs, Block(pn, order));
      FreeOrder(pn * PAGE_SIZE, order);
    }

    // free_pages refuses to do anything.
    ghost predicate Refuses(addr: nat, count: nat)
      reads this
    {
      count == 0 || Reserved(cfg, addr / PAGE_SIZE) || addr % PAGE_SIZE != 0
    }

    method FreePages(addr: nat, count: nat)
      requires Consistent()
      modifies this`lists, this`freePages, this`refcounts
      ensures Consistent()
      ensures Refuses(addr, count) ==> lists == old(lists) && refcounts == old(refcounts)
      ensures !Refuses(addr, count) ==>
                var chunks := Chunks(addr / PAGE_SIZE, count);
                && (forall p: nat :: Cover(lists, p) == old(Cover(lists, p)) + Returned(cfg, old(refcounts), chunks, p))
                && refcounts == Unrefs(cfg, old(refcounts), chunks)
    {
      if count == 0 || Reserved(cfg, addr / PAGE_SIZE) {
        return;
      }
      FreePagesChunked(addr, count);
    }

    // Takes a block of the next power of two and hands the tail back. The `count` pages
    // returned leave the free lists; of the tail, the returned chunks come back.
    method AllocPages(count: nat) returns (r: Option<nat>)
      requires Consistent()
      modifies this`lists, this`freePages, this`refcounts
      ensures Consistent()
      ensures r.None? <==> count == 0 || count > Pow2(MAX_ORDER) || NoneFrom(old(lists), RoundUpOrder(count))
      ensures r.None? ==> lists == old(lists) && refcounts == old(refcounts)
      ensures r.Some? ==> forall p: nat ::
                Cover(lists, p) + One(Block(r.value, RoundUpOrder(count)), p) == old(Cover(lists, p))
                + Returned(cfg, old(refcounts), Tail(r.value, count), p)
      ensures r.Some? && count > 1 ==> refcounts == Unrefs(cfg, old(refcounts), Tail(r.value, count))
      ensures r.Some? && count == 1 ==>
                refcounts == if r.value < REFCOUNT_MAX_PAGES then old(refcounts)[r.value := 1] else old(refcounts)
      ensures r.Some? && old(Valid()) ==>
                && Valid()
                && forall p: nat :: r.value <= p < r.value + count ==>
                     old(Cover(lists, p)) == 1 && Cover(lists, p) == 0
    {
      ghost var before := lists;
      RoundUpFits(count);
      if count == 0 {
        return None;
      }
      if count == 1 {
        r := AllocOrder(0);
        assert r.Some? ==> Tail(r.value, count) == [];
        return;
      }
      if count > Pow2(MAX_ORDER) {
        return None;
      }
      r := AllocTrimmed(count);
      if r.Some? && forall p: nat :: Cover(before, p) <= 1 {
        AllocatedLeave(cfg, old(refcounts), before, lists, r.value, count);
      }
    }

    method AllocTrimmed(count: nat) returns (r: Option<nat>)
      requires Consistent() && 1 < count <= Pow2(MAX_ORDER)
      modifies this`lists, this`freePages, this`refcounts
      ensures Consistent()
      ensures r.None? <==> NoneFrom(old(lists), RoundUpOrder(count))
      ensures r.None? ==> lists == old(lists) && refcounts == old(refcounts)
      ensures r.Some? ==> forall p: nat ::
                Cover(lists, p) + One(Block(r.value, RoundUpOrder(count)), p) == old(Cover(lists, p))
                + Returned(cfg, old(refcounts), Tail(r.value, count), p)
      ensures r.Some? ==> refcounts == Unrefs(cfg, old(refcounts), Tail(r.value, count))
    {
      RoundUpFits(count);
      var order := Min(FloorLog2(count - 1) + 1, MAX_ORDER);
      assert order == RoundUpOrder(count) && order > 0;
      r := AllocOrder(order);
      if r.Some? {
        var excess := Pow2(order) - count;
        assert Tail(r.value, count) == Chunks(r.value + count, excess);
        if excess > 0 {
          ByteAddress(r.value + count);
          FreePagesChunked((r.value + count) * PAGE_SIZE, excess);
        }
      }
    }

    // Takes every block of one order that meets [rstart, rend) off its list and puts the parts
    // outside the range back at lower orders.
    method RemoveRange(rstart: nat, rend: nat, order: nat)
      requires Consistent() && order <= MAX_ORDER && rstart <= rend
      requires Cover(lists, rstart) <= 1 && (rend > 0 ==> Cover(lists, rend - 1) <= 1)
      modifies this`lists, this`freePages
      ensures Consistent()
      ensures forall k :: order < k <= MAX_ORDER ==> lists[k] == old(lists)[k]
      ensures forall p: nat :: Cover(lists, p) == old(Cover(lists, p))
                - if rstart <= p < rend then CoverList(old(lists)[order], order, p) else 0
    {
      var toCarve;
      ghost var removed;
      toCarve, removed := TakeOverlapping(rstart, rend, order);
      forall p: nat | rstart <= p < rend
        ensures CoverList(lists[order], order, p) == 0
      {
        NoOverlapNoCover(lists[order], order, rstart, rend, p);
      }
      CarveAll(toCarve, order);
    }

    // The first loop of remove_range: the blocks that meet the range leave their list, and what they have
    // outside it is recorded. There are two such parts at most.
    method TakeOverlapping(rstart: nat, rend: nat, order: nat)
      returns (toCarve: seq<(nat, nat)>, ghost removed: seq<nat>)
      requires Consistent() && order <= MAX_ORDER && rstart <= rend
      requires Cover(lists, rstart) <= 1 && (rend > 0 ==> Cover(lists, rend - 1) <= 1)
      modifies this`lists, this`freePages
      ensures Consistent() && lists == old(lists)[order := lists[order]] && |toCarve| <= 2
      ensures forall j :: 0 <= j < |lists[order]| ==> !Overlaps(lists[order][j], order, rstart, rend)
      ensures forall p: nat :: old(Cover(lists, p)) == Cover(lists, p) + CoverList(removed, order, p)
      ensures forall p: nat :: old(CoverList(lists[order], order, p))
                            == CoverList(lists[order], order, p) + CoverList(removed, order, p)
      ensures LeftOvers(toCarve, removed, order, rstart, rend)
    {
      toCarve, removed := [], [];
      var i := 0;
      while i < |lists[order]|
        invariant Consistent() && i <= |lists[order]| && lists == old(lists)[order := lists[order]]
        invariant forall j :: 0 <= j < i ==> !Overlaps(lists[order][j], order, rstart, rend)
        invariant forall p: nat :: old(Cover(lists, p)) == Cover(lists, p) + CoverList(removed, order, p)
        invariant forall p: nat :: old(CoverList(lists[order], order, p))
                                == CoverList(lists[order], order, p) + CoverList(removed, order, p)
        invariant LeftOvers(toCarve, removed, order, rstart, rend)
        decreases |lists[order]| - i
      {
        var c := lists[order][i];
        if Overlaps(c, order, rstart, rend) {
          ghost var before := lists[order];
          TakeAt(order, i);
          forall p: nat
            ensures CoverList(before, order, p) == CoverList(lists[order], order, p) + One(Block(c, order), p)
            ensures CoverList([c] + removed, order, p) == One(Block(c, order), p) + CoverList(removed, order, p)
          {
            CoverListWithout(before, i, order, p);
            assert ([c] + removed)[1..] == removed;
          }
          assert |toCarve| <= 2;
          LeftOversStep(toCarve, removed, c, order, rstart, rend);
          toCarve := Record(toCarve, c, c + Pow2(order), rstart, rend);
          removed := [c] + removed;
        } else {
          i := i + 1;
        }
      }
    }

    method TakeAt(order: nat, i: nat)
      requires Consistent() && order <= MAX_ORDER && i < |lists[order]|
      modifies this`lists, this`freePages
      ensures Consistent() && lists == Without(old(lists), order, i)
      ensures forall p: nat :: old(Cover(lists, p)) == Cover(lists, p) + One(Block(old(lists)[order][i], order), p)
    {
      WithoutCounts(lists, order, i);
      lists := lists[order := lists[order][..i] + lists[order][i + 1..]];
      freePages := freePages - Pow2(order);
    }

    method CarveAll(toCarve: seq<(nat, nat)>, ghost order: nat)
      requires Consistent() && order <= MAX_ORDER
      requires forall r :: r in toCarve ==> r.0 <= r.1 && r.1 - r.0 < Pow2(order)
      modifies this`lists, this`freePages
      ensures Consistent()
      ensures forall k :: order <= k <= MAX_ORDER ==> lists[k] == old(lists)[k]
      ensures forall p: nat :: Cover(lists, p) == old(Cover(lists, p)) + CoverRanges(toCarve, p)
    {
      var i := 0;
      while i < |toCarve|
        invariant i <= |toCarve| && Consistent()
        invariant forall k :: order <= k <= MAX_ORDER ==> lists[k] == old(lists)[k]
        invariant forall p: nat :: Cover(lists, p) == old(Cover(lists, p)) + CoverRanges(toCarve[..i], p)
      {
        assert toCarve[i] in toCarve;
        forall k | order <= k <= MAX_ORDER
          ensures toCarve[i].1 - toCarve[i].0 < Pow2(k)
        {
          Pow2Monotone(order, k);
        }
        forall p: nat
          ensures CoverRanges(toCarve[..i + 1], p) == CoverRanges(toCarve[..i], p)
                + if toCarve[i].0 <= p < toCarve[i].1 then 1 else 0
        {
          CoverRangesAppend(toCarve[..i], toCarve[i], p);
          assert toCarve[..i + 1] == toCarve[..i] + [toCarve[i]];
        }
        CarveRange(toCarve[i].0, toCarve[i].1);
        i := i + 1;
      }
      assert toCarve[..i] == toCarve;
    }

    // Makes exactly the pages of the range, rounded out to whole pages, not free.
    method ReserveRange(start: nat, sizeInPages: nat)
      requires Valid() && start <= U64_MAX && sizeInPages * PAGE_SIZE <= U64_MAX
      modifies this`lists, this`freePages
      ensures Valid()
      ensures var rstart, rend := DownToPage(start), UpToPage(SatAdd(start, sizeInPages * PAGE_SIZE));
              forall p: nat :: Cover(lists, p) == if rstart <= p < rend then 0 else old(Cover(lists, p))
    {
      var rstart, rend := DownToPage(start), UpToPage(SatAdd(start, sizeInPages * PAGE_SIZE));
      var order := 0;
      while order <= MAX_ORDER
        invariant order <= MAX_ORDER + 1 && Consistent()
        invariant forall p: nat :: !(rstart <= p < rend) ==> Cover(lists, p) == old(Cover(lists, p))
        invariant forall p: nat :: rstart <= p < rend ==>
                    Cover(lists, p) == CoverFrom(lists, order, p) <= old(Cover(lists, p))
      {
        ghost var before := lists;
        RemoveRange(rstart, rend, order);
        forall p: nat | rstart <= p < rend
          ensures Cover(lists, p) == CoverFrom(lists, order + 1, p)
        {
          SameTail(before, lists, order + 1, p);
        }
        order := order + 1;
      }
    }

    // After the first call the free pages are exactly the usable pages of the regions, counted
    // once per region: the result is Valid just when no usable page lies in two regions.
    method InitFromRegions(regions: seq<Region>, bootInfoPhys: nat, bootInfoPages: nat,
                           kernelStart: nat, kernelSize: nat, excludes: seq<Region>)
      requires |refcounts| == REFCOUNT_MAX_PAGES && (!initialized ==> cfg.bootPages == 0 && cfg.kernelPages == 0)
      requires bootInfoPages > 0 && kernelStart <= U64_MAX && forall r :: r in regions ==> r.start <= U64_MAX
      modifies this
      ensures old(initialized) ==> cfg == old(cfg) && lists == old(lists)
      ensures old(initialized) ==> freePages == old(freePages) && totalPages == old(totalPages)
      ensures initialized
      ensures !old(initialized) ==>
                && Consistent() && totalPages == freePages && refcounts == old(refcounts)
                && cfg.bootPn == DownToPage(bootInfoPhys) && cfg.bootPages == bootInfoPages
                && (forall p: nat :: Cover(lists, p) == if Usable(cfg, excludes, p) then RegionsAt(regions, p) else 0)
                && (Valid() <==> forall p: nat :: Usable(cfg, excludes, p) ==> RegionsAt(regions, p) <= 1)
                && (Valid() ==> totalPages == |Pages(lists)|)
      ensures !old(initialized) && kernelSize > 0 ==>
                cfg.kernelPn == DownToPage(kernelStart) &&
                cfg.kernelPn + cfg.kernelPages == UpToPage(SatAdd(kernelStart, kernelSize))
    {
      if initialized {
        return;
      }
      if kernelSize > 0 {
        var kstart, kend := DownToPage(kernelStart), UpToPage(SatAdd(kernelStart, kernelSize));
        cfg := cfg.(kernelPn := kstart, kernelPages := kend - kstart);
      }
      var base, top := Bounds(regions);
      cfg := cfg.(bootPn := DownToPage(bootInfoPhys), bootPages := bootInfoPages, base := base, top := top);
      Fill(regions, excludes);
      totalPages := freePages;
      initialized := true;
    }

    method Fill(regions: seq<Region>, excludes: seq<Region>)
      requires |refcounts| == REFCOUNT_MAX_PAGES && cfg.bootPages > 0
      requires forall i: nat :: NonEmpty(regions, i) ==>
                 cfg.base <= FirstPage(regions[i]) && EndPage(regions[i]) <= cfg.top
      modifies this`lists, this`freePages
      ensures Consistent()
      ensures forall p: nat :: Cover(lists, p) == if Usable(cfg, excludes, p) then RegionsAt(regions, p) else 0
      ensures Valid() <==> forall p: nat :: Usable(cfg, excludes, p) ==> RegionsAt(regions, p) <= 1
      ensures Valid() ==> freePages == |Pages(lists)|
    {
      lists := seq(MAX_ORDER + 1, _ => []);
      freePages := 0;
      EmptyLists(lists);
      CarveRegions(regions, excludes);
      RemoveBootInfo();
      forall p: nat | Cover(lists, p) > 0
        ensures cfg.base <= p < cfg.top && !Reserved(cfg, p)
      {
        RegionsInBounds(regions, cfg.base, cfg.top, p);
      }
      if Valid() {
        FreePagesCounted(lists);
      }
    }

    method CarveRegions(regions: seq<Region>, excludes: seq<Region>)
      requires Consistent()
      modifies this`lists, this`freePages
      ensures Consistent()
      ensures forall p: nat :: Cover(lists, p) == old(Cover(lists, p))
                            + if Usable(cfg, excludes, p) then RegionsAt(regions, p) else 0
    {
      var i := 0;
      while i < |regions|
        invariant i <= |regions| && Consistent()
        invariant forall p: nat :: Cover(lists, p) == old(Cover(lists, p))
                                + if Usable(cfg, excludes, p) then RegionsAt(regions[..i], p) else 0
      {
        forall p: nat
          ensures RegionsAt(regions[..i + 1], p) == RegionsAt(regions[..i], p)
                + if FirstPage(regions[i]) <= p < EndPage(regions[i]) then 1 else 0
        {
          RegionsAtAppend(regions[..i], regions[i], p);
          assert regions[..i + 1] == regions[..i] + [regions[i]];
        }
        CarveRegion(FirstPage(regions[i]), EndPage(regions[i]), excludes);
        i := i + 1;
      }
      assert regions[..i] == regions;
    }

    // The BootInfo pages were never carved, so taking them off the lists changes no page.
    method RemoveBootInfo()
      requires Consistent() && cfg.bootPages > 0
      requires forall p: nat :: Reserved(cfg, p) ==> Cover(lists, p) == 0
      modifies this`lists, this`freePages
      ensures Consistent() && forall p: nat :: Cover(lists, p) == old(Cover(lists, p))
    {
      var order := 0;
      while order <= MAX_ORDER
        invariant order <= MAX_ORDER + 1 && Consistent()
        invariant forall p: nat :: Cover(lists, p) == old(Cover(lists, p))
      {
        assert Reserved(cfg, cfg.bootPn) && Reserved(cfg, cfg.bootPn + cfg.bootPages - 1);
        RemoveRange(cfg.bootPn, cfg.bootPn + cfg.bootPages, order);
        order := order + 1;
      }
    }

    // The page walk of init_from_regions over one region, carving each maximal usable run.
    method CarveRegion(first: nat, end: nat, excludes: seq<Region>)
      requires Consistent()
      modifies this`lists, this`freePages
      ensures Consistent()
      ensures forall p: nat :: Cover(lists, p) == old(Cover(lists, p))
                            + if first <= p < end && Usable(cfg, excludes, p) then 1 else 0
    {
      if first >= end {
        return;
      }
      var rangeStart, inRange, pn := 0, false, first;
      while pn < end
        invariant first <= pn <= end && Consistent()
        invariant inRange ==> first <= rangeStart < pn && forall q :: rangeStart <= q < pn ==> Usable(cfg, excludes, q)
        invariant forall p: nat :: Cover(lists, p) == old(Cover(lists, p))
                    + if first <= p < (if inRange then rangeStart else pn) && Usable(cfg, excludes, p) then 1 else 0
      {
        var free := Usable(cfg, excludes, pn);
        if free && !inRange {
          rangeStart := pn;
          inRange := true;
        } else if !free && inRange {
          CarveRange(rangeStart, pn);
          inRange := false;
        }
        pn := pn + 1;
      }
      if inRange {
        CarveRange(rangeStart, end);
      }
    }
  }

  predicate Overlaps(c: nat, order: nat, rstart: nat, rend: nat) {
    c < rend && c + Pow2(order) > rstart
  }

  predicate NonEmpty(regions: seq<Region>, i: nat) {
    i < |regions| && FirstPage(regions[i]) < EndPage(regions[i])
  }

  // Zone base and top: the least first page and the greatest end over non-empty regions, or 0.
  method Bounds(regions: seq<Region>) returns (base: nat, top: nat)
    requires forall r :: r in regions ==> r.start <= U64_MAX
    ensures forall i: nat :: NonEmpty(regions, i) ==> base <= FirstPage(regions[i]) && EndPage(regions[i]) <= top
    ensures if exists i: nat :: NonEmpty(regions, i)
            then (exists i: nat :: NonEmpty(regions, i) && FirstPage(regions[i]) == base)
              && (exists i: nat :: NonEmpty(regions, i) && EndPage(regions[i]) == top)
            else base == 0 && top == 0
  {
    var lo: nat, hi: nat := U64_MAX, 0;
    ghost var first: nat, last: nat := |regions|, |regions|;
    var i := 0;
    while i < |regions|
      invariant i <= |regions|
      invariant forall j: nat :: j < i && NonEmpty(regions, j) ==>
                  lo <= FirstPage(regions[j]) && EndPage(regions[j]) <= hi
      invariant if first < |regions|
                then NonEmpty(regions, first) && FirstPage(regions[first]) == lo
                  && NonEmpty(regions, last) && EndPage(regions[last]) == hi
                else lo == U64_MAX && hi == 0 && forall j: nat :: j < i ==> !NonEmpty(regions, j)
    {
      var a, b := FirstPage(regions[i]), EndPage(regions[i]);
      if a < b {
        assert NonEmpty(regions, i) && a < U64_MAX;
        first := if a < lo then i else first;
        last := if b > hi then i else last;
        lo := Min(lo, a);
        hi := if b > hi then b else hi;
      }
      i := i + 1;
    }
    base := if lo == U64_MAX then 0 else lo;
    top := hi;
  }

  // The order alloc_pages asks for: the least k with 2^k >= count.
  function RoundUpOrder(count: nat): nat {
    if count <= 1 then 0 else FloorLog2(count - 1) + 1
  }

  lemma RoundUpFits(count: nat)
    ensures count <= Pow2(RoundUpOrder(count))
    ensures count > 1 ==> Pow2(RoundUpOrder(count) - 1) < count
    ensures count <= Pow2(MAX_ORDER) ==> RoundUpOrder(count) <= MAX_ORDER
  {
    if count > 1 {
      FloorLog2Bounds(count - 1);
      if RoundUpOrder(count) > MAX_ORDER {
        Pow2Monotone(MAX_ORDER, RoundUpOrder(count) - 1);
      }
    }
  }

  // The chunks of the tail alloc_pages hands back.
  function Tail(pn: nat, count: nat): seq<Block> {
    RoundUpFits(count);
    Chunks(pn + count, Pow2(RoundUpOrder(count)) - count)
  }

  lemma {:induction false} ReturnedWithin(c: Config, refcounts: seq<nat>, bs: seq<Block>, p: nat)
    ensures Returned(c, refcounts, bs, p) <= CoverBlocks(bs, p)
  {
    if bs != [] {
      ReturnedWithin(c, refcounts, bs[1..], p);
    }
  }

  lemma ByteAddress(pn: nat)
    ensures pn * PAGE_SIZE / PAGE_SIZE == pn && pn * PAGE_SIZE % PAGE_SIZE == 0
  {
  }

  lemma TailWithin(c: Config, refcounts: seq<nat>, pn: nat, count: nat)
    ensures forall p: nat :: Returned(c, refcounts, Tail(pn, count), p)
              <= if pn + count <= p < pn + Pow2(RoundUpOrder(count)) then 1 else 0
  {
    RoundUpFits(count);
    forall p: nat
      ensures Returned(c, refcounts, Tail(pn, count), p)
              <= if pn + count <= p < pn + Pow2(RoundUpOrder(count)) then 1 else 0
    {
      ReturnedWithin(c, refcounts, Tail(pn, count), p);
      ChunksTile(pn + count, Pow2(RoundUpOrder(count)) - count, p);
    }
  }

  // From disjoint free lists, the pages alloc_pages hands out were free and no longer are.
  lemma AllocatedLeave(c: Config, refcounts: seq<nat>, before: Lists, after: Lists, pn: nat, count: nat)
    requires forall p: nat :: Cover(before, p) <= 1
    requires forall p: nat :: Cover(after, p) + One(Block(pn, RoundUpOrder(count)), p) == Cover(before, p)
               + Returned(c, refcounts, Tail(pn, count), p)
    ensures forall p: nat :: Cover(after, p) <= Cover(before, p)
    ensures forall p: nat :: pn <= p < pn + count ==> Cover(before, p) == 1 && Cover(after, p) == 0
  {
    RoundUpFits(count);
    TailWithin(c, refcounts, pn, count);
  }

  // free_pages gives back the whole range exactly when every chunk is accepted and passes the
  // gate; otherwise some page of the range is kept back.
  lemma {:induction false} ReturnedAllIff(c: Config, refcounts: seq<nat>, pn: nat, n: nat)
    ensures (forall p: nat :: Returned(c, refcounts, Chunks(pn, n), p) == if pn <= p < pn + n then 1 else 0)
       <==> (forall i :: 0 <= i < |Chunks(pn, n)| ==>
               Accepts(c, Chunks(pn, n)[i]) && PassesGate(refcounts, Chunks(pn, n)[i]))
  {
    var bs := Chunks(pn, n);
    if forall i :: 0 <= i < |bs| ==> Accepts(c, bs[i]) && PassesGate(refcounts, bs[i]) {
      forall p: nat
        ensures Returned(c, refcounts, bs, p) == if pn <= p < pn + n then 1 else 0
      {
        ReturnedAll(c, refcounts, bs, p);
        ChunksTile(pn, n, p);
      }
    } else {
      var i :| 0 <= i < |bs| && !(Accepts(c, bs[i]) && PassesGate(refcounts, bs[i]));
      var p := bs[i].pn;
      ReturnedMisses(c, refcounts, bs, i);
      ChunksTile(pn, n, p);
      assert Returned(c, refcounts, bs, p) != if pn <= p < pn + n then 1 else 0;
    }
  }

  lemma {:induction false} ReturnedAll(c: Config, refcounts: seq<nat>, bs: seq<Block>, p: nat)
    requires forall i :: 0 <= i < |bs| ==> Accepts(c, bs[i]) && PassesGate(refcounts, bs[i])
    ensures Returned(c, refcounts, bs, p) == CoverBlocks(bs, p)
  {
    if bs != [] {
      ReturnedAll(c, refcounts, bs[1..], p);
    }
  }

  lemma {:induction false} ReturnedMisses(c: Config, refcounts: seq<nat>, bs: seq<Block>, i: nat)
    requires i < |bs| && !(Accepts(c, bs[i]) && PassesGate(refcounts, bs[i]))
    ensures Returned(c, refcounts, bs, bs[i].pn) < CoverBlocks(bs, bs[i].pn)
  {
    if i == 0 {
      ReturnedWithin(c, refcounts, bs[1..], bs[0].pn);
    } else {
      ReturnedMisses(c, refcounts, bs[1..], i - 1);
    }
  }

  // The parts of the block [c, cend) outside the range.
  function LeftOver(c: nat, cend: nat, rstart: nat, rend: nat): seq<(nat, nat)> {
    (if c < rstart then [(c, rstart)] else []) + (if cend > rend then [(rend, cend)] else [])
  }

  method Record(toCarve: seq<(nat, nat)>, c: nat, cend: nat, rstart: nat, rend: nat) returns (out: seq<(nat, nat)>)
    ensures |toCarve| + 2 <= CARVE_SLOTS ==> out == toCarve + LeftOver(c, cend, rstart, rend)
  {
    out := toCarve;
    if c < rstart && |out| < CARVE_SLOTS {
      out := out + [(c, rstart)];
    }
    if cend > rend && |out| < CARVE_SLOTS {
      out := out + [(rend, cend)];
    }
  }

  // `toCarve` covers the removed blocks outside the range, is no longer than the number of
  // removed blocks at the two ends of the range, and holds only pieces smaller than a block.
  ghost predicate LeftOvers(toCarve: seq<(nat, nat)>, removed: seq<nat>, order: nat, rstart: nat, rend: nat) {
    && (forall p: nat :: CoverRanges(toCarve, p) == if rstart <= p < rend then 0 else CoverList(removed, order, p))
    && |toCarve| <= CoverList(removed, order, rstart) + (if rend > 0 then CoverList(removed, order, rend - 1) else 0)
    && forall r :: r in toCarve ==> r.0 <= r.1 && r.1 - r.0 < Pow2(order)
  }

  lemma LeftOversStep(toCarve: seq<(nat, nat)>, removed: seq<nat>, c: nat, order: nat, rstart: nat, rend: nat)
    requires LeftOvers(toCarve, removed, order, rstart, rend)
    requires Overlaps(c, order, rstart, rend) && rstart <= rend
    ensures LeftOvers(toCarve + LeftOver(c, c + Pow2(order), rstart, rend), [c] + removed, order, rstart, rend)
  {
    var cend := c + Pow2(order);
    var more := LeftOver(c, cend, rstart, rend);
    assert ([c] + removed)[1..] == removed;
    forall p: nat
      ensures CoverRanges(toCarve + more, p) == CoverRanges(toCarve, p)
            + (if c <= p < rstart then 1 else 0) + (if rend <= p < cend then 1 else 0)
    {
      LeftOverCovers(toCarve, c, cend, rstart, rend, p);
    }
  }

  lemma LeftOverCovers(toCarve: seq<(nat, nat)>, c: nat, cend: nat, rstart: nat, rend: nat, p: nat)
    ensures CoverRanges(toCarve + LeftOver(c, cend, rstart, rend), p) == CoverRanges(toCarve, p)
          + (if c <= p < rstart then 1 else 0) + (if rend <= p < cend then 1 else 0)
  {
    var left := if c < rstart then toCarve + [(c, rstart)] else toCarve;
    assert toCarve + LeftOver(c, cend, rstart, rend) == if cend > rend then left + [(rend, cend)] else left;
    CoverRangesAppend(toCarve, (c, rstart), p);
    CoverRangesAppend(left, (rend, cend), p);
  }

  lemma {:induction false} NoOverlapNoCover(s: seq<nat>, k: nat, rstart: nat, rend: nat, p: nat)
    requires forall j :: 0 <= j < |s| ==> !Overlaps(s[j], k, rstart, rend)
    requires rstart <= p < rend
    ensures CoverList(s, k, p) == 0
  {
    if s != [] {
      assert !Overlaps(s[0], k, rstart, rend);
      NoOverlapNoCover(s[1..], k, rstart, rend, p);
    }
  }

  lemma {:induction false} SameTail(a: Lists, b: Lists, k: nat, p: nat)
    requires |a| == |b| && forall j :: k <= j < |a| ==> a[j] == b[j]
    ensures CoverFrom(a, k, p) == CoverFrom(b, k, p)
    decreases |a| - k
  {
    if k < |a| {
      SameTail(a, b, k + 1, p);
    }
  }

  lemma EmptyLists(lists: Lists)
    requires |lists| == MAX_ORDER + 1 && forall k :: 0 <= k < |lists| ==> lists[k] == []
    ensures Weight(lists) == 0 && forall p: nat :: Cover(lists, p) == 0
  {
    EmptyFrom(lists, 0);
  }

  lemma {:induction false} EmptyFrom(lists: Lists, k: nat)
    requires forall j :: 0 <= j < |lists| ==> lists[j] == []
    ensures WeightFrom(lists, k) == 0 && forall p: nat :: CoverFrom(lists, k, p) == 0
    decreases |lists| - k
  {
    if k < |lists| {
      EmptyFrom(lists, k + 1);
    }
  }

  lemma {:induction false} RegionsInBounds(regions: seq<Region>, base: nat, top: nat, p: nat)
    requires forall i :: 0 <= i < |regions| && FirstPage(regions[i]) < EndPage(regions[i]) ==>
               base <= FirstPage(regions[i]) && EndPage(regions[i]) <= top
    requires RegionsAt(regions, p) > 0
    ensures base <= p < top
  {
    if !(FirstPage(regions[0]) <= p < EndPage(regions[0])) {
      RegionsInBounds(regions[1..], base, top, p);
    }
  }
}
