/** The two ways read_file_into of boot/src/load_kernel.rs fills a file's buffer: one read per extent
    of the list, or one lookup and read per block. */
module FileContents {
  import opened Basics
  import opened ExtentTree
  import opened FileReader
  import opened Multiples

  // `root` is the 60 bytes of i_block, an extent tree's root or fifteen block numbers.
  datatype Inode = Inode(extents: bool, root: Node)

  // A block size of the file system, 1024 shifted left.
  predicate BlockSized(dev: Device) {
    dev.perBlock >= 2
  }

  // What a caller must know for the recursion over the tree to end.
  ghost predicate Ends(dev: Device, inode: Inode, d: nat) {
    && BlockSized(dev) && |inode.root| == 60
    && (inode.extents ==> Nested(dev, Descent, inode.root, d) && Nested(dev, Listing, inode.root, d))
  }

  // resolve_block
  ghost function Physical(dev: Device, inode: Inode, d: nat, lb: nat): Option<nat>
    requires Ends(dev, inode, d)
  {
    if inode.extents then
      if Magic(inode.root) != MAGIC then None else Resolve(dev, inode.root, d, lb)
    else if lb < 12 then Some(Le32(inode.root, 4 * lb))
    else if lb - 12 < BlockSize(dev) / 4 && Le32(inode.root, 48) != 0 then
      Some(Le32(Load(dev, Descent, Le32(inode.root, 48)), (lb - 12) * 4))
    else None
  }

  // The lookup that the block by block path performs.
  ghost function Lookup(dev: Device, inode: Inode, d: nat): nat -> Option<nat>
    requires Ends(dev, inode, d)
  {
    (lb: nat) => Physical(dev, inode, d, lb)
  }

  method ResolveBlock(dev: Device, mediaBlock: nat, inode: Inode, ghost d: nat, lb: nat) returns (r: Option<nat>)
    requires WholeSectors(mediaBlock) && Ends(dev, inode, d)
    ensures r == Physical(dev, inode, d, lb)
  {
    if inode.extents {
      if Magic(inode.root) != MAGIC {
        return None;
      }
      r := ResolveExtentInBlock(dev, mediaBlock, inode.root, d, lb);
    } else if lb < 12 {
      r := Some(Le32(inode.root, 4 * lb));
    } else if lb - 12 < BlockSize(dev) / 4 && Le32(inode.root, 48) != 0 {
      var table := LoadBlock(dev, mediaBlock, Descent, Le32(inode.root, 48));
      r := Some(Le32(table, (lb - 12) * 4));
    } else {
      r := None;
    }
  }

  // Where logical block `lb` starts in the file.
  ghost function ByteOf(dev: Device, lb: nat): nat {
    SectorOf(dev, lb) * SECTOR
  }

  method FileOffset(dev: Device, lb: nat) returns (offset: nat)
    ensures offset == ByteOf(dev, lb)
  {
    offset := lb * BlockSize(dev);
    ByteIsProduct(dev, lb);
  }

  lemma ByteIsProduct(dev: Device, lb: nat)
    ensures ByteOf(dev, lb) == lb * BlockSize(dev)
  {
    TimesIsProduct(lb, dev.perBlock);
    assert lb * dev.perBlock * SECTOR == lb * (dev.perBlock * SECTOR);
  }

  // -- Extent by extent ------------------------------------------------------------------

  // The buffer after the loop over the list: it stops at the first extent past the end of the file
  // and skips those that start at block 0.
  ghost function Fill(dev: Device, list: seq<Extent>, data: seq<Byte>): (r: seq<Byte>)
    ensures |r| == |data|
  {
    if list == [] then data else
    var off := ByteOf(dev, list[0].block);
    if off >= |data| then data
    else if list[0].start == 0 then Fill(dev, list[1..], data)
    else Fill(dev, list[1..], Patched(data, off, ExtentBytes(dev, list[0], |data| - off)))
  }

  // The bytes of an extent, at most `room` of them.
  ghost function ExtentBytes(dev: Device, e: Extent, room: nat): seq<Byte> {
    Sectors(dev, SectorOf(dev, e.start), if ByteOf(dev, e.len) < room then ByteOf(dev, e.len) else room)
  }

  method ReadByExtents(dev: Device, mediaBlock: nat, list: seq<Extent>, data: array<Byte>)
    requires WholeSectors(mediaBlock)
    modifies data
    ensures data[..] == Fill(dev, list, old(data[..]))
  {
    ghost var goal := Fill(dev, list, data[..]);
    for i := 0 to |list|
      invariant goal == Fill(dev, list[i..], data[..])
    {
      var e := list[i];
      var off := FileOffset(dev, e.block);
      assert list[i..][0] == e && list[i..][1..] == list[i + 1..];
      if off >= data.Length {
        break;
      }
      var bytes := FileOffset(dev, e.len);
      var len := if bytes < data.Length - off then bytes else data.Length - off;
      if e.start == 0 {
        continue;
      }
      var sector := FirstSector(dev, e.start);
      ReadSectors(dev, mediaBlock, sector, data, off, len);
    }
  }

  // -- Block by block ------------------------------------------------------------------

  function Needed(dev: Device, n: nat): nat
    requires BlockSize(dev) > 0
  {
    (n + BlockSize(dev) - 1) / BlockSize(dev)
  }

  // Byte `k` of block `phys`; block 0 is left as it was.
  ghost function BlockByte(dev: Device, phys: nat, k: nat, was: Byte): Byte {
    if phys == 0 then was else dev.media((dev.partition + SectorOf(dev, phys)) * SECTOR + k)
  }

  // The place of block `lb` in a buffer of `n` bytes.
  ghost function StartOf(dev: Device, lb: nat, n: nat): nat {
    if ByteOf(dev, lb) < n then ByteOf(dev, lb) else n
  }

  // One turn of the loop: block `lb` of the file is block `phys`.
  ghost function FillBlock(dev: Device, lb: nat, phys: nat, data: seq<Byte>): (r: seq<Byte>)
    ensures |r| == |data|
  {
    var off, end := StartOf(dev, lb, |data|), StartOf(dev, lb + 1, |data|);
    NextStart(dev, lb, |data|);
    if phys == 0 then data else Patched(data, off, Sectors(dev, SectorOf(dev, phys), end - off))
  }

  // The buffer after the first `k` turns of the loop, or nothing once a lookup fails.
  ghost function FillBlocks(dev: Device, look: nat -> Option<nat>, k: nat, data: seq<Byte>): (r: Option<seq<Byte>>)
    ensures r.Some? ==> |r.value| == |data|
  {
    if k == 0 then Some(data) else
    match FillBlocks(dev, look, k - 1, data)
    case None => None
    case Some(so) =>
      match look(k - 1)
      case None => None
      case Some(phys) => Some(FillBlock(dev, k - 1, phys, so))
  }

  lemma NextStart(dev: Device, lb: nat, n: nat)
    ensures StartOf(dev, lb, n) <= StartOf(dev, lb + 1, n) <= n
    ensures StartOf(dev, lb + 1, n) ==
      if StartOf(dev, lb, n) + BlockSize(dev) < n then StartOf(dev, lb, n) + BlockSize(dev) else n
  {
  }

  lemma {:induction false} FillBlocksStops(dev: Device, look: nat -> Option<nat>, k: nat, j: nat, data: seq<Byte>)
    requires k <= j && FillBlocks(dev, look, k, data).None?
    ensures FillBlocks(dev, look, j, data).None?
    decreases j
  {
    if k < j {
      FillBlocksStops(dev, look, k, j - 1, data);
    }
  }

  method ReadByBlocks(dev: Device, mediaBlock: nat, inode: Inode, ghost d: nat, data: array<Byte>) returns (ok: bool)
    requires WholeSectors(mediaBlock) && Ends(dev, inode, d)
    modifies data
    ensures var filled := FillBlocks(dev, Lookup(dev, inode, d), Needed(dev, data.Length) % U32, old(data[..]));
      (ok <==> filled.Some?) && (ok ==> data[..] == filled.value)
  {
    var needed := Needed(dev, data.Length) % U32;
    ghost var look := Lookup(dev, inode, d);
    var offset := 0;
    for lb := 0 to needed
      invariant offset == StartOf(dev, lb, data.Length)
      invariant FillBlocks(dev, look, lb, old(data[..])) == Some(data[..])
    {
      var block := ResolveBlock(dev, mediaBlock, inode, d, lb);
      if block == None {
        FillBlocksStops(dev, look, lb + 1, needed, old(data[..]));
        return false;
      }
      offset := ReadOneBlock(dev, mediaBlock, lb, block.value, offset, data);
    }
    return true;
  }

  // One turn of the loop of the block by block path.
  method ReadOneBlock(
      dev: Device, mediaBlock: nat, ghost lb: nat, block: nat, offset: nat, data: array<Byte>)
    returns (end: nat)
    requires WholeSectors(mediaBlock) && offset == StartOf(dev, lb, data.Length)
    modifies data
    ensures data[..] == FillBlock(dev, lb, block, old(data[..])) && end == StartOf(dev, lb + 1, data.Length)
  {
    NextStart(dev, lb, data.Length);
    end := if offset + BlockSize(dev) < data.Length then offset + BlockSize(dev) else data.Length;
    if block != 0 {
      ReadDataBlock(dev, mediaBlock, block, data, offset, end - offset);
    }
  }

  method ReadDataBlock(dev: Device, mediaBlock: nat, block: nat, data: array<Byte>, at: nat, n: nat)
    requires WholeSectors(mediaBlock) && at + n <= data.Length
    modifies data
    ensures block == 0 ==> data[..] == old(data[..])
    ensures block != 0 ==> data[..] == Patched(old(data[..]), at, Sectors(dev, SectorOf(dev, block), n))
  {
    if block != 0 {
      var sector := FirstSector(dev, block);
      ReadSectors(dev, mediaBlock, sector, data, at, n);
    }
  }

  // read_file_into; without a usable list it goes block by block.
  method ReadFileInto(dev: Device, mediaBlock: nat, inode: Inode, ghost d: nat, data: array<Byte>) returns (ok: bool)
    requires WholeSectors(mediaBlock) && Ends(dev, inode, d)
    modifies data
    ensures inode.extents && Listed(dev, inode.root, d).Some? ==>
      ok && data[..] == Fill(dev, Listed(dev, inode.root, d).value, old(data[..]))
    ensures !(inode.extents && Listed(dev, inode.root, d).Some?) ==>
      var filled := FillBlocks(dev, Lookup(dev, inode, d), Needed(dev, data.Length) % U32, old(data[..]));
      (ok <==> filled.Some?) && (ok ==> data[..] == filled.value)
  {
    if inode.extents {
      var list := ParseExtents(dev, mediaBlock, inode.root, d);
      if list.Some? {
        ReadByExtents(dev, mediaBlock, list.value, data);
        return true;
      }
    }
    ok := ReadByBlocks(dev, mediaBlock, inode, d, data);
  }

  // -- Byte by byte --------------------------------------------------------------------------

  // Byte `p` of a file lies in logical block `lb`.
  ghost predicate LiesIn(dev: Device, p: nat, lb: nat) {
    ByteOf(dev, lb) <= p < ByteOf(dev, lb) + BlockSize(dev)
  }

  lemma BlockAt(dev: Device, p: nat, lb: nat, k: nat, n: nat)
    requires LiesIn(dev, p, lb) && p < n
    ensures StartOf(dev, k, n) <= p < StartOf(dev, k + 1, n) <==> lb == k
  {
    NextStart(dev, k, n);
    if lb < k {
      TimesGrows(lb, k, dev.perBlock);
    } else if k < lb {
      TimesGrows(k, lb, dev.perBlock);
    }
  }

  /** Block by block, the read succeeds if and only if every block is found. */
  lemma {:induction false} BlocksFound(dev: Device, look: nat -> Option<nat>, k: nat, data: seq<Byte>)
    ensures FillBlocks(dev, look, k, data).Some? <==> forall lb: nat :: lb < k ==> look(lb).Some?
  {
    if k > 0 {
      BlocksFound(dev, look, k - 1, data);
    }
  }

  /** Block by block, each byte comes from its own block. */
  lemma {:induction false} BlocksByte(dev: Device, look: nat -> Option<nat>, k: nat, data: seq<Byte>, p: nat, lb: nat)
    requires FillBlocks(dev, look, k, data).Some? && p < |data| && LiesIn(dev, p, lb)
    ensures lb < k ==> look(lb).Some?
    ensures lb < k ==>
      FillBlocks(dev, look, k, data).value[p] == BlockByte(dev, look(lb).value, p - ByteOf(dev, lb), data[p])
    ensures lb >= k ==> FillBlocks(dev, look, k, data).value[p] == data[p]
  {
    if k > 0 {
      LastBlock(dev, look, k - 1, data, p, lb);
      BlocksByte(dev, look, k - 1, data, p, lb);
    }
  }

  // The last turn of the loop writes the last block and nothing else.
  lemma LastBlock(dev: Device, look: nat -> Option<nat>, k: nat, data: seq<Byte>, p: nat, lb: nat)
    requires FillBlocks(dev, look, k + 1, data).Some? && p < |data| && LiesIn(dev, p, lb)
    ensures look(k).Some? && FillBlocks(dev, look, k, data).Some?
    ensures var was := FillBlocks(dev, look, k, data).value[p];
      FillBlocks(dev, look, k + 1, data).value[p] ==
      if lb == k then BlockByte(dev, look(k).value, p - ByteOf(dev, lb), was) else was
  {
    FillBlockByte(dev, k, look(k).value, FillBlocks(dev, look, k, data).value, p, lb);
  }

  lemma FillBlockByte(dev: Device, k: nat, phys: nat, data: seq<Byte>, p: nat, lb: nat)
    requires p < |data| && LiesIn(dev, p, lb)
    ensures FillBlock(dev, k, phys, data)[p] ==
      if lb == k then BlockByte(dev, phys, p - ByteOf(dev, lb), data[p]) else data[p]
  {
    BlockAt(dev, p, lb, k, |data|);
    NextStart(dev, k, |data|);
  }

  // Byte `k` of block `lb` as the first extent that covers the block gives it.
  ghost function ExtentByte(dev: Device, list: seq<Extent>, lb: nat, k: nat, was: Byte): Byte {
    if list == [] then was
    else if Covers(list[0], lb) then
      if list[0].start == 0 then was else InExtent(dev, list[0], lb, k)
    else ExtentByte(dev, list[1..], lb, k, was)
  }

  ghost function InExtent(dev: Device, e: Extent, lb: nat, k: nat): Byte
    requires e.block <= lb
  {
    dev.media((dev.partition + SectorOf(dev, e.start)) * SECTOR + ByteOf(dev, lb - e.block) + k)
  }

  lemma {:induction false} UncoveredByte(dev: Device, list: seq<Extent>, lo: nat, hi: nat, lb: nat, k: nat, was: Byte)
    requires InOrder(list, lo, hi) && hi < U32 && lb < lo
    ensures ExtentByte(dev, list, lb, k, was) == was
  {
    if list != [] {
      UncoveredByte(dev, list[1..], list[0].block + list[0].len, hi, lb, k, was);
    }
  }

  // The bytes an extent fills are those of the blocks it covers.
  lemma ExtentAtByte(dev: Device, e: Extent, data: seq<Byte>, p: nat, lb: nat)
    requires p < |data| && LiesIn(dev, p, lb) && e.block + e.len < U32
    ensures ByteOf(dev, e.block) >= |data| ==> lb < e.block
    ensures ByteOf(dev, e.block) < |data| ==>
      var off := ByteOf(dev, e.block);
      var r := Patched(data, off, ExtentBytes(dev, e, |data| - off));
      r[p] == if Covers(e, lb) then InExtent(dev, e, lb, p - ByteOf(dev, lb)) else data[p]
  {
    Within(dev, p, lb, e.block, e.len);
  }

  lemma Within(dev: Device, p: nat, lb: nat, b: nat, len: nat)
    requires LiesIn(dev, p, lb)
    ensures ByteOf(dev, b) <= p <==> b <= lb
    ensures b <= lb ==> p - ByteOf(dev, b) == ByteOf(dev, lb - b) + (p - ByteOf(dev, lb))
    ensures b <= lb ==> (p < ByteOf(dev, b) + ByteOf(dev, len) <==> lb < b + len)
  {
    if lb < b {
      TimesGrows(lb, b, dev.perBlock);
    } else {
      TimesAdds(b, lb - b, dev.perBlock);
      TimesAdds(b, len, dev.perBlock);
      if lb < b + len {
        TimesGrows(lb, b + len, dev.perBlock);
      } else {
        TimesAdds(b + len, lb - b - len, dev.perBlock);
      }
    }
  }

  /** Extent by extent over an ordered list, each byte comes from the extent that covers its block. */
  lemma {:induction false} FillByte(dev: Device, list: seq<Extent>, data: seq<Byte>, lo: nat, hi: nat, p: nat, lb: nat)
    requires InOrder(list, lo, hi) && hi < U32 && p < |data| && LiesIn(dev, p, lb)
    ensures Fill(dev, list, data)[p] == ExtentByte(dev, list, lb, p - ByteOf(dev, lb), data[p])
    decreases |list|
  {
    if list != [] {
      var e, k := list[0], p - ByteOf(dev, lb);
      var off, mid := ByteOf(dev, e.block), e.block + e.len;
      OrderBounds(list, lo, hi);
      ExtentAtByte(dev, e, data, p, lb);
      if off >= |data| {
        UncoveredByte(dev, list, e.block, hi, lb, k, data[p]);
      } else {
        var next := if e.start == 0 then data else Patched(data, off, ExtentBytes(dev, e, |data| - off));
        FillByte(dev, list[1..], next, mid, hi, p, lb);
        RestByte(dev, list, mid, hi, lb, k, next[p], data[p]);
      }
    }
  }

  // A byte that the first extent has written is not written by the rest.
  lemma RestByte(dev: Device, list: seq<Extent>, mid: nat, hi: nat, lb: nat, k: nat, next: Byte, was: Byte)
    requires list != [] && InOrder(list[1..], mid, hi) && mid == list[0].block + list[0].len && hi < U32
    requires next == ExtentByte(dev, [list[0]], lb, k, was)
    ensures ExtentByte(dev, list[1..], lb, k, next) == ExtentByte(dev, list, lb, k, was)
  {
    if Covers(list[0], lb) {
      UncoveredByte(dev, list[1..], mid, hi, lb, k, next);
    }
  }

  // -- The two paths agree ---------------------------------------------------------------------

  // Extents that start at a block other than 0 and end within 32 bits.
  predicate Plain(list: seq<Extent>) {
    forall e :: e in list ==> e.start >= 1 && e.start + e.len <= U32
  }

  lemma {:induction false} PlainByte(dev: Device, list: seq<Extent>, lb: nat, k: nat, was: Byte)
    requires BlockSized(dev) && Plain(list) && Scan(list, lb).Some?
    requires forall e :: e in list ==> e.block + e.len < U32
    ensures ExtentByte(dev, list, lb, k, was) == BlockByte(dev, Scan(list, lb).value, k, was)
  {
    var e := list[0];
    assert e in list;
    if Covers(e, lb) {
      TimesAdds(e.start, lb - e.block, dev.perBlock);
    } else {
      PlainByte(dev, list[1..], lb, k, was);
    }
  }

  // A file whose extent tree is well-formed, plain and without holes.
  ghost predicate Solid(dev: Device, inode: Inode, d: nat, hi: nat, n: nat) {
    && Ends(dev, inode, d) && BlockSize(dev) <= BUFFER && inode.extents
    && WellFormed(dev, inode.root, d, 0, hi) && hi < U32
    && Flatten(dev, inode.root, d).Some?
    && Plain(Flatten(dev, inode.root, d).value)
    && forall lb: nat :: lb < Needed(dev, n) ==> Scan(Flatten(dev, inode.root, d).value, lb).Some?
  }

  lemma SolidLookup(dev: Device, inode: Inode, d: nat, hi: nat, n: nat, lb: nat)
    requires Solid(dev, inode, d, hi, n)
    ensures InOrder(Flatten(dev, inode.root, d).value, 0, hi)
    ensures Physical(dev, inode, d, lb) == Scan(Flatten(dev, inode.root, d).value, lb)
  {
    LookupsAgree(dev, inode.root, d, 0, hi, lb);
  }

  // Byte `p` lies in one of the first `k` blocks.
  ghost predicate InBlocks(dev: Device, p: nat, k: nat) {
    exists lb: nat :: lb < k && LiesIn(dev, p, lb)
  }

  lemma BlockOfByte(dev: Device, p: nat, n: nat)
    requires BlockSized(dev) && p < n
    ensures InBlocks(dev, p, Needed(dev, n))
  {
    var lb, needed, up := p / BlockSize(dev), Needed(dev, n), n + BlockSize(dev) - 1;
    assert p == lb * BlockSize(dev) + p % BlockSize(dev);
    assert up == needed * BlockSize(dev) + up % BlockSize(dev);
    ByteIsProduct(dev, lb);
    ByteIsProduct(dev, needed);
    assert LiesIn(dev, p, lb);
    Within(dev, p, lb, needed, 0);
  }

  lemma ByteAgrees(
      dev: Device, look: nat -> Option<nat>, list: seq<Extent>, hi: nat, data: seq<Byte>, p: nat, lb: nat, k: nat)
    requires BlockSized(dev) && InOrder(list, 0, hi) && hi < U32 && Plain(list)
    requires p < |data| && LiesIn(dev, p, lb) && lb < k && FillBlocks(dev, look, k, data).Some?
    requires look(lb) == Scan(list, lb)
    ensures FillBlocks(dev, look, k, data).value[p] == Fill(dev, list, data)[p]
  {
    OrderBounds(list, 0, hi);
    FillByte(dev, list, data, 0, hi, p, lb);
    BlocksByte(dev, look, k, data, p, lb);
    PlainByte(dev, list, lb, p - ByteOf(dev, lb), data[p]);
  }

  ghost predicate AllInBlocks(dev: Device, n: nat, k: nat) {
    forall p: nat :: p < n ==> InBlocks(dev, p, k)
  }

  ghost predicate SameLookup(look: nat -> Option<nat>, list: seq<Extent>, k: nat) {
    forall lb: nat :: lb < k ==> look(lb).Some? && look(lb) == Scan(list, lb)
  }

  // An ordered plain list that tells of each block what the lookup tells fills the same bytes.
  lemma ListAgrees(dev: Device, look: nat -> Option<nat>, list: seq<Extent>, hi: nat, data: seq<Byte>, k: nat)
    requires BlockSized(dev) && InOrder(list, 0, hi) && hi < U32 && Plain(list)
    requires AllInBlocks(dev, |data|, k) && SameLookup(look, list, k)
    ensures FillBlocks(dev, look, k, data) == Some(Fill(dev, list, data))
  {
    BlocksFound(dev, look, k, data);
    var filled := FillBlocks(dev, look, k, data).value;
    forall p: nat | p < |data|
      ensures filled[p] == Fill(dev, list, data)[p]
    {
      assert InBlocks(dev, p, k);
      var lb: nat :| lb < k && LiesIn(dev, p, lb);
      ByteAgrees(dev, look, list, hi, data, p, lb, k);
    }
    assert filled == Fill(dev, list, data);
  }

  /** For a well-formed tree, blocks of at most 4096 bytes and plain extents that cover every block of
      the file, both paths succeed and fill the buffer with the same bytes, the short last block
      included. */
  lemma PathsAgree(dev: Device, inode: Inode, d: nat, hi: nat, data: seq<Byte>, k: nat)
    requires Solid(dev, inode, d, hi, |data|) && k == Needed(dev, |data|)
    ensures FillBlocks(dev, Lookup(dev, inode, d), k, data) == Some(Fill(dev, Flatten(dev, inode.root, d).value, data))
  {
    var look, list := SolidAgrees(dev, inode, d, hi, |data|, k);
    SolidBlocks(dev, |data|, k);
    ListAgrees(dev, look, list, hi, data, k);
  }

  lemma SolidAgrees(
      dev: Device, inode: Inode, d: nat, hi: nat, n: nat, k: nat)
    returns (look: nat -> Option<nat>, list: seq<Extent>)
    requires Solid(dev, inode, d, hi, n) && k == Needed(dev, n)
    ensures k < U32 && look == Lookup(dev, inode, d) && list == Flatten(dev, inode.root, d).value
    ensures InOrder(list, 0, hi) && hi < U32 && Plain(list) && SameLookup(look, list, k)
  {
    SolidLookup(dev, inode, d, hi, n, 0);
    list, look := Flatten(dev, inode.root, d).value, Lookup(dev, inode, d);
    forall lb: nat | lb < k
      ensures look(lb) == Scan(list, lb)
    {
      SolidLookup(dev, inode, d, hi, n, lb);
    }
    if k > hi {
      ScanOutside(list, 0, hi, hi);
    }
  }

  lemma SolidBlocks(dev: Device, n: nat, k: nat)
    requires BlockSized(dev) && k == Needed(dev, n)
    ensures AllInBlocks(dev, n, k)
  {
    forall p: nat | p < n
      ensures InBlocks(dev, p, k)
    {
      BlockOfByte(dev, p, n);
    }
  }
}
