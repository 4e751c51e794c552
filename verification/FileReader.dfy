/** The ext4 file reader of boot/src/load_kernel.rs: sector reads over any media block size, the two
    extent lookups as the loops that perform them, and the two ways to fill a file's buffer, extent by
    extent and block by block. Device reads always succeed here. */
module FileReader {
  import opened Basics
  import opened ExtentTree
  import opened Multiples

  // What read_blocks of the device gives: `n` bytes from block `start` of the media.
  function MediaBlocks(dev: Device, mediaBlock: nat, start: nat, n: nat): (r: seq<Byte>)
    ensures |r| == n
  {
    seq<Byte>(n, k requires k >= 0 => dev.media(start * mediaBlock + k))
  }

  // Blocks of the media hold whole sectors.
  predicate WholeSectors(mediaBlock: nat) {
    mediaBlock > 0 && mediaBlock % SECTOR == 0
  }

  lemma SectorInBlock(offset: nat, mediaBlock: nat)
    requires WholeSectors(mediaBlock) && offset % SECTOR == 0
    ensures offset % mediaBlock + SECTOR <= mediaBlock
    ensures offset / mediaBlock * mediaBlock + offset % mediaBlock == offset
  {
    var q, inner := mediaBlock / SECTOR, offset % mediaBlock;
    var whole := offset / mediaBlock * q;
    assert offset / mediaBlock * mediaBlock == whole * SECTOR;
    assert inner == offset - whole * SECTOR;
    assert inner % SECTOR == 0;
  }

  // The buffer `data` with `part` written at `at`.
  function Patched(data: seq<Byte>, at: nat, part: seq<Byte>): (r: seq<Byte>)
    requires at + |part| <= |data|
    ensures |r| == |data|
    ensures forall p: nat :: p < |data| ==> r[p] == if at <= p < at + |part| then part[p - at] else data[p]
  {
    data[..at] + part + data[at + |part|..]
  }

  method CopyTo(data: array<Byte>, at: nat, part: seq<Byte>)
    requires at + |part| <= data.Length
    modifies data
    ensures data[..] == Patched(old(data[..]), at, part)
  {
    forall k | 0 <= k < |part| {
      data[at + k] := part[k];
    }
  }

  // One sector's worth of a media block is that sector's worth of the partition.
  lemma SectorOfBlock(dev: Device, mediaBlock: nat, sector: nat, n: nat, dst: nat, len: nat)
    requires WholeSectors(mediaBlock) && dst % SECTOR == 0 && len <= SECTOR && dst + len <= n
    ensures var bs := (dev.partition + sector) * SECTOR + dst;
      var inner := bs % mediaBlock;
      inner + len <= mediaBlock &&
      MediaBlocks(dev, mediaBlock, bs / mediaBlock, mediaBlock)[inner..inner + len]
      == Sectors(dev, sector, n)[dst..dst + len]
  {
    SectorInBlock((dev.partition + sector) * SECTOR + dst, mediaBlock);
  }

  // read_ext4_sectors into `n` bytes of the buffer
  method ReadSectors(dev: Device, mediaBlock: nat, sector: nat, data: array<Byte>, at: nat, n: nat)
    requires WholeSectors(mediaBlock) && at + n <= data.Length
    modifies data
    ensures data[..] == Patched(old(data[..]), at, Sectors(dev, sector, n))
  {
    if n == 0 {
      return;
    }
    if mediaBlock == SECTOR {
      var aligned := (n + SECTOR - 1) / SECTOR * SECTOR;
      var buf := MediaBlocks(dev, mediaBlock, (dev.partition + sector) * SECTOR / mediaBlock, aligned);
      assert buf[..n] == Sectors(dev, sector, n);
      CopyTo(data, at, buf[..n]);
      return;
    }
    ReadBySector(dev, mediaBlock, sector, data, at, n);
  }

  method ReadBySector(dev: Device, mediaBlock: nat, sector: nat, data: array<Byte>, at: nat, n: nat)
    requires WholeSectors(mediaBlock) && at + n <= data.Length
    modifies data
    ensures data[..] == Patched(old(data[..]), at, Sectors(dev, sector, n))
  {
    var total := n / SECTOR + if n % SECTOR > 0 then 1 else 0;
    ghost var want := Sectors(dev, sector, n);
    var done := 0;
    assert data[..] == Patched(old(data[..]), at, want[..0]);
    for i := 0 to total
      invariant done == (if i * SECTOR < n then i * SECTOR else n)
      invariant data[..] == Patched(old(data[..]), at, want[..done])
    {
      var len := if SECTOR < n - done then SECTOR else n - done;
      ReadSector(dev, mediaBlock, sector, data, at, n, done, len, old(data[..]));
      done := done + len;
    }
    assert want[..n] == want;
  }

  // One turn of the loop: `len` bytes of the sector at `dst`.
  method ReadSector(
      dev: Device, mediaBlock: nat, sector: nat, data: array<Byte>, at: nat, n: nat, dst: nat, len: nat,
      ghost was: seq<Byte>)
    requires WholeSectors(mediaBlock) && at + n <= data.Length == |was|
    requires dst % SECTOR == 0 && len <= SECTOR && dst + len <= n
    requires data[..] == Patched(was, at, Sectors(dev, sector, n)[..dst])
    modifies data
    ensures data[..] == Patched(was, at, Sectors(dev, sector, n)[..dst + len])
  {
    var part := FetchSector(dev, mediaBlock, sector, dst, len, n);
    CopyTo(data, at + dst, part);
  }

  method FetchSector(
      dev: Device, mediaBlock: nat, sector: nat, dst: nat, len: nat, ghost n: nat)
    returns (part: seq<Byte>)
    requires WholeSectors(mediaBlock) && dst % SECTOR == 0 && len <= SECTOR && dst + len <= n
    ensures part == Sectors(dev, sector, n)[dst..dst + len]
  {
    var bs := (dev.partition + sector) * SECTOR + dst;
    var inner := bs % mediaBlock;
    var block := MediaBlocks(dev, mediaBlock, bs / mediaBlock, mediaBlock);
    SectorOfBlock(dev, mediaBlock, sector, n, dst, len);
    part := block[inner..inner + len];
  }

  // -- The extent lookups ------------------------------------------------------------------

  method FirstSector(dev: Device, block: nat) returns (sector: nat)
    ensures sector == SectorOf(dev, block)
  {
    sector := block * dev.perBlock;
    TimesIsProduct(block, dev.perBlock);
  }

  // Reads a block of the file system into a new buffer.
  method LoadBlock(dev: Device, mediaBlock: nat, view: View, block: nat) returns (raw: Node)
    requires WholeSectors(mediaBlock) && dev.perBlock >= 1
    ensures raw == Load(dev, view, block)
  {
    var size := match view case Descent => BlockSize(dev) case Listing => BUFFER;
    var n := if BlockSize(dev) < size then BlockSize(dev) else size;
    var buf := new Byte[size](_ => 0);
    var sector := FirstSector(dev, block);
    ReadSectors(dev, mediaBlock, sector, buf, 0, n);
    raw := buf[..];
  }

  // resolve_extent_in_block
  method ResolveExtentInBlock(dev: Device, mediaBlock: nat, raw: Node, ghost d: nat, lb: nat) returns (r: Option<nat>)
    requires WholeSectors(mediaBlock) && dev.perBlock >= 1 && Nested(dev, Descent, raw, d)
    ensures r == Resolve(dev, raw, d, lb)
    decreases d
  {
    if Depth(raw) == 0 {
      r := ScanLeaf(raw, lb);
      return;
    }
    var i := PickEntry(raw, lb);
    if i == None {
      return None;
    }
    var child := LoadBlock(dev, mediaBlock, Descent, Child(raw, i.value));
    r := ResolveExtentInBlock(dev, mediaBlock, child, d - 1, lb);
  }

  method ScanLeaf(raw: Node, lb: nat) returns (r: Option<nat>)
    ensures r == Scan(Leaf(raw), lb)
  {
    var i := 0;
    while i < Entries(raw) && 12 + 12 * i + 12 <= |raw|
      invariant i <= Visible(raw) && Scan(Leaf(raw), lb) == Scan(Leaf(raw)[i..], lb)
      decreases Entries(raw) - i
    {
      var e := ExtentAt(raw, i);
      assert Leaf(raw)[i..][0] == e && Leaf(raw)[i..][1..] == Leaf(raw)[i + 1..];
      if e.block <= lb < (e.block + e.len) % U32 {
        return Some((e.start + (lb - e.block)) % U32);
      }
      i := i + 1;
    }
    return None;
  }

  method PickEntry(raw: Node, lb: nat) returns (r: Option<nat>)
    ensures r == Pick(raw, 0, lb)
  {
    var i := 0;
    while i < Entries(raw) && 12 + 12 * i + 12 <= |raw|
      invariant i <= Visible(raw) && Pick(raw, 0, lb) == Pick(raw, i, lb)
      decreases Entries(raw) - i
    {
      var next := NextKey(raw, i);
      if lb >= Key(raw, i) && (next == None || lb < next.value) {
        return Some(i);
      }
      i := i + 1;
    }
    return None;
  }

  // What the listing gives once the node's own magic has been looked at.
  ghost function Listed(dev: Device, raw: Node, d: nat): Option<seq<Extent>>
    requires dev.perBlock >= 1 && Nested(dev, Listing, raw, d)
  {
    if Magic(raw) != MAGIC then None else Flatten(dev, raw, d)
  }

  // collect_leaf_extents; on failure what was pushed so far is dropped with the list.
  method CollectLeafExtents(
      dev: Device, mediaBlock: nat, block: nat, ghost d: nat, extents: seq<Extent>)
    returns (r: Option<seq<Extent>>)
    requires WholeSectors(mediaBlock) && dev.perBlock >= 1 && Nested(dev, Listing, Load(dev, Listing, block), d)
    ensures var list := Listed(dev, Load(dev, Listing, block), d);
      r == if list.Some? then Some(extents + list.value) else None
    decreases d, 1, 0
  {
    var raw := LoadBlock(dev, mediaBlock, Listing, block);
    if Magic(raw) != MAGIC {
      return None;
    }
    r := CollectEntries(dev, mediaBlock, raw, d, extents);
  }

  // The loops that collect_leaf_extents and parse_extents share.
  method CollectEntries(
      dev: Device, mediaBlock: nat, raw: Node, ghost d: nat, extents: seq<Extent>)
    returns (r: Option<seq<Extent>>)
    requires WholeSectors(mediaBlock) && dev.perBlock >= 1 && Nested(dev, Listing, raw, d)
    ensures var list := Flatten(dev, raw, d);
      r == if list.Some? then Some(extents + list.value) else None
    decreases d, 0, 0
  {
    if Depth(raw) == 0 {
      var list := PushLeaf(raw, extents);
      return Some(list);
    }
    r := PushChildren(dev, mediaBlock, raw, d, extents);
  }

  method PushLeaf(raw: Node, extents: seq<Extent>) returns (list: seq<Extent>)
    ensures list == extents + Leaf(raw)
  {
    list := extents;
    var i := 0;
    while i < Entries(raw) && 12 + 12 * i + 12 <= |raw|
      invariant i <= Visible(raw) && list == extents + Leaf(raw)[..i]
      decreases Entries(raw) - i
    {
      list := list + [ExtentAt(raw, i)];
      i := i + 1;
    }
    assert Leaf(raw)[..i] == Leaf(raw);
  }

  // After the first `i` children: what is still to come completes the list.
  ghost predicate Collected(dev: Device, raw: Node, d: nat, i: nat, extents: seq<Extent>, list: seq<Extent>)
    requires dev.perBlock >= 1 && Nested(dev, Listing, raw, d) && d > 0 && i <= Visible(raw)
  {
    var all, rest := FlattenFrom(dev, raw, d, 0), FlattenFrom(dev, raw, d, i);
    (all.Some? <==> rest.Some?) && (all.Some? ==> extents + all.value == list + rest.value)
  }

  lemma CollectedStep(dev: Device, raw: Node, d: nat, i: nat, extents: seq<Extent>, list: seq<Extent>)
    requires dev.perBlock >= 1 && Nested(dev, Listing, raw, d) && d > 0 && i < Visible(raw)
    requires Collected(dev, raw, d, i, extents, list)
    ensures var child := Listed(dev, Load(dev, Listing, Child(raw, i)), d - 1);
      && (child == None ==> FlattenFrom(dev, raw, d, 0) == None)
      && (child != None ==> Collected(dev, raw, d, i + 1, extents, list + child.value))
  {
    var child, rest := Listed(dev, Load(dev, Listing, Child(raw, i)), d - 1), FlattenFrom(dev, raw, d, i + 1);
    if child.Some? && rest.Some? {
      assert list + (child.value + rest.value) == list + child.value + rest.value;
    }
  }

  method PushChildren(
      dev: Device, mediaBlock: nat, raw: Node, ghost d: nat, extents: seq<Extent>)
    returns (r: Option<seq<Extent>>)
    requires WholeSectors(mediaBlock) && dev.perBlock >= 1 && Nested(dev, Listing, raw, d) && d > 0
    ensures var list := FlattenFrom(dev, raw, d, 0);
      r == if list.Some? then Some(extents + list.value) else None
    decreases d - 1, 2, 0
  {
    var list := extents;
    var i := 0;
    while i < Entries(raw) && 12 + 12 * i + 12 <= |raw|
      invariant i <= Visible(raw) && Collected(dev, raw, d, i, extents, list)
      decreases Entries(raw) - i
    {
      CollectedStep(dev, raw, d, i, extents, list);
      var pushed := CollectLeafExtents(dev, mediaBlock, Child(raw, i), d - 1, list);
      if pushed == None {
        return None;
      }
      list := pushed.value;
      i := i + 1;
    }
    assert list + [] == list;
    return Some(list);
  }

  // parse_extents
  method ParseExtents(dev: Device, mediaBlock: nat, root: Node, ghost d: nat) returns (r: Option<seq<Extent>>)
    requires WholeSectors(mediaBlock) && dev.perBlock >= 1 && Nested(dev, Listing, root, d)
    ensures r == Listed(dev, root, d)
  {
    if Magic(root) != MAGIC {
      return None;
    }
    r := CollectEntries(dev, mediaBlock, root, d, []);
    assert r.Some? ==> r.value == Flatten(dev, root, d).value;
  }
}
