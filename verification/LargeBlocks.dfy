/** A tree on which the two extent lookups of boot/src/load_kernel.rs differ: blocks of 8192 bytes
    and a leaf of 341 extents, one more than the listing's 4096-byte buffer holds. */
module LargeBlocks {
  import opened Basics
  import opened ExtentTree

  // The leaf in block 1: magic, 341 entries, depth 0; entry `e` maps logical block `e` to block 1.
  function LeafByte(k: nat): Byte {
    if k == 0 then 0x0A else if k == 1 then 0xF3
    else if k == 2 then 0x55 else if k == 3 then 0x01
    else if k < 12 then 0
    else EntryByte((k - 12) / 12, (k - 12) % 12)
  }

  function EntryByte(e: nat, r: nat): Byte {
    if r == 0 then e % 256 else if r == 1 then e / 256 % 256
    else if r == 4 || r == 8 then 1 else 0
  }

  function DiskByte(k: nat): Byte {
    if k < 8192 then 0 else LeafByte(k - 8192)
  }

  function Disk(): Device {
    Device(DiskByte, 0, 16)
  }

  // One index entry: key 0, child block 1.
  function RootByte(k: nat): Byte {
    if k == 0 then 0x0A else if k == 1 then 0xF3 else if k == 2 || k == 6 || k == 16 then 1 else 0
  }

  function Root(): (r: Node)
    ensures |r| == 60
  {
    seq<Byte>(60, k requires k >= 0 => RootByte(k))
  }

  lemma EntryOf(raw: Node, i: nat, entry: seq<Byte>)
    requires 24 + 12 * i <= |raw| && i < 0x1_0000 && entry == raw[12 + 12 * i..24 + 12 * i]
    requires forall r: nat :: r < 12 ==> entry[r] == EntryByte(i, r)
    ensures ExtentAt(raw, i) == Extent(i, 1, 1)
  {
    var off := 12 + 12 * i;
    assert raw[off] == entry[0] && raw[off + 1] == entry[1] && raw[off + 2] == entry[2] && raw[off + 3] == entry[3];
    assert raw[off + 4] == entry[4] && raw[off + 5] == entry[5] && raw[off + 6] == entry[6] && raw[off + 7] == entry[7];
    assert raw[off + 8] == entry[8] && raw[off + 9] == entry[9];
    assert raw[off + 10] == entry[10] && raw[off + 11] == entry[11];
    assert Le16(raw, off) == i && Le16(raw, off + 2) == 0;
    assert Le16(raw, off + 4) == 1 && Le16(raw, off + 6) == 0;
    assert Le16(raw, off + 8) == 1 && Le16(raw, off + 10) == 0;
  }

  // The bytes of the leaf.
  ghost predicate IsLeaf(raw: Node) {
    |raw| == 8192 && forall k: nat :: k < |raw| ==> raw[k] == LeafByte(k)
  }

  lemma LeafHeader(raw: Node)
    requires IsLeaf(raw)
    ensures Magic(raw) == MAGIC && Entries(raw) == 341 && Depth(raw) == 0
  {
    assert raw[0] == 0x0A && raw[1] == 0xF3;
    assert raw[2] == 0x55 && raw[3] == 1 && raw[6] == 0 == raw[7];
  }

  // Where byte `r` of entry `i` lies.
  lemma EntryOffset(i: nat, r: nat)
    requires r < 12
    ensures LeafByte(12 + 12 * i + r) == EntryByte(i, r)
  {
    var k := 12 + 12 * i + r;
    assert (k - 12) / 12 == i && (k - 12) % 12 == r;
  }

  lemma LeafEntry(raw: Node, i: nat)
    requires IsLeaf(raw) && i < 341
    ensures ExtentAt(raw, i) == Extent(i, 1, 1)
  {
    var entry := raw[12 + 12 * i..24 + 12 * i];
    forall r: nat | r < 12
      ensures entry[r] == EntryByte(i, r)
    {
      EntryOffset(i, r);
    }
    EntryOf(raw, i, entry);
  }

  lemma LeafShape(raw: Node)
    requires IsLeaf(raw)
    ensures Magic(raw) == MAGIC && Entries(raw) == 341 && Depth(raw) == 0 && Leaf(raw) == Row(0, 341)
  {
    LeafHeader(raw);
    forall i: nat | i < 341
      ensures ExtentAt(raw, i) == Row(0, 341)[i]
    {
      LeafEntry(raw, i);
    }
  }

  function Row(n: nat, k: nat): seq<Extent> {
    seq(k, i requires i >= 0 => Extent(n + i, 1, 1))
  }

  lemma {:induction false} RowScan(n: nat, k: nat, lb: nat)
    requires n <= lb < n + k < U32
    ensures InOrder(Row(n, k), n, n + k) && Position(Row(n, k), lb) == lb - n && Scan(Row(n, k), lb) == Some(1)
    decreases k
  {
    assert Row(n, k)[1..] == Row(n + 1, k - 1);
    if k > 1 {
      RowScan(n + 1, k - 1, if lb == n then lb + 1 else lb);
    }
  }

  // A root with one child, a leaf of `n` one-block extents.
  ghost predicate OneLeaf(dev: Device, root: Node, n: nat) {
    && dev.perBlock >= 1 && |root| == 60 && n < U32
    && Magic(root) == MAGIC && Entries(root) == 1 && Depth(root) == 1 && Key(root, 0) == 0
    && var leaf := Load(dev, Descent, Child(root, 0));
       Magic(leaf) == MAGIC && Depth(leaf) == 0 && Entries(leaf) == n && Fits(leaf) && Leaf(leaf) == Row(0, n)
  }

  lemma OneLeafMisses(dev: Device, root: Node, n: nat)
    requires OneLeaf(dev, root, n) && n > ROOM
    ensures WellFormed(dev, root, 1, 0, n)
    ensures Nested(dev, Descent, root, 1) && Nested(dev, Listing, root, 1) && Flatten(dev, root, 1).Some?
    ensures Resolve(dev, root, 1, n - 1) == Some(1) && Scan(Flatten(dev, root, 1).value, n - 1) == None
  {
    RowScan(0, n, n - 1);
    RootShows(root);
    assert WellFormed(dev, Load(dev, Descent, Child(root, 0)), 0, 0, n);
    ScanOfListing(dev, root, root, 1, 0, n, n - 1);
    assert Pick(root, 0, n - 1) == Some(0);
  }

  lemma DiskIsOneLeaf(dev: Device, root: Node)
    requires dev == Disk() && root == Root()
    ensures OneLeaf(dev, root, 341)
  {
    var leaf := Load(dev, Descent, Child(root, 0));
    forall k: nat | k < |leaf|
      ensures leaf[k] == LeafByte(k)
    {
      assert leaf[k] == dev.media(8192 + k);
    }
    LeafShape(leaf);
  }

  /** On this disk the tree is well-formed and the descent finds logical block 340, but a scan of the
      list does not. */
  lemma ListingMissesABlock(dev: Device, root: Node)
    requires dev == Disk() && root == Root()
    ensures dev.perBlock >= 1 && WellFormed(dev, root, 1, 0, 341)
    ensures Nested(dev, Descent, root, 1) && Nested(dev, Listing, root, 1) && Flatten(dev, root, 1).Some?
    ensures Resolve(dev, root, 1, 340) == Some(1) && Scan(Flatten(dev, root, 1).value, 340) == None
  {
    DiskIsOneLeaf(dev, root);
    OneLeafMisses(dev, root, 341);
  }
}
