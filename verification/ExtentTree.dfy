/** The ext4 extent tree reader of boot/src/load_kernel.rs: the descent that resolves one logical
    block, and the walk that lists every extent. Nodes are byte buffers read from the device, laid
    out as in the ext4 on-disk format, section "Extent Tree". */
module ExtentTree {
  import opened Basics
  import opened Multiples

  // `media` gives the byte at each offset of the device; `partition` is the first sector of the
  // partition and `perBlock` the number of sectors in a block of the file system.
  datatype Device = Device(media: nat -> Byte, partition: nat, perBlock: nat)

  datatype Extent = Extent(block: nat, len: nat, start: nat)

  const SECTOR: nat := 512
  const MAGIC: nat := 0xF30A
  const BUFFER: nat := 4096
  const U32: nat := 0x1_0000_0000

  // What reading `n` bytes from `sector` of the partition gives.
  function Sectors(dev: Device, sector: nat, n: nat): (r: seq<Byte>)
    ensures |r| == n
  {
    seq<Byte>(n, k requires k >= 0 => dev.media((dev.partition + sector) * SECTOR + k))
  }

  function BlockSize(dev: Device): nat {
    dev.perBlock * SECTOR
  }

  // The first sector of a block of the file system.
  ghost function SectorOf(dev: Device, block: nat): nat {
    Times(block, dev.perBlock)
  }

  function Le16(raw: seq<Byte>, off: nat): nat
    requires off + 2 <= |raw|
  {
    raw[off] as nat + 0x100 * raw[off + 1] as nat
  }

  function Le32(raw: seq<Byte>, off: nat): nat
    requires off + 4 <= |raw|
  {
    Le16(raw, off) + 0x1_0000 * Le16(raw, off + 2)
  }

  // -- Nodes ------------------------------------------------------------------------

  // A buffer that holds at least a node header.
  type Node = raw: seq<Byte> | 12 <= |raw| witness seq(12, _ => 0)

  function Magic(raw: Node): nat { Le16(raw, 0) }
  function Entries(raw: Node): nat { Le16(raw, 2) }
  function Depth(raw: Node): nat { Le16(raw, 6) }

  // The entries the loops look at: they stop at the first that does not fit the buffer.
  function Visible(raw: Node): (n: nat)
    ensures n <= Entries(raw) && 12 + 12 * n <= |raw|
    ensures n < Entries(raw) ==> |raw| < 24 + 12 * n
  {
    var room := (|raw| - 12) / 12;
    if Entries(raw) <= room then Entries(raw) else room
  }

  function Key(raw: Node, i: nat): nat
    requires 12 + 12 * i + 4 <= |raw|
  {
    Le32(raw, 12 + 12 * i)
  }

  function Child(raw: Node, i: nat): nat
    requires 12 + 12 * i + 12 <= |raw|
  {
    Le16(raw, 12 + 12 * i + 8) * U32 + Le32(raw, 12 + 12 * i + 4)
  }

  function ExtentAt(raw: Node, i: nat): Extent
    requires 12 + 12 * i + 12 <= |raw|
  {
    var off := 12 + 12 * i;
    Extent(Le32(raw, off), Le16(raw, off + 4) % 0x8000, Le16(raw, off + 6) * U32 + Le32(raw, off + 8))
  }

  // The length field of an extent as it lies on the disk.
  function RawLength(raw: Node, i: nat): nat
    requires 12 + 12 * i + 12 <= |raw|
  {
    Le16(raw, 12 + 12 * i + 4)
  }

  // The number of blocks it stands for: above 0x8000 it marks an extent that is not yet written.
  function FormatLength(field: nat): nat {
    if field <= 0x8000 then field else field - 0x8000
  }

  /** The length read is the one the format gives if and only if the field is not 0x8000, the longest
      written extent. */
  lemma LengthIff(raw: Node, i: nat)
    requires 12 + 12 * i + 12 <= |raw|
    ensures ExtentAt(raw, i).len == FormatLength(RawLength(raw, i)) <==> RawLength(raw, i) != 0x8000
  {
    var field := RawLength(raw, i);
    assert field < 0x1_0000;
    assert field >= 0x8000 ==> field % 0x8000 == field - 0x8000;
  }

  function Leaf(raw: Node): seq<Extent> {
    seq(Visible(raw), i requires 0 <= i < Visible(raw) => ExtentAt(raw, i))
  }

  // The key after entry `i`, if the node has one inside the buffer.
  function NextKey(raw: Node, i: nat): Option<nat> {
    if i + 1 < Entries(raw) && 12 + 12 * (i + 1) + 4 <= |raw| then Some(Key(raw, i + 1)) else None
  }

  predicate InRange(raw: Node, i: nat, lb: nat)
    requires i < Visible(raw)
  {
    lb >= Key(raw, i) && (NextKey(raw, i) == None || lb < NextKey(raw, i).value)
  }

  // The child the descent enters: the first entry in range.
  function Pick(raw: Node, i: nat, lb: nat): (r: Option<nat>)
    requires i <= Visible(raw)
    ensures r.Some? ==> i <= r.value < Visible(raw)
    decreases Visible(raw) - i
  {
    if i == Visible(raw) then None
    else if InRange(raw, i, lb) then Some(i)
    else Pick(raw, i + 1, lb)
  }

  // Both walks read a child block, the descent into a buffer of the block size, the listing into a
  // fixed buffer of 4096 bytes that starts out zero.
  datatype View = Descent | Listing

  ghost function Load(dev: Device, view: View, block: nat): (r: Node)
    requires dev.perBlock >= 1
  {
    var sector := SectorOf(dev, block);
    match view
    case Descent => Sectors(dev, sector, BlockSize(dev))
    case Listing =>
      var n := if BlockSize(dev) < BUFFER then BlockSize(dev) else BUFFER;
      Sectors(dev, sector, n) + seq(BUFFER - n, _ => 0)
  }

  // Depth fields go down by one at each level, as far as the walk can see. Without this the
  // source's recursion need not end.
  ghost predicate Nested(dev: Device, view: View, raw: Node, d: nat)
    requires dev.perBlock >= 1
    decreases d
  {
    && Depth(raw) == d
    && (d > 0 ==> forall i: nat {:trigger Child(raw, i)} :: i < Visible(raw) ==>
         Nested(dev, view, Load(dev, view, Child(raw, i)), d - 1))
  }

  // -- The two lookups ----------------------------------------------------------------

  predicate Covers(e: Extent, lb: nat) {
    e.block <= lb < (e.block + e.len) % U32
  }

  // The first extent of the list that covers the block; the physical block is cut to 32 bits.
  function Scan(list: seq<Extent>, lb: nat): Option<nat> {
    if list == [] then None
    else if Covers(list[0], lb) then Some((list[0].start + (lb - list[0].block)) % U32)
    else Scan(list[1..], lb)
  }

  // resolve_extent_in_block
  ghost function Resolve(dev: Device, raw: Node, d: nat, lb: nat): Option<nat>
    requires dev.perBlock >= 1 && Nested(dev, Descent, raw, d)
    decreases d
  {
    if d == 0 then Scan(Leaf(raw), lb)
    else match Pick(raw, 0, lb)
      case None => None
      case Some(i) => Resolve(dev, Load(dev, Descent, Child(raw, i)), d - 1, lb)
  }

  // What collect_leaf_extents pushes for a node it has read, or nothing on a bad magic below.
  ghost function Flatten(dev: Device, raw: Node, d: nat): Option<seq<Extent>>
    requires dev.perBlock >= 1 && Nested(dev, Listing, raw, d)
    decreases d, 0, 0
  {
    if d == 0 then Some(Leaf(raw)) else FlattenFrom(dev, raw, d, 0)
  }

  ghost function FlattenFrom(dev: Device, raw: Node, d: nat, i: nat): Option<seq<Extent>>
    requires dev.perBlock >= 1 && Nested(dev, Listing, raw, d) && d > 0 && i <= Visible(raw)
    decreases d - 1, 1, Visible(raw) - i
  {
    if i == Visible(raw) then Some([]) else
    var child := Load(dev, Listing, Child(raw, i));
    if Magic(child) != MAGIC then None else
    match Flatten(dev, child, d - 1)
    case None => None
    case Some(a) =>
      match FlattenFrom(dev, raw, d, i + 1)
      case None => None
      case Some(b) => Some(a + b)
  }

  // -- Well-formed trees ----------------------------------------------------------------

  // The extents are sorted and disjoint, and lie in `lo` up to `hi`.
  predicate InOrder(list: seq<Extent>, lo: nat, hi: nat) {
    if list == [] then lo <= hi
    else lo <= list[0].block && InOrder(list[1..], list[0].block + list[0].len, hi)
  }

  // The end of the key range of entry `i`.
  function EndKey(raw: Node, i: nat, hi: nat): nat
    requires i < Visible(raw)
  {
    if i + 1 < Visible(raw) then Key(raw, i + 1) else hi
  }

  // Every entry lies inside the buffer.
  predicate Fits(raw: Node) {
    12 + 12 * Entries(raw) <= |raw|
  }

  /** A well-formed extent tree of depth `d` for the logical blocks `lo` up to `hi`: each node has
      the magic, its depth and room for its entries; leaf extents are in order; each index key
      starts the range of its child, which ends where the next key starts. */
  ghost predicate WellFormed(dev: Device, raw: Node, d: nat, lo: nat, hi: nat)
    requires dev.perBlock >= 1
    decreases d
  {
    && Magic(raw) == MAGIC && Depth(raw) == d && Fits(raw)
    && (d == 0 ==> InOrder(Leaf(raw), lo, hi))
    && (d > 0 ==> IndexOk(raw, lo, hi))
    && (d > 0 ==> forall i: nat {:trigger Child(raw, i)} :: i < Visible(raw) ==>
         WellFormed(dev, Load(dev, Descent, Child(raw, i)), d - 1, Key(raw, i), EndKey(raw, i, hi)))
  }

  predicate IndexOk(raw: Node, lo: nat, hi: nat) {
    && (Visible(raw) == 0 ==> lo <= hi)
    && (Visible(raw) > 0 ==> lo <= Key(raw, 0))
    && forall i: nat {:trigger EndKey(raw, i, hi)} :: i < Visible(raw) ==> Key(raw, i) <= EndKey(raw, i, hi)
  }

  // -- What the listing sees of a node ------------------------------------------------------

  const ROOM: nat := 340  // entries that fit 4096 bytes after the header

  function Seen(raw: Node): nat {
    if Visible(raw) < ROOM then Visible(raw) else ROOM
  }

  // `other` shows the first entries of `raw`, as many as fit 4096 bytes.
  ghost predicate Shows(raw: Node, other: Node) {
    && Magic(other) == Magic(raw) && Depth(other) == Depth(raw) && Visible(other) == Seen(raw)
    && Leaf(other) == Leaf(raw)[..Seen(raw)]
    && forall i: nat {:trigger SameChild(raw, other, i)} :: i < Seen(raw) ==> SameChild(raw, other, i)
  }

  ghost predicate SameChild(raw: Node, other: Node, i: nat) {
    i < Visible(raw) && i < Visible(other) && Child(other, i) == Child(raw, i)
  }

  lemma PrefixShows(raw: Node, other: Node)
    requires Fits(raw) && |other| >= 12 + 12 * Seen(raw)
    requires Entries(raw) > ROOM ==> |other| == BUFFER
    requires forall k :: 0 <= k < 12 + 12 * Seen(raw) ==> other[k] == raw[k]
    ensures Shows(raw, other)
  {
    assert Entries(other) == Entries(raw);
    assert forall i: nat :: i < Seen(raw) ==> ExtentAt(other, i) == ExtentAt(raw, i) && SameChild(raw, other, i);
  }

  lemma LoadShows(dev: Device, block: nat)
    requires dev.perBlock >= 1 && Fits(Load(dev, Descent, block))
    ensures Shows(Load(dev, Descent, block), Load(dev, Listing, block))
  {
    PrefixShows(Load(dev, Descent, block), Load(dev, Listing, block));
  }

  lemma {:induction false} WellFormedNests(dev: Device, raw: Node, other: Node, d: nat, lo: nat, hi: nat)
    requires dev.perBlock >= 1 && WellFormed(dev, raw, d, lo, hi) && Shows(raw, other)
    ensures Nested(dev, Descent, raw, d) && Nested(dev, Listing, other, d)
    decreases d
  {
    if d > 0 {
      forall i: nat | i < Visible(raw)
        ensures Nested(dev, Descent, Load(dev, Descent, Child(raw, i)), d - 1)
        ensures Nested(dev, Listing, Load(dev, Listing, Child(raw, i)), d - 1)
      {
        LoadShows(dev, Child(raw, i));
        var there, here := Load(dev, Descent, Child(raw, i)), Load(dev, Listing, Child(raw, i));
        WellFormedNests(dev, there, here, d - 1, Key(raw, i), EndKey(raw, i, hi));
      }
      forall i: nat | i < Visible(other)
        ensures Nested(dev, Listing, Load(dev, Listing, Child(other, i)), d - 1)
      {
        assert SameChild(raw, other, i);
      }
    }
  }

  // -- Scanning ordered lists ---------------------------------------------------------------

  lemma {:induction false} OrderBounds(list: seq<Extent>, lo: nat, hi: nat)
    requires InOrder(list, lo, hi)
    ensures lo <= hi && forall e :: e in list ==> lo <= e.block && e.block + e.len <= hi
  {
    if list != [] {
      OrderBounds(list[1..], list[0].block + list[0].len, hi);
    }
  }

  lemma {:induction false} OrderConcat(a: seq<Extent>, b: seq<Extent>, lo: nat, mid: nat, hi: nat)
    requires InOrder(a, lo, mid) && InOrder(b, mid, hi)
    ensures InOrder(a + b, lo, hi)
  {
    if a == [] {
      assert a + b == b;
    } else {
      OrderConcat(a[1..], b, a[0].block + a[0].len, mid, hi);
      assert (a + b)[1..] == a[1..] + b;
    }
  }

  lemma {:induction false} ScanConcat(a: seq<Extent>, b: seq<Extent>, lb: nat)
    ensures Scan(a + b, lb) == if Scan(a, lb).Some? then Scan(a, lb) else Scan(b, lb)
  {
    if a == [] {
      assert a + b == b;
    } else {
      ScanConcat(a[1..], b, lb);
      assert (a + b)[1..] == a[1..] + b;
    }
  }

  lemma {:induction false} ScanOutside(list: seq<Extent>, lo: nat, hi: nat, lb: nat)
    requires InOrder(list, lo, hi) && hi < U32 && !(lo <= lb < hi)
    ensures Scan(list, lb) == None
  {
    if list != [] {
      OrderBounds(list, lo, hi);
      assert list[0] in list;
      assert lb < list[0].block + list[0].len ==> lb < lo;
      var mid := list[0].block + list[0].len;
      ScanOutside(list[1..], mid, hi, lb);
    }
  }

  // -- The descent is a scan of the list ------------------------------------------------------

  // The index of the first extent that covers the block.
  function Position(list: seq<Extent>, lb: nat): (k: nat)
    ensures k <= |list|
  {
    if list == [] || Covers(list[0], lb) then 0 else 1 + Position(list[1..], lb)
  }

  // The descent finds the block by way of entries that the listing sees too.
  ghost predicate Reaches(dev: Device, raw: Node, d: nat, lb: nat)
    requires dev.perBlock >= 1 && Nested(dev, Descent, raw, d)
    decreases d
  {
    if d == 0 then Position(Leaf(raw), lb) < Seen(raw)
    else match Pick(raw, 0, lb)
      case None => false
      case Some(i) => i < Seen(raw) && Reaches(dev, Load(dev, Descent, Child(raw, i)), d - 1, lb)
  }

  ghost function Found(dev: Device, raw: Node, d: nat, lb: nat): Option<nat>
    requires dev.perBlock >= 1 && Nested(dev, Descent, raw, d)
  {
    if Reaches(dev, raw, d, lb) then Resolve(dev, raw, d, lb) else None
  }

  ghost function FoundFrom(dev: Device, raw: Node, d: nat, i: nat, lb: nat): Option<nat>
    requires dev.perBlock >= 1 && Nested(dev, Descent, raw, d) && d > 0 && i <= Visible(raw)
  {
    match Pick(raw, i, lb)
    case None => None
    case Some(j) => if j < Seen(raw) then Found(dev, Load(dev, Descent, Child(raw, j)), d - 1, lb) else None
  }

  lemma {:induction false} LeafScan(list: seq<Extent>, n: nat, lb: nat)
    requires n <= |list|
    ensures Scan(list[..n], lb) == if Position(list, lb) < n then Scan(list, lb) else None
  {
    if n > 0 && !Covers(list[0], lb) {
      LeafScan(list[1..], n - 1, lb);
      assert list[..n][1..] == list[1..][..n - 1];
    }
  }

  lemma {:induction false} OrderPrefix(list: seq<Extent>, n: nat, lo: nat, hi: nat)
    requires InOrder(list, lo, hi) && n <= |list|
    ensures InOrder(list[..n], lo, hi)
  {
    if n > 0 {
      OrderPrefix(list[1..], n - 1, list[0].block + list[0].len, hi);
      assert list[..n][1..] == list[1..][..n - 1];
    } else {
      OrderBounds(list, lo, hi);
    }
  }

  // The key at which the entries from `i` on start.
  function StartKey(raw: Node, i: nat, hi: nat): nat
    requires i <= Visible(raw)
  {
    if i < Visible(raw) then Key(raw, i) else hi
  }

  lemma {:induction false} KeysBelow(raw: Node, i: nat, lo: nat, hi: nat)
    requires IndexOk(raw, lo, hi) && i < Visible(raw)
    ensures Key(raw, i) <= EndKey(raw, i, hi) <= hi
    decreases Visible(raw) - i
  {
    if i + 1 < Visible(raw) {
      KeysBelow(raw, i + 1, lo, hi);
    }
  }

  // One entry: its child's extents `a`, those after it `b`.
  lemma EntryScan(raw: Node, i: nat, hi: nat, a: seq<Extent>, b: seq<Extent>, lb: nat)
    requires i < Visible(raw) == Entries(raw) && hi < U32 && EndKey(raw, i, hi) <= hi
    requires InOrder(a, Key(raw, i), EndKey(raw, i, hi)) && InOrder(b, EndKey(raw, i, hi), hi)
    requires i + 1 == Visible(raw) ==> b == []
    ensures InOrder(a + b, Key(raw, i), hi)
    ensures Scan(a + b, lb) == if InRange(raw, i, lb) then Scan(a, lb) else Scan(b, lb)
  {
    var mid := EndKey(raw, i, hi);
    OrderConcat(a, b, Key(raw, i), mid, hi);
    OrderBounds(b, mid, hi);
    ScanConcat(a, b, lb);
    if InRange(raw, i, lb) {
      if i + 1 < Visible(raw) {
        ScanOutside(b, mid, hi, lb);
      }
    } else {
      ScanOutside(a, Key(raw, i), mid, lb);
    }
  }

  // What holds of the child of entry `i`.
  ghost predicate ChildOk(dev: Device, raw: Node, d: nat, i: nat, hi: nat, lb: nat)
    requires dev.perBlock >= 1 && d > 0 && i < Visible(raw)
  {
    var there, here := Load(dev, Descent, Child(raw, i)), Load(dev, Listing, Child(raw, i));
    && Nested(dev, Descent, there, d - 1) && Nested(dev, Listing, here, d - 1) && Magic(here) == MAGIC
    && Flatten(dev, here, d - 1).Some? && EndKey(raw, i, hi) <= hi
    && InOrder(Flatten(dev, here, d - 1).value, Key(raw, i), EndKey(raw, i, hi))
    && Found(dev, there, d - 1, lb) == Scan(Flatten(dev, here, d - 1).value, lb)
  }

  // What holds of the entries from `i` on.
  ghost predicate TailOk(dev: Device, raw: Node, other: Node, d: nat, i: nat, hi: nat, lb: nat)
    requires dev.perBlock >= 1 && d > 0 && i <= Visible(raw) && i <= Visible(other)
    requires Nested(dev, Descent, raw, d) && Nested(dev, Listing, other, d)
  {
    && FlattenFrom(dev, other, d, i).Some?
    && InOrder(FlattenFrom(dev, other, d, i).value, StartKey(raw, i, hi), hi)
    && Scan(FlattenFrom(dev, other, d, i).value, lb) == FoundFrom(dev, raw, d, i, lb)
  }

  lemma FlattenStep(dev: Device, raw: Node, d: nat, i: nat, a: seq<Extent>, b: seq<Extent>)
    requires dev.perBlock >= 1 && d > 0 && Nested(dev, Listing, raw, d) && i < Visible(raw)
    requires var child := Load(dev, Listing, Child(raw, i));
             Magic(child) == MAGIC && Flatten(dev, child, d - 1) == Some(a)
    requires FlattenFrom(dev, raw, d, i + 1) == Some(b)
    ensures FlattenFrom(dev, raw, d, i) == Some(a + b) && (i + 1 == Visible(raw) ==> b == [])
  {
  }

  lemma PickStep(dev: Device, raw: Node, d: nat, i: nat, lb: nat)
    requires dev.perBlock >= 1 && d > 0 && Nested(dev, Descent, raw, d) && i < Seen(raw)
    ensures FoundFrom(dev, raw, d, i, lb) ==
      if InRange(raw, i, lb) then Found(dev, Load(dev, Descent, Child(raw, i)), d - 1, lb)
      else FoundFrom(dev, raw, d, i + 1, lb)
  {
  }

  // The list from entry `i` on is the child's list and then the rest.
  lemma TailList(dev: Device, raw: Node, other: Node, d: nat, i: nat, hi: nat, lb: nat)
    returns (a: seq<Extent>, b: seq<Extent>)
    requires dev.perBlock >= 1 && d > 0
    requires Nested(dev, Descent, raw, d) && Nested(dev, Listing, other, d)
    requires SameChild(raw, other, i) && Visible(other) == Seen(raw) && Visible(raw) == Entries(raw)
    requires ChildOk(dev, raw, d, i, hi, lb) && TailOk(dev, raw, other, d, i + 1, hi, lb)
    ensures FlattenFrom(dev, other, d, i) == Some(a + b) && (i + 1 == Visible(other) ==> b == [])
    ensures InOrder(a, Key(raw, i), EndKey(raw, i, hi)) && InOrder(b, StartKey(raw, i + 1, hi), hi)
    ensures Scan(a, lb) == Found(dev, Load(dev, Descent, Child(raw, i)), d - 1, lb)
    ensures Scan(b, lb) == FoundFrom(dev, raw, d, i + 1, lb)
  {
    a := Flatten(dev, Load(dev, Listing, Child(raw, i)), d - 1).value;
    b := FlattenFrom(dev, other, d, i + 1).value;
    FlattenStep(dev, other, d, i, a, b);
  }

  lemma TailStep(dev: Device, raw: Node, other: Node, d: nat, i: nat, hi: nat, lb: nat)
    requires dev.perBlock >= 1 && d > 0 && hi < U32
    requires Nested(dev, Descent, raw, d) && Nested(dev, Listing, other, d)
    requires SameChild(raw, other, i) && Visible(other) == Seen(raw) && Visible(raw) == Entries(raw)
    requires ChildOk(dev, raw, d, i, hi, lb) && TailOk(dev, raw, other, d, i + 1, hi, lb)
    ensures TailOk(dev, raw, other, d, i, hi, lb)
  {
    var a, b := TailList(dev, raw, other, d, i, hi, lb);
    EntryScan(raw, i, hi, a, b, lb);
    PickStep(dev, raw, d, i, lb);
  }

  lemma TailEnd(dev: Device, raw: Node, other: Node, d: nat, lo: nat, hi: nat, lb: nat)
    requires dev.perBlock >= 1 && d > 0
    requires Nested(dev, Descent, raw, d) && Nested(dev, Listing, other, d)
    requires Visible(other) == Seen(raw) && IndexOk(raw, lo, hi)
    ensures TailOk(dev, raw, other, d, Visible(other), hi, lb)
  {
    if Visible(other) < Visible(raw) {
      KeysBelow(raw, Visible(other), lo, hi);
    }
  }

  lemma {:induction false} EntriesScan(dev: Device, raw: Node, other: Node, d: nat, i: nat, lo: nat, hi: nat, lb: nat)
    requires dev.perBlock >= 1 && d > 0 && hi < U32
    requires Nested(dev, Descent, raw, d) && Nested(dev, Listing, other, d)
    requires i <= Visible(other) == Seen(raw) && Visible(raw) == Entries(raw) && IndexOk(raw, lo, hi)
    requires forall j: nat {:trigger SameChild(raw, other, j)} :: j < Seen(raw) ==> SameChild(raw, other, j)
    requires forall j: nat {:trigger ChildOk(dev, raw, d, j, hi, lb)} :: j < Visible(raw) ==>
               ChildOk(dev, raw, d, j, hi, lb)
    ensures TailOk(dev, raw, other, d, i, hi, lb)
    decreases Visible(other) - i
  {
    if i == Visible(other) {
      TailEnd(dev, raw, other, d, lo, hi, lb);
    } else {
      assert ChildOk(dev, raw, d, i, hi, lb) && SameChild(raw, other, i);
      EntriesScan(dev, raw, other, d, i + 1, lo, hi, lb);
      TailStep(dev, raw, other, d, i, hi, lb);
    }
  }

  /** On a well-formed tree of any depth the listing succeeds, the list is sorted and disjoint, and
      a scan of it finds each logical block that the descent finds by way of entries the listing
      sees, and no other. */
  lemma {:induction false} ScanOfListing(dev: Device, raw: Node, other: Node, d: nat, lo: nat, hi: nat, lb: nat)
    requires dev.perBlock >= 1 && WellFormed(dev, raw, d, lo, hi) && Shows(raw, other) && hi < U32
    ensures Nested(dev, Descent, raw, d) && Nested(dev, Listing, other, d)
    ensures Flatten(dev, other, d).Some? && InOrder(Flatten(dev, other, d).value, lo, hi)
    ensures Scan(Flatten(dev, other, d).value, lb) == Found(dev, raw, d, lb)
    decreases d, 0
  {
    WellFormedNests(dev, raw, other, d, lo, hi);
    if d == 0 {
      LeafScan(Leaf(raw), Seen(raw), lb);
      OrderPrefix(Leaf(raw), Seen(raw), lo, hi);
    } else {
      forall i: nat | i < Visible(raw)
        ensures ChildOk(dev, raw, d, i, hi, lb)
      {
        ChildScan(dev, raw, d, i, lo, hi, lb);
      }
      EntriesScan(dev, raw, other, d, 0, lo, hi, lb);
      assert TailOk(dev, raw, other, d, 0, hi, lb);
    }
  }

  lemma {:induction false} ChildScan(dev: Device, raw: Node, d: nat, i: nat, lo: nat, hi: nat, lb: nat)
    requires dev.perBlock >= 1 && WellFormed(dev, raw, d, lo, hi) && hi < U32 && d > 0 && i < Visible(raw)
    ensures ChildOk(dev, raw, d, i, hi, lb)
    decreases d - 1, 1
  {
    KeysBelow(raw, i, lo, hi);
    var block := Child(raw, i);
    LoadShows(dev, block);
    var there, here := Load(dev, Descent, block), Load(dev, Listing, block);
    ScanOfListing(dev, there, here, d - 1, Key(raw, i), EndKey(raw, i, hi), lb);
  }

  // The root lies in the inode's 60 bytes, and both walks read all of it.
  lemma RootShows(root: Node)
    requires |root| == 60 && Fits(root)
    ensures Shows(root, root)
  {
    PrefixShows(root, root);
  }

  lemma {:induction false} PositionFinds(list: seq<Extent>, lb: nat)
    ensures Position(list, lb) < |list| <==> Scan(list, lb).Some?
  {
    if list != [] && !Covers(list[0], lb) {
      PositionFinds(list[1..], lb);
    }
  }

  /** For every well-formed tree and logical block, the descent and a scan of the list agree if and
      only if the descent finds nothing or finds it by way of the first 340 entries of each node. */
  lemma LookupsAgreeIff(dev: Device, root: Node, d: nat, lo: nat, hi: nat, lb: nat)
    requires dev.perBlock >= 1 && WellFormed(dev, root, d, lo, hi) && |root| == 60 && hi < U32
    ensures Nested(dev, Descent, root, d) && Nested(dev, Listing, root, d)
    ensures Flatten(dev, root, d).Some? && InOrder(Flatten(dev, root, d).value, lo, hi)
    ensures Resolve(dev, root, d, lb) == Scan(Flatten(dev, root, d).value, lb)
      <==> Resolve(dev, root, d, lb) == None || Reaches(dev, root, d, lb)
  {
    RootShows(root);
    ScanOfListing(dev, root, root, d, lo, hi, lb);
  }

  // With blocks of at most 4096 bytes no entry is out of the listing's sight.
  lemma {:induction false} SmallBlocksReach(dev: Device, raw: Node, d: nat, lb: nat)
    requires dev.perBlock >= 1 && BlockSize(dev) <= BUFFER && |raw| <= BUFFER && Nested(dev, Descent, raw, d)
    requires Resolve(dev, raw, d, lb).Some?
    ensures Reaches(dev, raw, d, lb)
    decreases d
  {
    if d == 0 {
      PositionFinds(Leaf(raw), lb);
    } else {
      SmallBlocksReach(dev, Load(dev, Descent, Child(raw, Pick(raw, 0, lb).value)), d - 1, lb);
    }
  }

  /** With blocks of at most 4096 bytes the two lookups always agree. */
  lemma LookupsAgree(dev: Device, root: Node, d: nat, lo: nat, hi: nat, lb: nat)
    requires dev.perBlock >= 1 && BlockSize(dev) <= BUFFER
    requires WellFormed(dev, root, d, lo, hi) && |root| == 60 && hi < U32
    ensures Nested(dev, Descent, root, d) && Nested(dev, Listing, root, d)
    ensures Flatten(dev, root, d).Some? && InOrder(Flatten(dev, root, d).value, lo, hi)
    ensures Resolve(dev, root, d, lb) == Scan(Flatten(dev, root, d).value, lb)
  {
    LookupsAgreeIff(dev, root, d, lo, hi, lb);
    if Resolve(dev, root, d, lb).Some? {
      SmallBlocksReach(dev, root, d, lb);
    }
  }

  // A leaf with one extent of 0x8000 blocks from logical block 0.
  function LongestExtent(): Node {
    [0x0A, 0xF3, 1, 0, 4, 0, 0, 0, 0, 0, 0, 0] + [0, 0, 0, 0, 0x00, 0x80, 0, 0, 0, 1, 0, 0]
  }

  /** The code finds none of the blocks of an extent of 0x8000 blocks. */
  lemma LongestExtentIsMissed(lb: nat)
    ensures var raw := LongestExtent();
      Magic(raw) == MAGIC && Entries(raw) == 1 && Depth(raw) == 0 && Fits(raw) && RawLength(raw, 0) == 0x8000
    ensures Scan(Leaf(LongestExtent()), lb) == None
  {
    LongestBytes();
    EmptyExtentIsMissed(LongestExtent(), lb);
  }

  lemma LongestBytes()
    ensures var raw := LongestExtent();
      && |raw| == 24 && Le16(raw, 0) == MAGIC && Le16(raw, 2) == 1 && Le16(raw, 6) == 0
      && Le16(raw, 12) == 0 && Le16(raw, 14) == 0 && Le16(raw, 16) == 0x8000
  {
    var raw := LongestExtent();
    assert raw[0] == 0x0A && raw[1] == 0xF3 && raw[2] == 1 && raw[3] == 0 && raw[6] == 0 && raw[7] == 0;
    assert raw[12] == 0 && raw[13] == 0 && raw[14] == 0 && raw[15] == 0 && raw[16] == 0 && raw[17] == 0x80;
  }

  // A leaf whose only extent has length field 0x8000.
  lemma EmptyExtentIsMissed(raw: Node, lb: nat)
    requires |raw| == 24 && Entries(raw) == 1 && RawLength(raw, 0) == 0x8000 && Le32(raw, 12) == 0
    ensures Scan(Leaf(raw), lb) == None
  {
    var list := Leaf(raw);
    assert Visible(raw) == 1;
    assert |list| == 1 && list[0] == ExtentAt(raw, 0);
    assert list[0].len == 0 && list[0].block == 0;
    assert list[1..] == [];
  }

  // -- Whole trees ----------------------------------------------------------------------------

  predicate NonEmptyAt(list: seq<Extent>, i: nat) {
    i < |list| && list[i].len > 0
  }

  // Some extent below is not empty.
  ghost predicate NonEmpty(dev: Device, raw: Node, d: nat)
    requires dev.perBlock >= 1
    decreases d, 0
  {
    if d == 0 then exists i: nat :: NonEmptyAt(Leaf(raw), i)
    else exists i: nat :: NonEmptyBelow(dev, raw, d, i)
  }

  ghost predicate NonEmptyBelow(dev: Device, raw: Node, d: nat, i: nat)
    requires dev.perBlock >= 1 && d > 0
    decreases d - 1, 1
  {
    i < Visible(raw) && NonEmpty(dev, Load(dev, Descent, Child(raw, i)), d - 1)
  }

  // An entry beyond the 340th of a node leads to an extent that is not empty.
  ghost predicate Hides(dev: Device, raw: Node, d: nat)
    requires dev.perBlock >= 1
    decreases d, 0
  {
    if d == 0 then exists i: nat :: i >= Seen(raw) && NonEmptyAt(Leaf(raw), i)
    else exists i: nat :: HidesBelow(dev, raw, d, i)
  }

  ghost predicate HidesBelow(dev: Device, raw: Node, d: nat, i: nat)
    requires dev.perBlock >= 1 && d > 0
    decreases d - 1, 1
  {
    if i < Seen(raw) then Hides(dev, Load(dev, Descent, Child(raw, i)), d - 1) else NonEmptyBelow(dev, raw, d, i)
  }

  lemma {:induction false} PositionCovers(list: seq<Extent>, lb: nat)
    ensures var k := Position(list, lb);
      (k < |list| ==> Covers(list[k], lb)) && forall j :: 0 <= j < k ==> !Covers(list[j], lb)
  {
    if list != [] && !Covers(list[0], lb) {
      PositionCovers(list[1..], lb);
      var k := Position(list[1..], lb);
      forall j | 0 <= j < k + 1
        ensures !Covers(list[j], lb)
      {
        assert j > 0 ==> list[j] == list[1..][j - 1];
      }
    }
  }

  lemma ScannedIsNonEmpty(list: seq<Extent>, lo: nat, hi: nat, lb: nat)
    requires InOrder(list, lo, hi) && hi < U32 && Scan(list, lb).Some?
    ensures NonEmptyAt(list, Position(list, lb))
  {
    PositionFinds(list, lb);
    PositionCovers(list, lb);
    OrderBounds(list, lo, hi);
    assert list[Position(list, lb)] in list;
  }

  lemma ChildWellFormed(dev: Device, raw: Node, d: nat, lo: nat, hi: nat, i: nat)
    requires dev.perBlock >= 1 && WellFormed(dev, raw, d, lo, hi) && Nested(dev, Descent, raw, d)
    requires d > 0 && i < Visible(raw)
    ensures var child := Load(dev, Descent, Child(raw, i));
      WellFormed(dev, child, d - 1, Key(raw, i), EndKey(raw, i, hi)) && Nested(dev, Descent, child, d - 1)
    ensures EndKey(raw, i, hi) <= hi
  {
    KeysBelow(raw, i, lo, hi);
  }

  // What the descent finds lies in an extent that is not empty.
  lemma {:induction false} ResolvedIsNonEmpty(dev: Device, raw: Node, d: nat, lo: nat, hi: nat, lb: nat)
    requires dev.perBlock >= 1 && WellFormed(dev, raw, d, lo, hi) && hi < U32
    requires Nested(dev, Descent, raw, d) && Resolve(dev, raw, d, lb).Some?
    ensures NonEmpty(dev, raw, d)
    decreases d
  {
    if d == 0 {
      ScannedIsNonEmpty(Leaf(raw), lo, hi, lb);
    } else {
      var i := Pick(raw, 0, lb).value;
      KeysBelow(raw, i, lo, hi);
      ResolvedIsNonEmpty(dev, Load(dev, Descent, Child(raw, i)), d - 1, Key(raw, i), EndKey(raw, i, hi), lb);
      assert NonEmptyBelow(dev, raw, d, i);
    }
  }

  // What the descent alone finds is hidden.
  lemma {:induction false} UnreachedIsHidden(dev: Device, raw: Node, d: nat, lo: nat, hi: nat, lb: nat)
    requires dev.perBlock >= 1 && WellFormed(dev, raw, d, lo, hi) && hi < U32
    requires Nested(dev, Descent, raw, d) && Resolve(dev, raw, d, lb).Some? && !Reaches(dev, raw, d, lb)
    ensures Hides(dev, raw, d)
    decreases d
  {
    if d == 0 {
      ScannedIsNonEmpty(Leaf(raw), lo, hi, lb);
    } else {
      var i := Pick(raw, 0, lb).value;
      KeysBelow(raw, i, lo, hi);
      if i < Seen(raw) {
        UnreachedIsHidden(dev, Load(dev, Descent, Child(raw, i)), d - 1, Key(raw, i), EndKey(raw, i, hi), lb);
        assert HidesBelow(dev, raw, d, i);
      } else {
        UnseenIsHidden(dev, raw, d, lo, hi, lb, i);
      }
    }
  }

  lemma UnseenIsHidden(dev: Device, raw: Node, d: nat, lo: nat, hi: nat, lb: nat, i: nat)
    requires dev.perBlock >= 1 && WellFormed(dev, raw, d, lo, hi) && hi < U32 && d > 0
    requires Nested(dev, Descent, raw, d) && Resolve(dev, raw, d, lb).Some?
    requires Pick(raw, 0, lb) == Some(i) && i >= Seen(raw)
    ensures Hides(dev, raw, d)
  {
    KeysBelow(raw, i, lo, hi);
    ResolvedIsNonEmpty(dev, Load(dev, Descent, Child(raw, i)), d - 1, Key(raw, i), EndKey(raw, i, hi), lb);
    assert NonEmptyBelow(dev, raw, d, i);
    assert HidesBelow(dev, raw, d, i);
  }

  lemma {:induction false} OrderApart(list: seq<Extent>, lo: nat, hi: nat, i: nat, j: nat)
    requires InOrder(list, lo, hi) && i < j < |list|
    ensures list[i].block + list[i].len <= list[j].block
  {
    if i > 0 {
      OrderApart(list[1..], list[0].block + list[0].len, hi, i - 1, j - 1);
    } else {
      OrderBounds(list[1..], list[0].block + list[0].len, hi);
      assert list[j] == list[1..][j - 1];
    }
  }

  // The first block of an extent that is not empty is found in it.
  lemma FirstBlock(list: seq<Extent>, lo: nat, hi: nat, i: nat)
    requires InOrder(list, lo, hi) && hi < U32 && NonEmptyAt(list, i)
    ensures lo <= list[i].block < hi && Position(list, list[i].block) == i && Scan(list, list[i].block).Some?
  {
    OrderBounds(list, lo, hi);
    assert list[i] in list;
    var lb := list[i].block;
    PositionCovers(list, lb);
    PositionFinds(list, lb);
    var k := Position(list, lb);
    if k < i {
      assert list[k] in list;
      OrderApart(list, lo, hi, k, i);
    }
  }

  lemma {:induction false} KeysInOrder(raw: Node, lo: nat, hi: nat, i: nat, j: nat)
    requires IndexOk(raw, lo, hi) && i < j < Visible(raw)
    ensures EndKey(raw, i, hi) <= Key(raw, j)
    decreases j - i
  {
    if i + 1 < j {
      assert Key(raw, i + 1) <= EndKey(raw, i + 1, hi);
      KeysInOrder(raw, lo, hi, i + 1, j);
    }
  }

  lemma {:induction false} PickIs(raw: Node, lo: nat, hi: nat, i: nat, j: nat, lb: nat)
    requires IndexOk(raw, lo, hi) && j <= i < Visible(raw) == Entries(raw) && Key(raw, i) <= lb < EndKey(raw, i, hi)
    ensures Pick(raw, j, lb) == Some(i)
    decreases i - j
  {
    if j < i {
      KeysInOrder(raw, lo, hi, j, i);
      PickIs(raw, lo, hi, i, j + 1, lb);
    }
  }

  lemma KeysFrom(raw: Node, lo: nat, hi: nat, i: nat)
    requires IndexOk(raw, lo, hi) && i < Visible(raw)
    ensures lo <= Key(raw, i)
  {
    if i > 0 {
      assert Key(raw, 0) <= EndKey(raw, 0, hi);
      KeysInOrder(raw, lo, hi, 0, i);
    }
  }

  // A block in the range of entry `i` is looked for below it.
  lemma EntersChild(dev: Device, raw: Node, d: nat, lo: nat, hi: nat, i: nat, lb: nat)
    requires dev.perBlock >= 1 && WellFormed(dev, raw, d, lo, hi) && Nested(dev, Descent, raw, d)
    requires d > 0 && i < Visible(raw) && Key(raw, i) <= lb < EndKey(raw, i, hi)
    ensures var child := Load(dev, Descent, Child(raw, i));
      && Nested(dev, Descent, child, d - 1) && Resolve(dev, raw, d, lb) == Resolve(dev, child, d - 1, lb)
      && (Reaches(dev, raw, d, lb) <==> i < Seen(raw) && Reaches(dev, child, d - 1, lb))
    ensures lo <= lb < hi
  {
    PickIs(raw, lo, hi, i, 0, lb);
    KeysBelow(raw, i, lo, hi);
    KeysFrom(raw, lo, hi, i);
  }

  // Some block of an extent that is not empty is found by the descent.
  lemma {:induction false} NonEmptyResolves(dev: Device, raw: Node, d: nat, lo: nat, hi: nat) returns (lb: nat)
    requires dev.perBlock >= 1 && WellFormed(dev, raw, d, lo, hi) && hi < U32
    requires Nested(dev, Descent, raw, d) && NonEmpty(dev, raw, d)
    ensures lo <= lb < hi && Resolve(dev, raw, d, lb).Some?
    decreases d, 1
  {
    if d == 0 {
      var i: nat :| NonEmptyAt(Leaf(raw), i);
      FirstBlock(Leaf(raw), lo, hi, i);
      lb := Leaf(raw)[i].block;
    } else {
      var i: nat :| NonEmptyBelow(dev, raw, d, i);
      lb := NonEmptyEntry(dev, raw, d, lo, hi, i);
      EntersChild(dev, raw, d, lo, hi, i, lb);
    }
  }

  lemma {:induction false} NonEmptyEntry(dev: Device, raw: Node, d: nat, lo: nat, hi: nat, i: nat) returns (lb: nat)
    requires dev.perBlock >= 1 && WellFormed(dev, raw, d, lo, hi) && hi < U32
    requires Nested(dev, Descent, raw, d) && d > 0 && NonEmptyBelow(dev, raw, d, i)
    ensures Key(raw, i) <= lb < EndKey(raw, i, hi)
    ensures Resolve(dev, Load(dev, Descent, Child(raw, i)), d - 1, lb).Some?
    decreases d, 0
  {
    ChildWellFormed(dev, raw, d, lo, hi, i);
    lb := NonEmptyResolves(dev, Load(dev, Descent, Child(raw, i)), d - 1, Key(raw, i), EndKey(raw, i, hi));
  }

  // Some block of a hidden extent is found by the descent alone.
  lemma {:induction false} HiddenIsUnreached(dev: Device, raw: Node, d: nat, lo: nat, hi: nat) returns (lb: nat)
    requires dev.perBlock >= 1 && WellFormed(dev, raw, d, lo, hi) && hi < U32
    requires Nested(dev, Descent, raw, d) && Hides(dev, raw, d)
    ensures lo <= lb < hi && Resolve(dev, raw, d, lb).Some? && !Reaches(dev, raw, d, lb)
    decreases d, 1
  {
    if d == 0 {
      var i: nat :| i >= Seen(raw) && NonEmptyAt(Leaf(raw), i);
      FirstBlock(Leaf(raw), lo, hi, i);
      lb := Leaf(raw)[i].block;
    } else {
      var i: nat :| HidesBelow(dev, raw, d, i);
      if i < Seen(raw) {
        lb := HiddenEntry(dev, raw, d, lo, hi, i);
      } else {
        lb := NonEmptyEntry(dev, raw, d, lo, hi, i);
      }
      EntersChild(dev, raw, d, lo, hi, i, lb);
    }
  }

  lemma HiddenChild(dev: Device, raw: Node, d: nat, lo: nat, hi: nat, i: nat)
    requires dev.perBlock >= 1 && WellFormed(dev, raw, d, lo, hi) && hi < U32
    requires Nested(dev, Descent, raw, d) && d > 0 && i < Seen(raw) && HidesBelow(dev, raw, d, i)
    ensures var child := Load(dev, Descent, Child(raw, i));
      && WellFormed(dev, child, d - 1, Key(raw, i), EndKey(raw, i, hi)) && EndKey(raw, i, hi) <= hi
      && Nested(dev, Descent, child, d - 1) && Hides(dev, child, d - 1)
  {
    ChildWellFormed(dev, raw, d, lo, hi, i);
  }

  lemma {:induction false} HiddenEntry(dev: Device, raw: Node, d: nat, lo: nat, hi: nat, i: nat) returns (lb: nat)
    requires dev.perBlock >= 1 && WellFormed(dev, raw, d, lo, hi) && hi < U32
    requires Nested(dev, Descent, raw, d) && d > 0 && i < Seen(raw) && HidesBelow(dev, raw, d, i)
    ensures Key(raw, i) <= lb < EndKey(raw, i, hi)
    ensures var child := Load(dev, Descent, Child(raw, i));
      Nested(dev, Descent, child, d - 1) && Resolve(dev, child, d - 1, lb).Some? && !Reaches(dev, child, d - 1, lb)
    decreases d, 0
  {
    HiddenChild(dev, raw, d, lo, hi, i);
    lb := HiddenIsUnreached(dev, Load(dev, Descent, Child(raw, i)), d - 1, Key(raw, i), EndKey(raw, i, hi));
  }

  /** On a well-formed tree the two lookups agree for every logical block if and only if no entry
      beyond the 340th of a node leads to an extent that is not empty. */
  lemma AllLookupsAgreeIff(dev: Device, root: Node, d: nat, lo: nat, hi: nat)
    requires dev.perBlock >= 1 && WellFormed(dev, root, d, lo, hi) && |root| == 60 && hi < U32
    ensures Nested(dev, Descent, root, d) && Nested(dev, Listing, root, d) && Flatten(dev, root, d).Some?
    ensures (forall lb: nat :: Resolve(dev, root, d, lb) == Scan(Flatten(dev, root, d).value, lb))
       <==> !Hides(dev, root, d)
  {
    LookupsAgreeIff(dev, root, d, lo, hi, 0);
    if Hides(dev, root, d) {
      var lb := HiddenIsUnreached(dev, root, d, lo, hi);
      LookupsAgreeIff(dev, root, d, lo, hi, lb);
    } else {
      forall lb: nat
        ensures Resolve(dev, root, d, lb) == Scan(Flatten(dev, root, d).value, lb)
      {
        LookupsAgreeIff(dev, root, d, lo, hi, lb);
        if Resolve(dev, root, d, lb).Some? && !Reaches(dev, root, d, lb) {
          UnreachedIsHidden(dev, root, d, lo, hi, lb);
        }
      }
    }
  }
}
