/** Four-level page tables of kernel/src/mm/virt.rs: memory as a map from frame number to 512-entry
    table, and the operations as functions from memory to memory. An entry is split into its frame
    number (bits 51..12) and its flag bits. The tables may hold huge pages; the operations are for
    pages that do not lie in one. */
module PageTableModel {
  import opened Basics

  // The bits of an entry outside its frame number: those virt.rs tests or sets by name, and
  // the positions of any others that are 1.
  datatype Flags = Flags(present: bool, writable: bool, user: bool, huge: bool, cow: bool, other: set<nat>)

  datatype Pte = Pte(frame: nat, flags: Flags)

  type Tables = map<nat, seq<Pte>>

  const ENTRIES: nat := 512
  const TOP: nat := 3  // level of a PML4

  const NO_FLAGS := Flags(false, false, false, false, false, {})

  // The all-zero entry.
  const EMPTY := Pte(0, NO_FLAGS)

  // `supply` is what alloc_page will return next, in order, until memory runs out; `freed` is
  // what free_page was given; `refs` are the 16-bit reference counts.
  datatype Memory = Memory(tables: Tables, supply: seq<nat>, freed: seq<nat>, refs: seq<nat>)

  // index_for_addr on a virtual page number.
  function Digit(vpn: nat, level: nat): nat {
    if level == 0 then vpn % ENTRIES else Digit(vpn / ENTRIES, level - 1)
  }

  function Entry(tables: Tables, t: nat, i: nat): Pte {
    if t in tables && i < |tables[t]| then tables[t][i] else EMPTY
  }

  function Write(tables: Tables, t: nat, i: nat, e: Pte): Tables {
    if t in tables && i < |tables[t]| then tables[t := tables[t][i := e]] else tables
  }

  function Zeroed(): (t: seq<Pte>)
    ensures |t| == ENTRIES && forall i :: 0 <= i < ENTRIES ==> t[i] == EMPTY
  {
    seq(ENTRIES, _ => EMPTY)
  }

  predicate AllZero(t: seq<Pte>) {
    forall i :: 0 <= i < |t| ==> t[i] == EMPTY
  }

  // The entry, above the last level, points at a table.
  predicate Linked(e: Pte) {
    e.flags.present && !e.flags.huge
  }

  // -- map_page ------------------------------------------------------------

  // flags & ENTRY_FLAG_MASK: bits 0..11 and 63.
  function MaskFlags(f: Flags): Flags {
    f.(other := set b | b in f.other && (b < 12 || b == 63))
  }

  // The table that takes the place of a huge page: its entries keep the flags but are not present.
  // The mask in the source cuts the page's address to a multiple of 32 MB.
  function SplitOf(e: Pte): (t: seq<Pte>)
    ensures |t| == ENTRIES && forall i :: 0 <= i < ENTRIES ==> !t[i].flags.present && t[i].frame >= i
  {
    var flags := MaskFlags(e.flags).(present := false, huge := false);
    seq(ENTRIES, i requires 0 <= i => Pte(e.frame / 8192 * 8192 + i, flags))
  }

  // ensure_table: a missing table is made, a huge page split; None is the out-of-memory panic.
  function Ensure(m: Memory, t: nat, i: nat, flags: Flags): Option<Memory> {
    var e := Entry(m.tables, t, i);
    if Linked(e) then Some(m)
    else if m.supply == [] then None
    else
      var page := m.supply[0];
      var table := if e.flags.present then SplitOf(e) else Zeroed();
      Some(m.(tables := Write(m.tables[page := table], t, i, Pte(page, flags.(present := true))),
              supply := m.supply[1..]))
  }

  // entry | (flags & USER)
  function WithUser(e: Pte, flags: Flags): Pte {
    e.(flags := e.flags.(user := e.flags.user || flags.user))
  }

  // WRITABLE | (flags & USER)
  function TableFlags(flags: Flags): Flags {
    NO_FLAGS.(writable := true, user := flags.user)
  }

  function AddUser(m: Memory, t: nat, i: nat, flags: Flags): Memory {
    var e := Entry(m.tables, t, i);
    m.(tables := Write(m.tables, t, i, WithUser(e, flags)))
  }

  // Makes the path to the last-level table of `vpn` and returns that table.
  function Descend(m: Memory, t: nat, level: nat, vpn: nat, flags: Flags): Option<(Memory, nat)>
    decreases level
  {
    if level == 0 then Some((m, t)) else
    var d := Digit(vpn, level);
    match Ensure(m, t, d, TableFlags(flags))
    case None => None
    case Some(m1) => Descend(AddUser(m1, t, d, flags), Entry(m1.tables, t, d).frame, level - 1, vpn, flags)
  }

  // map_page, below a table `t` of any level.
  function MapInto(m: Memory, t: nat, level: nat, vpn: nat, frame: nat, flags: Flags): Option<Memory> {
    match Descend(m, t, level, vpn, flags)
    case None => None
    case Some((m1, pt)) => Some(m1.(tables := Write(m1.tables, pt, Digit(vpn, 0), Pte(frame, flags))))
  }

  // map_pages_from_phys: one page at a time.
  function MapEach(m: Memory, root: nat, top: nat, vpn: nat, frames: seq<nat>, flags: Flags): Option<Memory>
    decreases frames
  {
    if frames == [] then Some(m) else
    match MapInto(m, root, top, vpn, frames[0], flags)
    case None => None
    case Some(m1) => MapEach(m1, root, top, vpn + 1, frames[1..], flags)
  }

  // -- Well-formed address spaces -------------------------------------------

  // `lv` names the tables of an address space and their levels: tables have 512 entries and a
  // present entry above the last level maps a huge page or points one level down.
  ghost predicate Levelled(tables: Tables, lv: map<nat, nat>) {
    forall t :: t in lv ==>
      t in tables && |tables[t]| == ENTRIES && (lv[t] > 0 ==> PointsDown(tables[t], lv, lv[t] - 1))
  }

  ghost predicate PointsDown(table: seq<Pte>, lv: map<nat, nat>, level: nat)
    requires |table| == ENTRIES
  {
    forall i {:trigger Below(table[i], lv, level)} ::
      0 <= i < ENTRIES && Linked(table[i]) ==> Below(table[i], lv, level)
  }

  ghost predicate Below(e: Pte, lv: map<nat, nat>, level: nat) {
    !e.flags.huge && e.frame in lv && lv[e.frame] == level
  }

  // The path of `vpn` below `t` meets no huge page.
  predicate Open(tables: Tables, t: nat, level: nat, vpn: nat)
    decreases level
  {
    level == 0 ||
    var e := Entry(tables, t, Digit(vpn, level));
    !e.flags.present || (!e.flags.huge && Open(tables, e.frame, level - 1, vpn))
  }

  // Entry `i` of table `a`, above the last level, points at table `f`.
  ghost predicate Points(tables: Tables, lv: map<nat, nat>, a: nat, i: nat, f: nat) {
    a in lv && lv[a] > 0 && i < ENTRIES && Linked(Entry(tables, a, i)) && Entry(tables, a, i).frame == f
  }

  // No table of the space is reached through two entries.
  ghost predicate Unshared(tables: Tables, lv: map<nat, nat>) {
    forall a, i, b, j, f {:trigger Points(tables, lv, a, i, f), Points(tables, lv, b, j, f)} ::
      Points(tables, lv, a, i, f) && Points(tables, lv, b, j, f) ==> a == b && i == j
  }

  // Pages to come are distinct and are not page tables now.
  ghost predicate Fresh(m: Memory) {
    && (forall i :: 0 <= i < |m.supply| ==> m.supply[i] !in m.tables)
    && forall i, j :: 0 <= i < j < |m.supply| ==> m.supply[i] != m.supply[j]
  }

  // The path of `vpn` from `t` down to `pt` exists and needs no change for `flags`.
  predicate Path(tables: Tables, t: nat, level: nat, vpn: nat, flags: Flags, pt: nat)
    decreases level
  {
    if level == 0 then t == pt && t in tables && |tables[t]| == ENTRIES else
    var e := Entry(tables, t, Digit(vpn, level));
    Linked(e) && (flags.user ==> e.flags.user) && Path(tables, e.frame, level - 1, vpn, flags, pt)
  }

  lemma {:induction false} DigitBound(vpn: nat, level: nat)
    ensures Digit(vpn, level) < ENTRIES
  {
    if level > 0 {
      DigitBound(vpn / ENTRIES, level - 1);
    }
  }

  // -- Paths without huge pages -------------------------------------------------

  predicate SameLink(a: Pte, b: Pte) {
    a.frame == b.frame && a.flags.present == b.flags.present && a.flags.huge == b.flags.huge
  }

  // Entry `i` of table `x` is absent, links what it linked before, or links a new table.
  ghost predicate Grew(before: Tables, after: Tables, lv: map<nat, nat>, lv2: map<nat, nat>, x: nat, i: nat) {
    var e := Entry(after, x, i);
    || !e.flags.present || (x in lv && SameLink(Entry(before, x, i), e))
    || (!e.flags.huge && e.frame in lv2 && e.frame !in lv)
  }

  // From `before` to `after` an address space grew by the tables that `lv2` has beyond `lv`.
  ghost predicate Grown(before: Tables, after: Tables, lv: map<nat, nat>, lv2: map<nat, nat>) {
    Extends(lv, lv2) && forall x, i: nat {:trigger Grew(before, after, lv, lv2, x, i)} ::
      x in lv2 && lv2[x] > 0 && i < ENTRIES ==> Grew(before, after, lv, lv2, x, i)
  }

  /** Growth puts no huge page on a path. */
  lemma {:induction false} OpenGrown(
      before: Tables, after: Tables, lv: map<nat, nat>, lv2: map<nat, nat>, t: nat, level: nat, vpn: nat)
    requires Levelled(before, lv) && Levelled(after, lv2) && Grown(before, after, lv, lv2)
    requires t in lv2 && lv2[t] == level && (t in lv ==> Open(before, t, level, vpn))
    ensures Open(after, t, level, vpn)
    decreases level
  {
    if level > 0 {
      var d := Digit(vpn, level);
      DigitBound(vpn, level);
      assert Grew(before, after, lv, lv2, t, d);
      var e := after[t][d];
      if e.flags.present {
        if t in lv && SameLink(Entry(before, t, d), e) {
          assert Below(before[t][d], lv, level - 1);
        } else {
          assert Below(e, lv2, level - 1);
        }
        OpenGrown(before, after, lv, lv2, e.frame, level - 1, vpn);
      }
    }
  }

  // -- One level of Descend ---------------------------------------------------

  ghost predicate Extends(lv: map<nat, nat>, lv2: map<nat, nat>) {
    forall x :: x in lv ==> x in lv2 && lv2[x] == lv[x]
  }

  // Tables other than `t` are as before.
  ghost predicate SameBut(before: Tables, after: Tables, t: nat) {
    forall x :: x in before && x != t ==> x in after && after[x] == before[x]
  }

  lemma EnsureKeeps(m: Memory, t: nat, d: nat, flags: Flags, lv: map<nat, nat>) returns (lv2: map<nat, nat>)
    requires Levelled(m.tables, lv) && Fresh(m) && t in lv && lv[t] > 0 && d < ENTRIES
    requires Ensure(m, t, d, flags).Some? && !flags.huge
    requires m.tables[t][d].flags.present ==> !m.tables[t][d].flags.huge
    ensures var m1 := Ensure(m, t, d, flags).value;
            && Levelled(m1.tables, lv2) && Fresh(m1) && Extends(lv, lv2) && SameBut(m.tables, m1.tables, t)
            && m1.tables[t][d].flags.present && Below(m1.tables[t][d], lv2, lv[t] - 1)
            && (forall i :: 0 <= i < ENTRIES && i != d ==> m1.tables[t][i] == m.tables[t][i])
            && lv2 == if m.tables[t][d].flags.present then lv else lv[m.supply[0] := lv[t] - 1]
  {
    if m.tables[t][d].flags.present {
      lv2 := lv;
      assert Below(m.tables[t][d], lv, lv[t] - 1);
    } else {
      var page := m.supply[0];
      lv2 := lv[page := lv[t] - 1];
      NewTableKeeps(m.tables, page, lv, lv[t] - 1);
    }
  }

  // A zeroed page joins the space at any level.
  lemma NewTableKeeps(tables: Tables, page: nat, lv: map<nat, nat>, level: nat)
    requires Levelled(tables, lv) && page !in lv
    ensures Levelled(tables[page := Zeroed()], lv[page := level])
  {
    var lv2 := lv[page := level];
    forall x | x in lv && lv[x] > 0
      ensures PointsDown(tables[x], lv2, lv[x] - 1)
    {
      forall i | 0 <= i < ENTRIES && Linked(tables[x][i])
        ensures Below(tables[x][i], lv2, lv[x] - 1)
      {
        assert Below(tables[x][i], lv, lv[x] - 1);
      }
    }
  }

  lemma EnsureKeepsUnshared(m: Memory, t: nat, d: nat, flags: Flags, lv: map<nat, nat>, lv2: map<nat, nat>)
    requires Levelled(m.tables, lv) && Unshared(m.tables, lv) && Fresh(m) && t in lv && lv[t] > 0 && d < ENTRIES
    requires Ensure(m, t, d, flags).Some? && !m.tables[t][d].flags.present && !flags.huge
    requires lv2 == lv[m.supply[0] := lv[t] - 1]
    ensures Unshared(Ensure(m, t, d, flags).value.tables, lv2)
  {
    var m1 := Ensure(m, t, d, flags).value;
    var page := m.supply[0];
    assert m1.tables[page] == Zeroed();
    forall a: nat, i: nat, f: nat | Points(m1.tables, lv2, a, i, f)
      ensures if a == t && i == d then f == page else f != page && Points(m.tables, lv, a, i, f)
    {
      if !(a == t && i == d) {
        assert Points(m.tables, lv, a, i, f);
        assert Below(m.tables[a][i], lv, lv[a] - 1);
      }
    }
  }

  lemma AddUserKeeps(m: Memory, t: nat, d: nat, flags: Flags, lv: map<nat, nat>)
    requires Levelled(m.tables, lv) && t in lv && d < ENTRIES && lv[t] > 0
    requires m.tables[t][d].flags.present && Below(m.tables[t][d], lv, lv[t] - 1)
    ensures var m2 := AddUser(m, t, d, flags);
            && Levelled(m2.tables, lv) && SameBut(m.tables, m2.tables, t) && m2.tables.Keys == m.tables.Keys
            && m2.tables[t] == m.tables[t][d := WithUser(m.tables[t][d], flags)]
            && (Unshared(m.tables, lv) ==> Unshared(m2.tables, lv))
  {
    var m2 := AddUser(m, t, d, flags);
    assert forall a: nat, i: nat, f: nat :: Points(m2.tables, lv, a, i, f) ==> Points(m.tables, lv, a, i, f);
  }

  // What one level of Descend leaves behind.
  ghost predicate Stepped(m: Memory, t: nat, level: nat, vpn: nat, flags: Flags, m2: Memory, lv2: map<nat, nat>)
    requires level > 0
  {
    var d := Digit(vpn, level);
    && d < ENTRIES && t in m.tables && |m.tables[t]| == ENTRIES
    && Levelled(m2.tables, lv2) && Fresh(m2) && SameBut(m.tables, m2.tables, t)
    && t in lv2 && lv2[t] == level
    && m2.tables[t][d].flags.present && (flags.user ==> m2.tables[t][d].flags.user)
    && Below(m2.tables[t][d], lv2, level - 1)
    && (forall i :: 0 <= i < ENTRIES && i != d ==> m2.tables[t][i] == m.tables[t][i])
    && m2.freed == m.freed && m2.refs == m.refs
    && (if m.tables[t][d].flags.present
        then && m2.supply == m.supply && m2.tables[t][d] == WithUser(m.tables[t][d], flags)
             && m2.tables.Keys == m.tables.Keys
        else && m.supply != [] && m2.supply == m.supply[1..] && m2.tables[t][d].frame == m.supply[0]
             && m2.tables.Keys == m.tables.Keys + {m.supply[0]} && m2.tables[m.supply[0]] == Zeroed())
  }

  lemma StepInto(m: Memory, t: nat, level: nat, vpn: nat, flags: Flags, lv: map<nat, nat>)
    returns (m2: Memory, child: nat, lv2: map<nat, nat>)
    requires Levelled(m.tables, lv) && Fresh(m) && t in lv && lv[t] == level > 0
    requires Open(m.tables, t, level, vpn) && Descend(m, t, level, vpn, flags).Some?
    ensures Stepped(m, t, level, vpn, flags, m2, lv2) && child == m2.tables[t][Digit(vpn, level)].frame
    ensures Extends(lv, lv2) && (Unshared(m.tables, lv) ==> Unshared(m2.tables, lv2))
    ensures child in lv || (m.supply != [] && child == m.supply[0])
    ensures StepLinks(m, m2, t, Digit(vpn, level), lv, lv2)
    ensures Descend(m, t, level, vpn, flags) == Descend(m2, child, level - 1, vpn, flags)
  {
    var d := Digit(vpn, level);
    DigitBound(vpn, level);
    var m1 := Ensure(m, t, d, TableFlags(flags)).value;
    lv2 := EnsureKeeps(m, t, d, TableFlags(flags), lv);
    if Unshared(m.tables, lv) && !m.tables[t][d].flags.present {
      EnsureKeepsUnshared(m, t, d, TableFlags(flags), lv, lv2);
    }
    AddUserKeeps(m1, t, d, flags, lv2);
    m2 := AddUser(m1, t, d, flags);
    child := m1.tables[t][d].frame;
    assert Entry(m.tables, t, d) == m.tables[t][d] && Entry(m1.tables, t, d) == m1.tables[t][d];
  }

  lemma StepDown(m: Memory, t: nat, level: nat, vpn: nat, flags: Flags, lv: map<nat, nat>)
    returns (m2: Memory, child: nat, lv2: map<nat, nat>)
    requires Levelled(m.tables, lv) && Fresh(m) && t in lv && lv[t] == level > 0
    requires Open(m.tables, t, level, vpn) && Descend(m, t, level, vpn, flags).Some?
    ensures Stepped(m, t, level, vpn, flags, m2, lv2) && child == m2.tables[t][Digit(vpn, level)].frame
    ensures Extends(lv, lv2) && (Unshared(m.tables, lv) ==> Unshared(m2.tables, lv2))
    ensures child in lv || (m.supply != [] && child == m.supply[0])
    ensures Grown(m.tables, m2.tables, lv, lv2) && Open(m2.tables, child, level - 1, vpn)
    ensures Descend(m, t, level, vpn, flags) == Descend(m2, child, level - 1, vpn, flags)
  {
    m2, child, lv2 := StepInto(m, t, level, vpn, flags, lv);
    StepOpens(m, m2, t, level, vpn, lv, lv2);
  }

  lemma StepOpens(m: Memory, m2: Memory, t: nat, level: nat, vpn: nat, lv: map<nat, nat>, lv2: map<nat, nat>)
    requires Levelled(m.tables, lv) && Fresh(m) && t in lv && lv[t] == level > 0 && Open(m.tables, t, level, vpn)
    requires Levelled(m2.tables, lv2) && Extends(lv, lv2) && SameBut(m.tables, m2.tables, t)
    requires StepLinks(m, m2, t, Digit(vpn, level), lv, lv2)
    ensures Grown(m.tables, m2.tables, lv, lv2)
    ensures Open(m2.tables, m2.tables[t][Digit(vpn, level)].frame, level - 1, vpn)
  {
    var d := Digit(vpn, level);
    StepGrows(m, m2, t, d, lv, lv2);
    if m.tables[t][d].flags.present {
      assert Below(m.tables[t][d], lv, level - 1);
    }
    OpenGrown(m.tables, m2.tables, lv, lv2, m2.tables[t][d].frame, level - 1, vpn);
  }

  // The entries of `t` after one level of Descend.
  ghost predicate StepLinks(m: Memory, m2: Memory, t: nat, d: nat, lv: map<nat, nat>, lv2: map<nat, nat>) {
    && t in lv && lv[t] > 0 && d < ENTRIES && t in m.tables && |m.tables[t]| == ENTRIES
    && t in m2.tables && |m2.tables[t]| == ENTRIES
    && (forall i :: 0 <= i < ENTRIES && i != d ==> m2.tables[t][i] == m.tables[t][i])
    && if m.tables[t][d].flags.present then lv2 == lv && SameLink(m.tables[t][d], m2.tables[t][d])
       else && m.supply != [] && lv2 == lv[m.supply[0] := lv[t] - 1]
            && m.supply[0] in m2.tables && m2.tables[m.supply[0]] == Zeroed()
            && m2.tables[t][d].frame == m.supply[0] && !m2.tables[t][d].flags.huge
  }

  // What one level of Descend does to the tables is growth.
  lemma StepGrows(m: Memory, m2: Memory, t: nat, d: nat, lv: map<nat, nat>, lv2: map<nat, nat>)
    requires Levelled(m.tables, lv) && Fresh(m) && Levelled(m2.tables, lv2) && Extends(lv, lv2)
    requires SameBut(m.tables, m2.tables, t) && StepLinks(m, m2, t, d, lv, lv2)
    ensures Grown(m.tables, m2.tables, lv, lv2)
  {
    forall x, i: nat | x in lv2 && lv2[x] > 0 && i < ENTRIES
      ensures Grew(m.tables, m2.tables, lv, lv2, x, i)
    {
      if x in lv {
        assert x != t ==> m2.tables[x] == m.tables[x];
      }
    }
  }

  // -- The path, once made, stays ------------------------------------------------

  lemma {:induction false} PathIsFixed(m: Memory, t: nat, level: nat, vpn: nat, flags: Flags, pt: nat)
    requires Path(m.tables, t, level, vpn, flags, pt)
    ensures Descend(m, t, level, vpn, flags) == Some((m, pt))
    decreases level
  {
    if level > 0 {
      var d := Digit(vpn, level);
      var e := Entry(m.tables, t, d);
      assert WithUser(e, flags) == e;
      assert m.tables[t][d := e] == m.tables[t];
      assert m.tables[t := m.tables[t]] == m.tables;
      PathIsFixed(m, e.frame, level - 1, vpn, flags, pt);
    }
  }

  // Tables above the level being worked on, and siblings on it, are untouched.
  ghost predicate HighTablesSame(before: Tables, after: Tables, lv: map<nat, nat>, t: nat, level: nat) {
    forall x :: x in lv && x != t && lv[x] >= level ==> x in before && x in after && after[x] == before[x]
  }

  // The space `m2` of levels `lv2` is the space `m` of levels `lv` with the path of `vpn` made.
  ghost predicate PathMade(
      m: Memory, t: nat, level: nat, vpn: nat, flags: Flags, lv: map<nat, nat>, m2: Memory, pt: nat, lv2: map<nat, nat>)
  {
    && Path(m2.tables, t, level, vpn, flags, pt)
    && Levelled(m2.tables, lv2) && Fresh(m2) && Extends(lv, lv2) && pt in lv2 && lv2[pt] == 0
    && HighTablesSame(m.tables, m2.tables, lv, t, level)
    && (Unshared(m.tables, lv) ==> Unshared(m2.tables, lv2))
  }

  lemma PathMadeAbove(
      m: Memory, t: nat, level: nat, vpn: nat, flags: Flags, lv: map<nat, nat>,
      m1: Memory, child: nat, lv1: map<nat, nat>, m2: Memory, pt: nat, lv2: map<nat, nat>)
    requires Levelled(m.tables, lv) && t in lv && lv[t] == level > 0 && Extends(lv, lv1)
    requires Stepped(m, t, level, vpn, flags, m1, lv1) && child == m1.tables[t][Digit(vpn, level)].frame
    requires Unshared(m.tables, lv) ==> Unshared(m1.tables, lv1)
    requires PathMade(m1, child, level - 1, vpn, flags, lv1, m2, pt, lv2)
    ensures PathMade(m, t, level, vpn, flags, lv, m2, pt, lv2)
  {
    assert m2.tables[t] == m1.tables[t];
  }

  lemma {:induction false} DescendMakesPath(m: Memory, t: nat, level: nat, vpn: nat, flags: Flags, lv: map<nat, nat>)
    returns (lv2: map<nat, nat>)
    requires Levelled(m.tables, lv) && Fresh(m) && t in lv && lv[t] == level
    requires Open(m.tables, t, level, vpn) && Descend(m, t, level, vpn, flags).Some?
    ensures var (m2, pt) := Descend(m, t, level, vpn, flags).value; PathMade(m, t, level, vpn, flags, lv, m2, pt, lv2)
    decreases level
  {
    if level == 0 {
      lv2 := lv;
    } else {
      var m1, child, lv1 := StepDown(m, t, level, vpn, flags, lv);
      lv2 := DescendMakesPath(m1, child, level - 1, vpn, flags, lv1);
      var (m2, pt) := Descend(m, t, level, vpn, flags).value;
      PathMadeAbove(m, t, level, vpn, flags, lv, m1, child, lv1, m2, pt, lv2);
    }
  }

  // A path survives writes to its last table, and serves every page of that table.
  lemma {:induction false} PathAfterLeaf(tables: Tables, t: nat, level: nat, vpn: nat, next: nat, flags: Flags, pt: nat,
                                         i: nat, e: Pte, lv: map<nat, nat>)
    requires Levelled(tables, lv) && t in lv && lv[t] == level && pt in lv && lv[pt] == 0
    requires Path(tables, t, level, vpn, flags, pt) && next / ENTRIES == vpn / ENTRIES
    ensures Path(Write(tables, pt, i, e), t, level, next, flags, pt)
    decreases level
  {
    if level > 0 {
      DigitBound(vpn, level);
      assert Digit(vpn, level) == Digit(next, level);
      var child := tables[t][Digit(vpn, level)];
      assert Below(child, lv, level - 1);
      PathAfterLeaf(tables, child.frame, level - 1, vpn, next, flags, pt, i, e, lv);
    }
  }

  // -- Batches ---------------------------------------------------------------------

  // Entries written by the inner loop of map_contiguous.
  function WriteRun(tables: Tables, pt: nat, i: nat, frames: seq<nat>, flags: Flags): Tables
    decreases frames
  {
    if frames == [] then tables
    else WriteRun(Write(tables, pt, i, Pte(frames[0], flags)), pt, i + 1, frames[1..], flags)
  }

  // Within one last-level table, mapping page by page is writing a run of entries.
  lemma {:induction false} RunIsEach(
      m: Memory, root: nat, top: nat, vpn: nat, frames: seq<nat>, flags: Flags, pt: nat, lv: map<nat, nat>)
    requires Levelled(m.tables, lv) && root in lv && lv[root] == top && pt in lv && lv[pt] == 0
    requires Path(m.tables, root, top, vpn, flags, pt) && |frames| <= ENTRIES - vpn % ENTRIES
    ensures MapEach(m, root, top, vpn, frames, flags)
         == Some(m.(tables := WriteRun(m.tables, pt, vpn % ENTRIES, frames, flags)))
    decreases frames
  {
    if frames != [] {
      var i, e := vpn % ENTRIES, Pte(frames[0], flags);
      PathIsFixed(m, root, top, vpn, flags, pt);
      var m1 := m.(tables := Write(m.tables, pt, i, e));
      assert MapInto(m, root, top, vpn, frames[0], flags) == Some(m1);
      if |frames| > 1 {
        PathAfterLeaf(m.tables, root, top, vpn, vpn + 1, flags, pt, i, e, lv);
        RunIsEach(m1, root, top, vpn + 1, frames[1..], flags, pt, lv);
      } else {
        assert frames[1..] == [];
      }
    }
  }

  // The body of map_contiguous: one descent, then a run of entries.
  function MapBatch(m: Memory, root: nat, top: nat, vpn: nat, frames: seq<nat>, flags: Flags): Option<Memory> {
    match Descend(m, root, top, vpn, flags)
    case None => None
    case Some((m1, pt)) => Some(m1.(tables := WriteRun(m1.tables, pt, vpn % ENTRIES, frames, flags)))
  }

  lemma OpenBatchIsEach(m: Memory, root: nat, top: nat, vpn: nat, frames: seq<nat>, flags: Flags, lv: map<nat, nat>)
    requires Levelled(m.tables, lv) && Fresh(m) && root in lv && lv[root] == top && Open(m.tables, root, top, vpn)
    requires 0 < |frames| <= ENTRIES - vpn % ENTRIES
    ensures MapBatch(m, root, top, vpn, frames, flags) == MapEach(m, root, top, vpn, frames, flags)
  {
    if Descend(m, root, top, vpn, flags).Some? {
      var (m1, pt) := Descend(m, root, top, vpn, flags).value;
      var lv1 := DescendMakesPath(m, root, top, vpn, flags, lv);
      PathIsFixed(m1, root, top, vpn, flags, pt);
      RunIsEach(m1, root, top, vpn, frames, flags, pt, lv1);
      assert MapInto(m, root, top, vpn, frames[0], flags) == MapInto(m1, root, top, vpn, frames[0], flags);
    }
  }

  lemma {:induction false} MapEachSplits(
      m: Memory, root: nat, top: nat, vpn: nat, a: seq<nat>, b: seq<nat>, flags: Flags)
    ensures MapEach(m, root, top, vpn, a + b, flags) ==
            match MapEach(m, root, top, vpn, a, flags)
            case None => None
            case Some(m1) => MapEach(m1, root, top, vpn + |a|, b, flags)
    decreases a
  {
    if a == [] {
      assert a + b == b;
    } else {
      assert (a + b)[1..] == a[1..] + b;
      match MapInto(m, root, top, vpn, a[0], flags)
      case None =>
      case Some(m1) => MapEachSplits(m1, root, top, vpn + 1, a[1..], b, flags);
    }
  }
}
