/** What mapping and unmapping do to translations (kernel/src/mm/virt.rs): each changes the
    view of one page only, unmapping leaves no empty table behind, and the two undo each other. */
module PageTableViews {
  import opened Basics
  import opened PageTableModel

  // The entry that decides about `vpn`: its last-level entry, or that of the huge page it lies in, or
  // None if the path to it is missing. Outside huge pages it is what read_pte returns.
  function Walk(tables: Tables, t: nat, level: nat, vpn: nat): Option<Pte>
    decreases level
  {
    var e := Entry(tables, t, Digit(vpn, level));
    if level == 0 then Some(e)
    else if !e.flags.present then None
    else if e.flags.huge then Some(e)
    else Walk(tables, e.frame, level - 1, vpn)
  }

  // Every table on the path of `vpn` is there.
  predicate Full(tables: Tables, t: nat, level: nat, vpn: nat)
    decreases level
  {
    level == 0 ||
    var e := Entry(tables, t, Digit(vpn, level));
    Linked(e) && Full(tables, e.frame, level - 1, vpn)
  }

  lemma {:induction false} OpenPath(tables: Tables, t: nat, level: nat, vpn: nat)
    requires Open(tables, t, level, vpn)
    ensures Full(tables, t, level, vpn) <==> Walk(tables, t, level, vpn).Some?
    decreases level
  {
    if level > 0 {
      var e := Entry(tables, t, Digit(vpn, level));
      if e.flags.present {
        OpenPath(tables, e.frame, level - 1, vpn);
      }
    }
  }

  // What `vpn` maps to, if anything.
  function View(tables: Tables, t: nat, level: nat, vpn: nat): Option<Pte> {
    match Walk(tables, t, level, vpn)
    case None => None
    case Some(e) => if e.flags.present then Some(e) else None
  }

  // The frame of the page, or of the huge page it lies in.
  function Translate(tables: Tables, root: nat, vpn: nat): Option<nat> {
    match View(tables, root, TOP, vpn)
    case None => None
    case Some(e) => Some(e.frame)
  }

  // The two page numbers part ways at `level` or below.
  predicate Differ(a: nat, b: nat, level: nat) {
    Digit(a, level) != Digit(b, level) || (level > 0 && Differ(a, b, level - 1))
  }

  function Span(level: nat): nat {
    if level == 0 then ENTRIES else ENTRIES * Span(level - 1)
  }

  // Different pages of the address range below a table differ in some index.
  lemma {:induction false} PagesDiffer(a: nat, b: nat, level: nat)
    requires a < Span(level) && b < Span(level) && a != b
    ensures Differ(a, b, level)
  {
    if level > 0 {
      if a / ENTRIES == b / ENTRIES {
        assert a % ENTRIES != b % ENTRIES;
        LowDigitDiffers(a, b, level);
      } else {
        PagesDiffer(a / ENTRIES, b / ENTRIES, level - 1);
        DifferShifts(a, b, level - 1);
      }
    }
  }

  lemma {:induction false} LowDigitDiffers(a: nat, b: nat, level: nat)
    requires a % ENTRIES != b % ENTRIES
    ensures Differ(a, b, level)
  {
    if level > 0 {
      LowDigitDiffers(a, b, level - 1);
    }
  }

  lemma {:induction false} DifferShifts(a: nat, b: nat, level: nat)
    requires Differ(a / ENTRIES, b / ENTRIES, level)
    ensures Differ(a, b, level + 1)
  {
    if level > 0 && Digit(a / ENTRIES, level) == Digit(b / ENTRIES, level) {
      DifferShifts(a, b, level - 1);
    }
  }

  // A walk reads only tables of its level and below.
  lemma {:induction false} WalkFrame(before: Tables, after: Tables, t: nat, level: nat, vpn: nat, lv: map<nat, nat>)
    requires Levelled(before, lv) && t in lv && lv[t] == level
    requires forall x :: x in lv && lv[x] <= level ==> x in after && after[x] == before[x]
    ensures Walk(after, t, level, vpn) == Walk(before, t, level, vpn)
    decreases level
  {
    DigitBound(vpn, level);
    if level > 0 {
      var e := before[t][Digit(vpn, level)];
      if Linked(e) {
        assert Below(e, lv, level - 1);
        WalkFrame(before, after, e.frame, level - 1, vpn, lv);
      }
    }
  }

  // A zeroed table shows nothing.
  lemma ZeroedShowsNothing(tables: Tables, t: nat, level: nat, vpn: nat)
    requires t in tables && tables[t] == Zeroed()
    ensures View(tables, t, level, vpn).None?
  {
    DigitBound(vpn, level);
  }

  // -- Mapping ----------------------------------------------------------------

  lemma MapStep(m: Memory, t: nat, level: nat, vpn: nat, frame: nat, flags: Flags, lv: map<nat, nat>)
    returns (m1: Memory, child: nat, lv1: map<nat, nat>)
    requires Levelled(m.tables, lv) && Unshared(m.tables, lv) && Fresh(m) && t in lv && lv[t] == level > 0
    requires Open(m.tables, t, level, vpn) && MapInto(m, t, level, vpn, frame, flags).Some?
    ensures Stepped(m, t, level, vpn, flags, m1, lv1) && child == m1.tables[t][Digit(vpn, level)].frame
    ensures MapInto(m, t, level, vpn, frame, flags) == MapInto(m1, child, level - 1, vpn, frame, flags)
    ensures Extends(lv, lv1) && Unshared(m1.tables, lv1) && child in lv1 && lv1[child] == level - 1
    ensures Open(m1.tables, child, level - 1, vpn)
    ensures var after := MapInto(m, t, level, vpn, frame, flags).value.tables;
            t in after && after[t] == m1.tables[t]
  {
    m1, child, lv1 := StepDown(m, t, level, vpn, flags, lv);
    var lv2 := MapIntoKeeps(m1, child, level - 1, vpn, frame, flags, lv1);
  }

  lemma LastLevelWriteKeepsUnshared(tables: Tables, pt: nat, d: nat, e: Pte, lv: map<nat, nat>)
    requires pt in lv && lv[pt] == 0
    ensures Unshared(tables, lv) ==> Unshared(Write(tables, pt, d, e), lv)
  {
    assert forall a: nat, i: nat, f: nat ::
      Points(Write(tables, pt, d, e), lv, a, i, f) ==> Points(tables, lv, a, i, f);
  }

  // Mapping touches, among the tables at or above the level of `t`, only `t`.
  lemma MapIntoKeeps(m: Memory, t: nat, level: nat, vpn: nat, frame: nat, flags: Flags, lv: map<nat, nat>)
    returns (lv2: map<nat, nat>)
    requires Levelled(m.tables, lv) && Fresh(m) && t in lv && lv[t] == level
    requires Open(m.tables, t, level, vpn) && MapInto(m, t, level, vpn, frame, flags).Some?
    ensures var m2 := MapInto(m, t, level, vpn, frame, flags).value;
            && Levelled(m2.tables, lv2) && Fresh(m2) && Extends(lv, lv2)
            && HighTablesSame(m.tables, m2.tables, lv, t, level)
            && (Unshared(m.tables, lv) ==> Unshared(m2.tables, lv2))
  {
    lv2 := DescendMakesPath(m, t, level, vpn, flags, lv);
    var (m1, pt) := Descend(m, t, level, vpn, flags).value;
    DigitBound(vpn, 0);
    LastLevelWriteKeepsUnshared(m1.tables, pt, Digit(vpn, 0), Pte(frame, flags), lv2);
    if level == 0 {
      assert pt == t;
    }
  }

  // Below another table of the same level nothing changes.
  lemma {:induction false} MapElsewhere(m: Memory, t: nat, b: nat, level: nat, vpn: nat, frame: nat, flags: Flags,
                                        other: nat, lv: map<nat, nat>)
    requires Levelled(m.tables, lv) && Unshared(m.tables, lv) && Fresh(m)
    requires t in lv && lv[t] == level && b in lv && lv[b] == level && b != t
    requires Open(m.tables, t, level, vpn) && MapInto(m, t, level, vpn, frame, flags).Some?
    ensures Walk(MapInto(m, t, level, vpn, frame, flags).value.tables, b, level, other)
         == Walk(m.tables, b, level, other)
    decreases level
  {
    var m2 := MapInto(m, t, level, vpn, frame, flags).value;
    var lv2 := MapIntoKeeps(m, t, level, vpn, frame, flags, lv);
    DigitBound(other, level);
    var e := m.tables[b][Digit(other, level)];
    if level > 0 && Linked(e) {
      assert Below(e, lv, level - 1);
      var m1, child, lv1 := MapStep(m, t, level, vpn, frame, flags, lv);
      assert m1.tables[b] == m.tables[b];
      assert Points(m1.tables, lv1, b, Digit(other, level), e.frame);
      assert Points(m1.tables, lv1, t, Digit(vpn, level), child);
      MapElsewhere(m1, child, e.frame, level - 1, vpn, frame, flags, other, lv1);
      WalkFrame(m.tables, m1.tables, e.frame, level - 1, other, lv);
    }
  }

  // Mapping sets the entry of its page.
  lemma {:induction false} MapSetsEntry(
      m: Memory, t: nat, level: nat, vpn: nat, frame: nat, flags: Flags, lv: map<nat, nat>)
    requires Levelled(m.tables, lv) && Unshared(m.tables, lv) && Fresh(m) && t in lv && lv[t] == level
    requires Open(m.tables, t, level, vpn) && MapInto(m, t, level, vpn, frame, flags).Some?
    ensures Walk(MapInto(m, t, level, vpn, frame, flags).value.tables, t, level, vpn) == Some(Pte(frame, flags))
    ensures Full(MapInto(m, t, level, vpn, frame, flags).value.tables, t, level, vpn)
    decreases level
  {
    DigitBound(vpn, level);
    if level > 0 {
      var m1, child, lv1 := MapStep(m, t, level, vpn, frame, flags, lv);
      MapSetsEntry(m1, child, level - 1, vpn, frame, flags, lv1);
    }
  }

  // Making one table of the path shows nothing new.
  lemma SteppedView(tables: Tables, after: Tables, t: nat, child: nat, level: nat, other: nat, lv: map<nat, nat>)
    requires Levelled(tables, lv) && t in lv && lv[t] == level > 0
    requires var e := Entry(tables, t, Digit(other, level));
             if e.flags.present then !e.flags.huge && child == e.frame else child in after && after[child] == Zeroed()
    requires SameBut(tables, after, t)
    ensures View(after, child, level - 1, other) == View(tables, t, level, other)
  {
    var e := Entry(tables, t, Digit(other, level));
    DigitBound(other, level);
    if e.flags.present {
      assert Below(tables[t][Digit(other, level)], lv, level - 1);
      WalkFrame(tables, after, e.frame, level - 1, other, lv);
    } else {
      ZeroedShowsNothing(after, child, level - 1, other);
    }
  }

  // Mapping leaves every other view alone.
  lemma {:induction false} MapKeepsOthers(m: Memory, t: nat, level: nat, vpn: nat, frame: nat, flags: Flags,
                                          other: nat, lv: map<nat, nat>)
    requires Levelled(m.tables, lv) && Unshared(m.tables, lv) && Fresh(m) && t in lv && lv[t] == level
    requires Open(m.tables, t, level, vpn) && MapInto(m, t, level, vpn, frame, flags).Some? && Differ(vpn, other, level)
    ensures View(MapInto(m, t, level, vpn, frame, flags).value.tables, t, level, other)
         == View(m.tables, t, level, other)
    decreases level
  {
    DigitBound(vpn, level);
    DigitBound(other, level);
    if level > 0 {
      var m1, child, lv1 := MapStep(m, t, level, vpn, frame, flags, lv);
      var d := Digit(other, level);
      if d == Digit(vpn, level) {
        MapKeepsOthers(m1, child, level - 1, vpn, frame, flags, other, lv1);
        SteppedView(m.tables, m1.tables, t, child, level, other, lv);
      } else {
        MapKeepsBeside(m, t, level, vpn, frame, flags, other, lv);
      }
    }
  }

  // A walk from a table one level below `t` does not see `t` change.
  lemma StepWalk(tables: Tables, after: Tables, t: nat, b: nat, level: nat, other: nat, lv: map<nat, nat>)
    requires Levelled(tables, lv) && SameBut(tables, after, t) && level > 0
    requires t in lv && lv[t] == level && b in lv && lv[b] == level - 1
    ensures Walk(after, b, level - 1, other) == Walk(tables, b, level - 1, other)
  {
    WalkFrame(tables, after, b, level - 1, other, lv);
  }

  // Below an entry of `t` that is not on the path nothing changes.
  lemma BesideWalk(m: Memory, t: nat, level: nat, vpn: nat, frame: nat, flags: Flags, other: nat, lv: map<nat, nat>)
    requires Levelled(m.tables, lv) && Unshared(m.tables, lv) && Fresh(m) && t in lv && lv[t] == level && level > 0
    requires Open(m.tables, t, level, vpn) && MapInto(m, t, level, vpn, frame, flags).Some?
    requires Digit(other, level) != Digit(vpn, level) && Linked(Entry(m.tables, t, Digit(other, level)))
    ensures var b := Entry(m.tables, t, Digit(other, level)).frame;
            Walk(MapInto(m, t, level, vpn, frame, flags).value.tables, b, level - 1, other)
            == Walk(m.tables, b, level - 1, other)
  {
    DigitBound(other, level);
    var d := Digit(other, level);
    var b := m.tables[t][d].frame;
    assert Below(m.tables[t][d], lv, level - 1);
    var m1, child, lv1 := MapStep(m, t, level, vpn, frame, flags, lv);
    StepWalk(m.tables, m1.tables, t, b, level, other, lv);
    BesideIsOther(m1.tables, lv1, t, d, Digit(vpn, level), b, child);
    MapElsewhere(m1, child, b, level - 1, vpn, frame, flags, other, lv1);
  }

  lemma BesideIsOther(tables: Tables, lv: map<nat, nat>, t: nat, i: nat, j: nat, a: nat, b: nat)
    requires Unshared(tables, lv) && Points(tables, lv, t, i, a) && Points(tables, lv, t, j, b) && i != j
    ensures a != b
  {
  }

  // The entry of `t` for a page that leaves the path there.
  lemma BesideEntry(m: Memory, t: nat, level: nat, vpn: nat, frame: nat, flags: Flags, d: nat, lv: map<nat, nat>)
    requires Levelled(m.tables, lv) && Unshared(m.tables, lv) && Fresh(m) && t in lv && lv[t] == level && level > 0
    requires Open(m.tables, t, level, vpn) && MapInto(m, t, level, vpn, frame, flags).Some?
    requires Digit(vpn, level) != d < ENTRIES
    ensures Entry(MapInto(m, t, level, vpn, frame, flags).value.tables, t, d) == Entry(m.tables, t, d)
  {
    var m1, child, lv1 := MapStep(m, t, level, vpn, frame, flags, lv);
  }

  // A page that leaves the path at this table.
  lemma MapKeepsBeside(m: Memory, t: nat, level: nat, vpn: nat, frame: nat, flags: Flags, other: nat, lv: map<nat, nat>)
    requires Levelled(m.tables, lv) && Unshared(m.tables, lv) && Fresh(m) && t in lv && lv[t] == level && level > 0
    requires Open(m.tables, t, level, vpn) && MapInto(m, t, level, vpn, frame, flags).Some?
    requires Digit(other, level) != Digit(vpn, level)
    ensures View(MapInto(m, t, level, vpn, frame, flags).value.tables, t, level, other)
         == View(m.tables, t, level, other)
  {
    DigitBound(other, level);
    BesideEntry(m, t, level, vpn, frame, flags, Digit(other, level), lv);
    if Linked(Entry(m.tables, t, Digit(other, level))) {
      BesideWalk(m, t, level, vpn, frame, flags, other, lv);
    }
  }

  // -- Unmapping ----------------------------------------------------------------

  // Clears the entry of `vpn` below `t` and frees each table on the way back up that is left
  // all zero; `t` itself stays.
  function Clear(m: Memory, t: nat, level: nat, vpn: nat): Memory
    decreases level
  {
    var d := Digit(vpn, level);
    if level == 0 then m.(tables := Write(m.tables, t, d, EMPTY)) else
    var child := Entry(m.tables, t, d).frame;
    var m1 := Clear(m, child, level - 1, vpn);
    if child in m1.tables && AllZero(m1.tables[child])
    then m1.(tables := Write(m1.tables - {child}, t, d, EMPTY), freed := m1.freed + [child])
    else m1
  }

  // unmap: nothing happens unless the whole path is there.
  function Unmap(m: Memory, root: nat, level: nat, vpn: nat): Memory {
    if Full(m.tables, root, level, vpn) then Clear(m, root, level, vpn) else m
  }

  ghost function Remaining(lv: map<nat, nat>, tables: Tables): map<nat, nat> {
    map x | x in lv && x in tables :: lv[x]
  }

  // The space after Clear, as seen from `t`.
  ghost predicate Cleared(m: Memory, t: nat, level: nat, m2: Memory, lv: map<nat, nat>) {
    var lv2 := Remaining(lv, m2.tables);
    && Levelled(m2.tables, lv2) && Unshared(m2.tables, lv2)
    && t in m2.tables && m2.tables.Keys <= m.tables.Keys
    && HighTablesSame(m.tables, m2.tables, lv, t, level)
    && m2.supply == m.supply && m2.refs == m.refs
  }

  lemma RemoveKeeps(tables: Tables, t: nat, d: nat, c: nat, lv: map<nat, nat>)
    requires Levelled(tables, lv) && Unshared(tables, lv) && Points(tables, lv, t, d, c) && c in lv && lv[c] < lv[t]
    ensures var after := Write(tables - {c}, t, d, EMPTY);
            && Levelled(after, lv - {c}) && Unshared(after, lv - {c})
            && after.Keys == tables.Keys - {c} && after[t] == tables[t][d := EMPTY]
            && forall x :: x in tables && x != t && x != c ==> after[x] == tables[x]
  {
    var after := Write(tables - {c}, t, d, EMPTY);
    var lv2 := lv - {c};
    forall x | x in lv2 && lv2[x] > 0
      ensures PointsDown(after[x], lv2, lv2[x] - 1)
    {
      forall i: nat | i < ENTRIES && Linked(after[x][i])
        ensures Below(after[x][i], lv2, lv2[x] - 1)
      {
        assert Below(tables[x][i], lv, lv[x] - 1);
        assert tables[x][i].frame == c ==> Points(tables, lv, x, i, c);
      }
    }
    assert forall a: nat, i: nat, f: nat :: Points(after, lv2, a, i, f) ==> Points(tables, lv, a, i, f);
  }

  lemma ClearStep(m: Memory, t: nat, level: nat, vpn: nat, lv: map<nat, nat>)
    returns (m1: Memory, child: nat)
    requires Levelled(m.tables, lv) && Unshared(m.tables, lv) && t in lv && lv[t] == level > 0
    requires Full(m.tables, t, level, vpn)
    ensures var d := Digit(vpn, level);
            var m2 := Clear(m, t, level, vpn);
            && d < ENTRIES && m.tables[t][d].flags.present && child == m.tables[t][d].frame
            && Points(m.tables, lv, t, d, child) && child in lv && lv[child] == level - 1
            && Full(m.tables, child, level - 1, vpn) && m1 == Clear(m, child, level - 1, vpn)
            && Cleared(m, child, level - 1, m1, lv) && m1.tables[t] == m.tables[t]
            && Points(m1.tables, Remaining(lv, m1.tables), t, d, child)
            && m2 == if AllZero(m1.tables[child])
                     then m1.(tables := Write(m1.tables - {child}, t, d, EMPTY), freed := m1.freed + [child])
                     else m1
    decreases level, 0
  {
    var d := Digit(vpn, level);
    DigitBound(vpn, level);
    child := m.tables[t][d].frame;
    assert Below(m.tables[t][d], lv, level - 1);
    m1 := Clear(m, child, level - 1, vpn);
    ClearKeeps(m, child, level - 1, vpn, lv);
  }

  lemma {:induction false} ClearKeeps(m: Memory, t: nat, level: nat, vpn: nat, lv: map<nat, nat>)
    requires Levelled(m.tables, lv) && Unshared(m.tables, lv) && t in lv && lv[t] == level
    requires Full(m.tables, t, level, vpn)
    ensures Cleared(m, t, level, Clear(m, t, level, vpn), lv)
    decreases level, 1
  {
    DigitBound(vpn, level);
    var m2 := Clear(m, t, level, vpn);
    if level == 0 {
      assert Remaining(lv, m2.tables) == lv;
      LastLevelWriteKeepsUnshared(m.tables, t, Digit(vpn, 0), EMPTY, lv);
    } else {
      var m1, child := ClearStep(m, t, level, vpn, lv);
      var lv1 := Remaining(lv, m1.tables);
      if AllZero(m1.tables[child]) {
        RemoveKeeps(m1.tables, t, Digit(vpn, level), child, lv1);
        assert Remaining(lv, m2.tables) == lv1 - {child};
      }
    }
  }

  lemma {:induction false} ClearElsewhere(
      m: Memory, t: nat, b: nat, level: nat, vpn: nat, other: nat, lv: map<nat, nat>)
    requires Levelled(m.tables, lv) && Unshared(m.tables, lv)
    requires t in lv && lv[t] == level && b in lv && lv[b] == level && b != t
    requires Full(m.tables, t, level, vpn)
    ensures b in Clear(m, t, level, vpn).tables
    ensures Walk(Clear(m, t, level, vpn).tables, b, level, other) == Walk(m.tables, b, level, other)
    decreases level
  {
    var m2 := Clear(m, t, level, vpn);
    ClearKeeps(m, t, level, vpn, lv);
    DigitBound(other, level);
    var e := m.tables[b][Digit(other, level)];
    if level > 0 && Linked(e) {
      assert Below(e, lv, level - 1);
      var m1, child := ClearStep(m, t, level, vpn, lv);
      assert Points(m.tables, lv, b, Digit(other, level), e.frame);
      ClearElsewhere(m, child, e.frame, level - 1, vpn, other, lv);
      WalkPastRemoval(m1, t, child, e.frame, level - 1, vpn, other, Remaining(lv, m1.tables));
    }
  }

  // Freeing an emptied child and clearing the entry above it hides nothing from a walk that
  // starts at another table of the child's level.
  lemma WalkPastRemoval(m1: Memory, t: nat, child: nat, b: nat, level: nat, vpn: nat, other: nat, lv1: map<nat, nat>)
    requires Levelled(m1.tables, lv1) && Unshared(m1.tables, lv1)
    requires Digit(vpn, level + 1) < ENTRIES && Points(m1.tables, lv1, t, Digit(vpn, level + 1), child)
    requires lv1[t] == level + 1 && child in lv1 && lv1[child] == level && b in lv1 && lv1[b] == level && b != child
    ensures Walk(Write(m1.tables - {child}, t, Digit(vpn, level + 1), EMPTY), b, level, other)
         == Walk(m1.tables, b, level, other)
  {
    RemoveKeeps(m1.tables, t, Digit(vpn, level + 1), child, lv1);
    var after := Write(m1.tables - {child}, t, Digit(vpn, level + 1), EMPTY);
    var rest := lv1 - {child};
    if level > 0 {
      DigitBound(other, level);
    }
    WalkFrame(after, m1.tables, b, level, other, rest);
  }

  lemma {:induction false} ClearRemoves(m: Memory, t: nat, level: nat, vpn: nat, lv: map<nat, nat>)
    requires Levelled(m.tables, lv) && Unshared(m.tables, lv) && t in lv && lv[t] == level
    requires Full(m.tables, t, level, vpn)
    ensures View(Clear(m, t, level, vpn).tables, t, level, vpn).None?
    decreases level
  {
    DigitBound(vpn, level);
    if level > 0 {
      var m1, child := ClearStep(m, t, level, vpn, lv);
      ClearRemoves(m, child, level - 1, vpn, lv);
      if AllZero(m1.tables[child]) {
        RemoveKeeps(m1.tables, t, Digit(vpn, level), child, Remaining(lv, m1.tables));
      }
    }
  }

  // An entry of `t` that is not the one being cleared stays, and so does what lies below it.
  lemma SiblingEntry(m: Memory, t: nat, level: nat, vpn: nat, d: nat, lv: map<nat, nat>)
    requires Levelled(m.tables, lv) && Unshared(m.tables, lv) && t in lv && lv[t] == level > 0
    requires Full(m.tables, t, level, vpn) && Digit(vpn, level) != d < ENTRIES
    ensures Entry(Clear(m, t, level, vpn).tables, t, d) == Entry(m.tables, t, d)
  {
    var m1, child := ClearStep(m, t, level, vpn, lv);
    RemoveKeeps(m1.tables, t, Digit(vpn, level), child, Remaining(lv, m1.tables));
  }

  lemma SiblingWalk(m: Memory, t: nat, level: nat, vpn: nat, other: nat, lv: map<nat, nat>)
    requires Levelled(m.tables, lv) && Unshared(m.tables, lv) && t in lv && lv[t] == level > 0
    requires Full(m.tables, t, level, vpn) && Digit(vpn, level) != Digit(other, level)
    requires Linked(Entry(m.tables, t, Digit(other, level)))
    ensures var b := Entry(m.tables, t, Digit(other, level)).frame;
            Walk(Clear(m, t, level, vpn).tables, b, level - 1, other) == Walk(m.tables, b, level - 1, other)
  {
    DigitBound(other, level);
    var m1, child := ClearStep(m, t, level, vpn, lv);
    var d := Digit(other, level);
    var e := m.tables[t][d];
    assert Below(e, lv, level - 1);
    assert Points(m.tables, lv, t, d, e.frame);
    ClearElsewhere(m, child, e.frame, level - 1, vpn, other, lv);
    WalkPastRemoval(m1, t, child, e.frame, level - 1, vpn, other, Remaining(lv, m1.tables));
  }

  // The view of `other` through an entry of `t` that is not the one being cleared.
  lemma ClearKeepsSiblings(m: Memory, t: nat, level: nat, vpn: nat, other: nat, lv: map<nat, nat>)
    requires Levelled(m.tables, lv) && Unshared(m.tables, lv) && t in lv && lv[t] == level > 0
    requires Full(m.tables, t, level, vpn) && Digit(vpn, level) != Digit(other, level)
    ensures Walk(Clear(m, t, level, vpn).tables, t, level, other) == Walk(m.tables, t, level, other)
  {
    DigitBound(other, level);
    SiblingEntry(m, t, level, vpn, Digit(other, level), lv);
    if Linked(Entry(m.tables, t, Digit(other, level))) {
      SiblingWalk(m, t, level, vpn, other, lv);
    }
  }

  // The view of `other` through the entry on the path to the page being cleared.
  lemma ClearKeepsBelow(m: Memory, t: nat, level: nat, vpn: nat, other: nat, lv: map<nat, nat>)
    requires Levelled(m.tables, lv) && Unshared(m.tables, lv) && t in lv && lv[t] == level > 0
    requires Full(m.tables, t, level, vpn) && Digit(vpn, level) == Digit(other, level)
    requires var child := Entry(m.tables, t, Digit(vpn, level)).frame;
             View(Clear(m, child, level - 1, vpn).tables, child, level - 1, other)
             == View(m.tables, child, level - 1, other)
    ensures View(Clear(m, t, level, vpn).tables, t, level, other) == View(m.tables, t, level, other)
  {
    var m1, child := ClearStep(m, t, level, vpn, lv);
    if AllZero(m1.tables[child]) {
      RemoveKeeps(m1.tables, t, Digit(vpn, level), child, Remaining(lv, m1.tables));
      DigitBound(other, level - 1);
      assert View(m1.tables, child, level - 1, other).None?;
    }
  }

  lemma {:induction false} ClearKeepsOthers(m: Memory, t: nat, level: nat, vpn: nat, other: nat, lv: map<nat, nat>)
    requires Levelled(m.tables, lv) && Unshared(m.tables, lv) && t in lv && lv[t] == level
    requires Full(m.tables, t, level, vpn) && Differ(vpn, other, level)
    ensures View(Clear(m, t, level, vpn).tables, t, level, other) == View(m.tables, t, level, other)
    decreases level
  {
    if level == 0 {
      DigitBound(vpn, level);
      DigitBound(other, level);
    } else if Digit(vpn, level) != Digit(other, level) {
      ClearKeepsSiblings(m, t, level, vpn, other, lv);
    } else {
      var m1, child := ClearStep(m, t, level, vpn, lv);
      ClearKeepsOthers(m, child, level - 1, vpn, other, lv);
      ClearKeepsBelow(m, t, level, vpn, other, lv);
    }
  }

  // No table of the space but `t` is all zero.
  ghost predicate NoneEmpty(tables: Tables, lv: map<nat, nat>, t: nat) {
    forall x :: x in lv && x != t ==> x in tables && !AllZero(tables[x])
  }

  lemma {:induction false} ClearLeavesNoneEmpty(m: Memory, t: nat, level: nat, vpn: nat, lv: map<nat, nat>)
    requires Levelled(m.tables, lv) && Unshared(m.tables, lv) && t in lv && lv[t] == level
    requires Full(m.tables, t, level, vpn) && NoneEmpty(m.tables, lv, t)
    ensures var m2 := Clear(m, t, level, vpn); NoneEmpty(m2.tables, Remaining(lv, m2.tables), t)
    decreases level
  {
    DigitBound(vpn, level);
    if level > 0 {
      var m1, child := ClearStep(m, t, level, vpn, lv);
      assert !AllZero(m.tables[t]) by {
        assert m.tables[t][Digit(vpn, level)] != EMPTY;
      }
      ClearLeavesNoneEmpty(m, child, level - 1, vpn, lv);
      if AllZero(m1.tables[child]) {
        RemoveKeeps(m1.tables, t, Digit(vpn, level), child, Remaining(lv, m1.tables));
      }
    }
  }

  // Nothing lies in table `t` and the tables on the path below it but the path itself.
  ghost predicate Lone(tables: Tables, t: nat, level: nat, vpn: nat)
    decreases level
  {
    var d := Digit(vpn, level);
    && (forall i: nat :: i != d ==> Entry(tables, t, i) == EMPTY)
    && (level > 0 ==> Lone(tables, Entry(tables, t, d).frame, level - 1, vpn))
  }

  // Table `x` is on the path below `t`, and holds nothing but the path.
  ghost predicate Vacated(tables: Tables, t: nat, level: nat, vpn: nat, x: nat)
    decreases level
  {
    level > 0 &&
    var child := Entry(tables, t, Digit(vpn, level)).frame;
    (x == child && Lone(tables, child, level - 1, vpn)) || Vacated(tables, child, level - 1, vpn, x)
  }

  lemma ZeroButOne(table: seq<Pte>, tables: Tables, t: nat, d: nat)
    requires t in tables && |tables[t]| == ENTRIES && d < ENTRIES && table == tables[t][d := EMPTY]
    ensures AllZero(table) <==> forall i: nat :: i != d ==> Entry(tables, t, i) == EMPTY
  {
    if AllZero(table) {
      forall i: nat | i != d
        ensures Entry(tables, t, i) == EMPTY
      {
        assert i < ENTRIES ==> table[i] == EMPTY;
      }
    } else {
      var i :| 0 <= i < |table| && table[i] != EMPTY;
      assert Entry(tables, t, i) != EMPTY;
    }
  }

  // Clearing empties a table exactly if it held nothing but the path.
  lemma {:induction false} ClearEmptiesIff(m: Memory, t: nat, level: nat, vpn: nat, lv: map<nat, nat>)
    requires Levelled(m.tables, lv) && Unshared(m.tables, lv) && t in lv && lv[t] == level
    requires Full(m.tables, t, level, vpn)
    ensures t in Clear(m, t, level, vpn).tables
    ensures AllZero(Clear(m, t, level, vpn).tables[t]) <==> Lone(m.tables, t, level, vpn)
    decreases level
  {
    var d := Digit(vpn, level);
    DigitBound(vpn, level);
    ZeroButOne(m.tables[t][d := EMPTY], m.tables, t, d);
    if level > 0 {
      var m1, child := ClearStep(m, t, level, vpn, lv);
      ClearEmptiesIff(m, child, level - 1, vpn, lv);
      if AllZero(m1.tables[child]) {
        RemoveKeeps(m1.tables, t, d, child, Remaining(lv, m1.tables));
      } else {
        assert m.tables[t][d] != EMPTY;
      }
    }
  }

  // What is freed is exactly what is vacated.
  lemma {:induction false} ClearFreesVacated(m: Memory, t: nat, level: nat, vpn: nat, lv: map<nat, nat>)
    returns (fs: seq<nat>)
    requires Levelled(m.tables, lv) && Unshared(m.tables, lv) && t in lv && lv[t] == level
    requires Full(m.tables, t, level, vpn)
    ensures Clear(m, t, level, vpn).freed == m.freed + fs
    ensures forall x :: x in fs <==> Vacated(m.tables, t, level, vpn, x)
    decreases level
  {
    if level == 0 {
      fs := [];
    } else {
      var m1, child := ClearStep(m, t, level, vpn, lv);
      fs := ClearFreesVacated(m, child, level - 1, vpn, lv);
      ClearEmptiesIff(m, child, level - 1, vpn, lv);
      if AllZero(m1.tables[child]) {
        fs := fs + [child];
      }
    }
  }

  // What is freed is exactly what stops being a table.
  lemma {:induction false} ClearFrees(m: Memory, t: nat, level: nat, vpn: nat, lv: map<nat, nat>)
    returns (fs: seq<nat>)
    requires Levelled(m.tables, lv) && Unshared(m.tables, lv) && t in lv && lv[t] == level
    requires Full(m.tables, t, level, vpn)
    ensures var m2 := Clear(m, t, level, vpn);
            && m2.freed == m.freed + fs
            && (forall x :: x in m2.tables <==> x in m.tables && x !in fs)
            && (forall i :: 0 <= i < |fs| ==> fs[i] in lv && lv[fs[i]] < level)
    decreases level
  {
    if level == 0 {
      fs := [];
    } else {
      var m1, child := ClearStep(m, t, level, vpn, lv);
      fs := ClearFrees(m, child, level - 1, vpn, lv);
      if AllZero(m1.tables[child]) {
        RemoveKeeps(m1.tables, t, Digit(vpn, level), child, Remaining(lv, m1.tables));
        fs := fs + [child];
      }
    }
  }

  // -- Round trip ------------------------------------------------------------------

  // What a caller can check before the call: the entry is zero, missing tables have zero
  // entries above them, tables on the path are not empty and need no USER bit.
  predicate Restorable(tables: Tables, t: nat, level: nat, vpn: nat, flags: Flags)
    decreases level
  {
    var e := Entry(tables, t, Digit(vpn, level));
    if level == 0 || !e.flags.present then e == EMPTY
    else && (flags.user ==> e.flags.user) && e.frame in tables && !AllZero(tables[e.frame])
         && Restorable(tables, e.frame, level - 1, vpn, flags)
  }

  lemma ZeroedIsRestorable(tables: Tables, t: nat, level: nat, vpn: nat, flags: Flags)
    requires t in tables && tables[t] == Zeroed()
    ensures Restorable(tables, t, level, vpn, flags)
  {
    DigitBound(vpn, level);
  }

  // Unmapping a page just mapped restores the tables exactly if and only if the page was
  // restorable; then the tables freed are those the mapping allocated, last first.
  ghost predicate RoundTrips(m: Memory, t: nat, level: nat, vpn: nat, flags: Flags, m1: Memory, m2: Memory) {
    && (m2.tables == m.tables <==> Restorable(m.tables, t, level, vpn, flags))
    && |m1.supply| <= |m.supply| && m2.supply == m1.supply == m.supply[|m.supply| - |m1.supply|..]
    && (m2.tables == m.tables ==> m2.freed == m.freed + LastFirst(m.supply[..|m.supply| - |m1.supply|]))
  }

  lemma {:induction false} MapThenClear(
      m: Memory, t: nat, level: nat, vpn: nat, frame: nat, flags: Flags, lv: map<nat, nat>)
    requires Levelled(m.tables, lv) && Unshared(m.tables, lv) && Fresh(m) && t in lv && lv[t] == level
    requires Open(m.tables, t, level, vpn) && MapInto(m, t, level, vpn, frame, flags).Some?
    ensures var m1 := MapInto(m, t, level, vpn, frame, flags).value;
            RoundTrips(m, t, level, vpn, flags, m1, Clear(m1, t, level, vpn))
    decreases level
  {
    if level == 0 {
      MapThenClearEntry(m, t, vpn, frame, flags);
    } else {
      var m1 := MapInto(m, t, level, vpn, frame, flags).value;
      var mS, child, lv1 := MapStep(m, t, level, vpn, frame, flags, lv);
      MapThenClear(mS, child, level - 1, vpn, frame, flags, lv1);
      if m.tables[t][Digit(vpn, level)].flags.present {
        assert Below(m.tables[t][Digit(vpn, level)], lv, level - 1);
        ClearSparesParent(m, mS, t, child, level, vpn, frame, flags, lv1);
        SameBelow(m, mS, t, child, level, vpn, flags, lv1);
        ThroughTable(m, mS, m1, t, child, level, vpn, flags, lv1, Clear(m1, child, level - 1, vpn));
      } else {
        ThroughNewTable(m, mS, m1, t, child, level, vpn, flags, lv1, Clear(m1, child, level - 1, vpn));
      }
    }
  }

  lemma MapThenClearEntry(m: Memory, t: nat, vpn: nat, frame: nat, flags: Flags)
    requires t in m.tables && |m.tables[t]| == ENTRIES
    ensures var m1 := MapInto(m, t, 0, vpn, frame, flags).value;
            RoundTrips(m, t, 0, vpn, flags, m1, Clear(m1, t, 0, vpn))
  {
    var d := Digit(vpn, 0);
    var after := Clear(MapInto(m, t, 0, vpn, frame, flags).value, t, 0, vpn).tables;
    assert after[t] == m.tables[t][d := EMPTY];
    assert m.tables[t][d] == EMPTY ==> m.tables[t][d := EMPTY] == m.tables[t];
    assert m.supply[..0] == [];
  }

  lemma ClearSparesParent(
      m: Memory, mS: Memory, t: nat, child: nat, level: nat, vpn: nat, frame: nat, flags: Flags, lv1: map<nat, nat>)
    requires level > 0 && Stepped(m, t, level, vpn, flags, mS, lv1) && child == mS.tables[t][Digit(vpn, level)].frame
    requires Unshared(mS.tables, lv1) && Open(mS.tables, child, level - 1, vpn)
    requires MapInto(mS, child, level - 1, vpn, frame, flags).Some?
    ensures var m1 := MapInto(mS, child, level - 1, vpn, frame, flags).value;
            var c := Clear(m1, child, level - 1, vpn);
            t in c.tables && c.tables[t] == mS.tables[t]
  {
    var m1 := MapInto(mS, child, level - 1, vpn, frame, flags).value;
    MapSetsEntry(mS, child, level - 1, vpn, frame, flags, lv1);
    var lv2 := MapIntoKeeps(mS, child, level - 1, vpn, frame, flags, lv1);
    ClearKeeps(m1, child, level - 1, vpn, lv2);
  }

  // The step of MapThenClear through a table that was already there.
  lemma ThroughTable(m: Memory, mS: Memory, m1: Memory, t: nat, child: nat, level: nat, vpn: nat, flags: Flags,
                     lv1: map<nat, nat>, c: Memory)
    requires level > 0 && Stepped(m, t, level, vpn, flags, mS, lv1) && child == mS.tables[t][Digit(vpn, level)].frame
    requires m.tables[t][Digit(vpn, level)].flags.present && child in m.tables && child != t
    requires c == Clear(m1, child, level - 1, vpn) && RoundTrips(mS, child, level - 1, vpn, flags, m1, c)
    requires t in c.tables && c.tables[t] == mS.tables[t] && t in m1.tables && m1.tables[t] == mS.tables[t]
    requires Restorable(mS.tables, child, level - 1, vpn, flags) == Restorable(m.tables, child, level - 1, vpn, flags)
    ensures RoundTrips(m, t, level, vpn, flags, m1, Clear(m1, t, level, vpn))
  {
    var d := Digit(vpn, level);
    var m2 := Clear(m1, t, level, vpn);
    assert mS.tables[child] == m.tables[child];
    assert mS.tables == m.tables <==> mS.tables[t] == m.tables[t];
    assert mS.tables[t] == m.tables[t] <==> (flags.user ==> m.tables[t][d].flags.user) by {
      if flags.user ==> m.tables[t][d].flags.user {
        assert mS.tables[t][d] == m.tables[t][d];
      }
    }
    if child in c.tables && AllZero(c.tables[child]) {
      assert child !in m2.tables;
      if c.tables == mS.tables {
        assert AllZero(m.tables[child]);
      }
    } else {
      assert m2 == c;
      if m2.tables == m.tables {
        assert mS.tables[t] == m.tables[t];
      }
    }
  }

  // Restorability below `child` does not look at `t`.
  lemma SameBelow(m: Memory, mS: Memory, t: nat, child: nat, level: nat, vpn: nat, flags: Flags, lv1: map<nat, nat>)
    requires level > 0 && Stepped(m, t, level, vpn, flags, mS, lv1) && child == mS.tables[t][Digit(vpn, level)].frame
    requires m.tables[t][Digit(vpn, level)].flags.present && Open(mS.tables, child, level - 1, vpn)
    ensures Restorable(mS.tables, child, level - 1, vpn, flags) == Restorable(m.tables, child, level - 1, vpn, flags)
  {
    RestorableFrame(mS.tables, m.tables, child, level - 1, vpn, flags, lv1);
  }

  lemma {:induction false} RestorableFrame(
      before: Tables, after: Tables, t: nat, level: nat, vpn: nat, flags: Flags, lv: map<nat, nat>)
    requires Levelled(before, lv) && t in lv && lv[t] == level && Open(before, t, level, vpn)
    requires forall x :: x in lv && lv[x] <= level ==> x in after && after[x] == before[x]
    ensures Restorable(after, t, level, vpn, flags) == Restorable(before, t, level, vpn, flags)
    decreases level
  {
    DigitBound(vpn, level);
    if level > 0 {
      var e := before[t][Digit(vpn, level)];
      if e.flags.present {
        assert Below(e, lv, level - 1);
        RestorableFrame(before, after, e.frame, level - 1, vpn, flags, lv);
      }
    }
  }

  // The step of MapThenClear through a table that the mapping created.
  lemma ThroughNewTable(m: Memory, mS: Memory, m1: Memory, t: nat, child: nat, level: nat, vpn: nat, flags: Flags,
                        lv1: map<nat, nat>, c: Memory)
    requires level > 0 && Stepped(m, t, level, vpn, flags, mS, lv1) && child == mS.tables[t][Digit(vpn, level)].frame
    requires !m.tables[t][Digit(vpn, level)].flags.present && Fresh(m)
    requires c == Clear(m1, child, level - 1, vpn) && RoundTrips(mS, child, level - 1, vpn, flags, m1, c)
    requires t in m1.tables && m1.tables[t] == mS.tables[t]
    ensures RoundTrips(m, t, level, vpn, flags, m1, Clear(m1, t, level, vpn))
  {
    ZeroedIsRestorable(mS.tables, child, level - 1, vpn, flags);
    assert c.tables == mS.tables && AllZero(c.tables[child]);
    NewTableUndone(m, mS, t, child, level, vpn, flags, lv1);
  }

  lemma NewTableUndone(
      m: Memory, mS: Memory, t: nat, child: nat, level: nat, vpn: nat, flags: Flags, lv1: map<nat, nat>)
    requires level > 0 && Stepped(m, t, level, vpn, flags, mS, lv1) && child == mS.tables[t][Digit(vpn, level)].frame
    requires !m.tables[t][Digit(vpn, level)].flags.present && Fresh(m)
    ensures Write(mS.tables - {child}, t, Digit(vpn, level), EMPTY) == m.tables
       <==> m.tables[t][Digit(vpn, level)] == EMPTY
  {
    var d := Digit(vpn, level);
    var undone := Write(mS.tables - {child}, t, d, EMPTY);
    assert child !in m.tables && t != child;
    assert undone[t] == m.tables[t][d := EMPTY];
    if m.tables[t][d] == EMPTY {
      assert m.tables[t][d := EMPTY] == m.tables[t];
    } else {
      assert undone[t][d] != m.tables[t][d];
    }
  }

  // map_page then unmap on a whole address space.
  lemma MapThenUnmap(m: Memory, root: nat, vpn: nat, frame: nat, flags: Flags, lv: map<nat, nat>)
    requires Levelled(m.tables, lv) && Unshared(m.tables, lv) && Fresh(m) && root in lv && lv[root] == TOP
    requires Open(m.tables, root, TOP, vpn) && MapInto(m, root, TOP, vpn, frame, flags).Some?
    ensures var m1 := MapInto(m, root, TOP, vpn, frame, flags).value;
            var m2 := Unmap(m1, root, TOP, vpn);
            var taken := |m.supply| - |m1.supply|;
            && (m2.tables == m.tables <==> Restorable(m.tables, root, TOP, vpn, flags))
            && 0 <= taken <= |m.supply|
            && (m2.tables == m.tables ==> m2.freed == m.freed + LastFirst(m.supply[..taken]))
  {
    MapThenClear(m, root, TOP, vpn, frame, flags, lv);
    MapSetsEntry(m, root, TOP, vpn, frame, flags, lv);
  }

  // unmap on a whole address space: one translation goes, no other changes, no empty table
  // appears, and the tables freed are exactly those on the page's path that held nothing else.
  lemma UnmapCorrect(m: Memory, root: nat, vpn: nat, other: nat, lv: map<nat, nat>)
    requires Levelled(m.tables, lv) && Unshared(m.tables, lv) && root in lv && lv[root] == TOP
    requires Open(m.tables, root, TOP, vpn) && vpn < Span(TOP) && other < Span(TOP)
    ensures var m2 := Unmap(m, root, TOP, vpn);
            && Translate(m2.tables, root, other) == (if other == vpn then None else Translate(m.tables, root, other))
            && Levelled(m2.tables, Remaining(lv, m2.tables)) && m.freed <= m2.freed
            && (NoneEmpty(m.tables, lv, root) ==> NoneEmpty(m2.tables, Remaining(lv, m2.tables), root))
            && (forall x :: x in m2.tables <==> x in m.tables && x !in m2.freed[|m.freed|..])
            && forall x :: x in m2.freed[|m.freed|..] <==>
                 Full(m.tables, root, TOP, vpn) && Vacated(m.tables, root, TOP, vpn, x)
  {
    OpenPath(m.tables, root, TOP, vpn);
    if Full(m.tables, root, TOP, vpn) {
      ClearKeeps(m, root, TOP, vpn, lv);
      if NoneEmpty(m.tables, lv, root) {
        ClearLeavesNoneEmpty(m, root, TOP, vpn, lv);
      }
      var fs := ClearFrees(m, root, TOP, vpn, lv);
      var vacated := ClearFreesVacated(m, root, TOP, vpn, lv);
      assert Clear(m, root, TOP, vpn).freed[|m.freed|..] == fs == vacated;
      if other == vpn {
        ClearRemoves(m, root, TOP, vpn, lv);
      } else {
        PagesDiffer(vpn, other, TOP);
        ClearKeepsOthers(m, root, TOP, vpn, other, lv);
      }
    } else {
      assert Remaining(lv, m.tables) == lv;
      assert m.freed[|m.freed|..] == [];
    }
  }

  // In a tidy space every entry is present or zero, and no table but the root is empty; then
  // any page that has no translation is restorable with kernel flags.
  lemma {:induction false} KernelPageRestorable(
      tables: Tables, t: nat, level: nat, vpn: nat, flags: Flags, lv: map<nat, nat>, root: nat)
    requires Levelled(tables, lv) && t in lv && lv[t] == level && NoneEmpty(tables, lv, root)
    requires root in lv && lv[root] >= level
    requires forall x, i :: x in lv && 0 <= i < ENTRIES ==> tables[x][i].flags.present || tables[x][i] == EMPTY
    requires Open(tables, t, level, vpn) && View(tables, t, level, vpn).None? && !flags.user
    ensures Restorable(tables, t, level, vpn, flags)
    decreases level
  {
    DigitBound(vpn, level);
    var e := tables[t][Digit(vpn, level)];
    if level > 0 && e.flags.present {
      assert Below(e, lv, level - 1);
      KernelPageRestorable(tables, e.frame, level - 1, vpn, flags, lv, root);
    }
  }
}
