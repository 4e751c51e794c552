/** Mapping a page that lies in a huge page (kernel/src/mm/virt.rs): ensure_table splits the huge page
    into a table of absent entries, so that the page is mapped and every other page of the huge page
    stops being mapped. */
module PageTableSplit {
  import opened Basics
  import opened PageTableModel
  import opened PageTableViews

  // The path of `vpn` below `t` leads to a huge page, whose entry is in table `x` of level `l`.
  predicate HugeAt(tables: Tables, t: nat, level: nat, vpn: nat, x: nat, l: nat)
    decreases level
  {
    level > 0 &&
    var e := Entry(tables, t, Digit(vpn, level));
    e.flags.present && if e.flags.huge then x == t && l == level else HugeAt(tables, e.frame, level - 1, vpn, x, l)
  }

  lemma {:induction false} FindHuge(tables: Tables, t: nat, level: nat, vpn: nat) returns (x: nat, l: nat)
    requires !Open(tables, t, level, vpn)
    ensures HugeAt(tables, t, level, vpn, x, l)
    decreases level
  {
    var e := Entry(tables, t, Digit(vpn, level));
    if e.flags.huge {
      x, l := t, level;
    } else {
      x, l := FindHuge(tables, e.frame, level - 1, vpn);
    }
  }

  lemma {:induction false} HugeEntry(tables: Tables, lv: map<nat, nat>, t: nat, level: nat, vpn: nat, x: nat, l: nat)
    requires Levelled(tables, lv) && t in lv && lv[t] == level && HugeAt(tables, t, level, vpn, x, l)
    ensures x in lv && lv[x] == l && 0 < l <= level && Digit(vpn, l) < ENTRIES && (l == level ==> x == t)
    ensures var e := Entry(tables, x, Digit(vpn, l)); e.flags.present && e.flags.huge
    decreases level
  {
    DigitBound(vpn, level);
    var e := tables[t][Digit(vpn, level)];
    if !e.flags.huge {
      assert Below(e, lv, level - 1);
      HugeEntry(tables, lv, e.frame, level - 1, vpn, x, l);
    }
  }

  lemma {:induction false} HugeFrame(
      before: Tables, after: Tables, lv: map<nat, nat>, t: nat, level: nat, vpn: nat, x: nat, l: nat)
    requires Levelled(before, lv) && t in lv && lv[t] == level && HugeAt(before, t, level, vpn, x, l)
    requires forall y :: y in lv && lv[y] <= level ==> y in after && after[y] == before[y]
    ensures HugeAt(after, t, level, vpn, x, l)
    decreases level
  {
    DigitBound(vpn, level);
    var e := before[t][Digit(vpn, level)];
    if !e.flags.huge {
      assert Below(e, lv, level - 1);
      HugeFrame(before, after, lv, e.frame, level - 1, vpn, x, l);
    }
  }

  // The huge page in entry `i` of table `x` is split.
  function Shatter(m: Memory, x: nat, i: nat, flags: Flags): Memory
    requires m.supply != []
  {
    var page := m.supply[0];
    m.(tables := Write(m.tables[page := SplitOf(Entry(m.tables, x, i))], x, i,
                       Pte(page, TableFlags(flags).(present := true))),
       supply := m.supply[1..])
  }

  lemma WritesCommute(tables: Tables, page: nat, made: seq<Pte>, t: nat, d: nat, e: Pte, x: nat, i: nat, f: Pte)
    requires t in tables && x in tables && t != x && page != t && page != x
    ensures Write(Write(tables, t, d, e)[page := made], x, i, f) == Write(Write(tables[page := made], x, i, f), t, d, e)
  {
  }

  // Passing USER on and splitting below do not meet.
  lemma ShatterCommutes(m: Memory, t: nat, d: nat, x: nat, i: nat, flags: Flags)
    requires m.supply != [] && t in m.tables && x in m.tables && t != x && m.supply[0] !in m.tables
    ensures Shatter(AddUser(m, t, d, flags), x, i, flags) == AddUser(Shatter(m, x, i, flags), t, d, flags)
    ensures Entry(Shatter(m, x, i, flags).tables, t, d) == Entry(m.tables, t, d)
  {
    var page, user := m.supply[0], WithUser(Entry(m.tables, t, d), flags);
    assert Entry(AddUser(m, t, d, flags).tables, x, i) == Entry(m.tables, x, i);
    var split, link := SplitOf(Entry(m.tables, x, i)), Pte(page, TableFlags(flags).(present := true));
    WritesCommute(m.tables, page, split, t, d, user, x, i, link);
  }

  /** The walk of map_page goes as if the huge page on its way had been split before. */
  lemma {:induction false} SplitFirst(
      m: Memory, t: nat, level: nat, vpn: nat, flags: Flags, x: nat, l: nat, lv: map<nat, nat>)
    requires Levelled(m.tables, lv) && Fresh(m) && t in lv && lv[t] == level && HugeAt(m.tables, t, level, vpn, x, l)
    ensures Descend(m, t, level, vpn, flags) ==
      if m.supply == [] then None else Descend(Shatter(m, x, Digit(vpn, l), flags), t, level, vpn, flags)
    decreases level
  {
    var d := Digit(vpn, level);
    DigitBound(vpn, level);
    HugeEntry(m.tables, lv, t, level, vpn, x, l);
    var e := m.tables[t][d];
    if !e.flags.huge {
      assert Below(e, lv, level - 1);
      HugeEntry(m.tables, lv, e.frame, level - 1, vpn, x, l);
      AddUserKeeps(m, t, d, flags, lv);
      var m1 := AddUser(m, t, d, flags);
      HugeFrame(m.tables, m1.tables, lv, e.frame, level - 1, vpn, x, l);
      SplitFirst(m1, e.frame, level - 1, vpn, flags, x, l, lv);
      if m.supply != [] {
        ShatterCommutes(m, t, d, x, Digit(vpn, l), flags);
      }
    }
  }

  // -- The split ----------------------------------------------------------------------------

  // Entry `i` of table `x` maps a huge page.
  predicate MapsHuge(tables: Tables, lv: map<nat, nat>, x: nat, i: nat) {
    && x in lv && lv[x] > 0 && i < ENTRIES
    && Entry(tables, x, i).flags.present && Entry(tables, x, i).flags.huge
  }

  // What the split leaves: one new table, and one entry of `x` that links it.
  ghost predicate IsSplit(m: Memory, m1: Memory, lv: map<nat, nat>, x: nat, i: nat) {
    && MapsHuge(m.tables, lv, x, i) && m.supply != [] && m.supply[0] !in lv && m1.supply == m.supply[1..]
    && x in m.tables && |m.tables[x]| == ENTRIES && x in m1.tables && |m1.tables[x]| == ENTRIES
    && (forall y :: y in lv && y != x ==> y in m.tables && y in m1.tables && m1.tables[y] == m.tables[y])
    && (forall j :: 0 <= j < ENTRIES && j != i ==> m1.tables[x][j] == m.tables[x][j])
    && Linked(m1.tables[x][i]) && m1.tables[x][i].frame == m.supply[0]
    && m.supply[0] in m1.tables && |m1.tables[m.supply[0]]| == ENTRIES
    && (forall j :: 0 <= j < ENTRIES ==> !m1.tables[m.supply[0]][j].flags.present)
    && m1.tables[m.supply[0]] == SplitOf(Entry(m.tables, x, i))
  }

  lemma ShatterIsSplit(m: Memory, lv: map<nat, nat>, x: nat, i: nat, flags: Flags)
    requires Levelled(m.tables, lv) && Fresh(m) && MapsHuge(m.tables, lv, x, i) && m.supply != []
    ensures IsSplit(m, Shatter(m, x, i, flags), lv, x, i) && Fresh(Shatter(m, x, i, flags))
  {
  }

  lemma SplitKeeps(m: Memory, m1: Memory, lv: map<nat, nat>, x: nat, i: nat)
    requires Levelled(m.tables, lv) && IsSplit(m, m1, lv, x, i)
    ensures Levelled(m1.tables, lv[m.supply[0] := lv[x] - 1])
  {
    var lv1 := lv[m.supply[0] := lv[x] - 1];
    forall y | y in lv && lv[y] > 0
      ensures PointsDown(m1.tables[y], lv1, lv[y] - 1)
    {
      forall j | 0 <= j < ENTRIES && Linked(m1.tables[y][j])
        ensures Below(m1.tables[y][j], lv1, lv[y] - 1)
      {
        if y != x || j != i {
          assert Below(m.tables[y][j], lv, lv[y] - 1);
        }
      }
    }
  }

  lemma SplitKeepsUnshared(m: Memory, m1: Memory, lv: map<nat, nat>, x: nat, i: nat)
    requires Levelled(m.tables, lv) && Unshared(m.tables, lv) && IsSplit(m, m1, lv, x, i)
    ensures Unshared(m1.tables, lv[m.supply[0] := lv[x] - 1])
  {
    var page := m.supply[0];
    var lv1 := lv[page := lv[x] - 1];
    forall a: nat, j: nat, f: nat | Points(m1.tables, lv1, a, j, f)
      ensures if a == x && j == i then f == page else f != page && Points(m.tables, lv, a, j, f)
    {
      if !(a == x && j == i) {
        assert Points(m.tables, lv, a, j, f);
        assert Below(m.tables[a][j], lv, lv[a] - 1);
      }
    }
  }

  // Afterwards the path meets no huge page.
  lemma {:induction false} SplitOpens(
      m: Memory, m1: Memory, lv: map<nat, nat>, t: nat, level: nat, vpn: nat, x: nat, l: nat)
    requires Levelled(m.tables, lv) && t in lv && lv[t] == level && HugeAt(m.tables, t, level, vpn, x, l)
    requires IsSplit(m, m1, lv, x, Digit(vpn, l))
    ensures Open(m1.tables, t, level, vpn)
    decreases level
  {
    DigitBound(vpn, level);
    HugeEntry(m.tables, lv, t, level, vpn, x, l);
    var e := m.tables[t][Digit(vpn, level)];
    if e.flags.huge {
      if level > 1 {
        DigitBound(vpn, level - 1);
      }
    } else {
      assert Below(e, lv, level - 1);
      HugeEntry(m.tables, lv, e.frame, level - 1, vpn, x, l);
      SplitOpens(m, m1, lv, e.frame, level - 1, vpn, x, l);
    }
  }

  // -- What other pages see ---------------------------------------------------------------------

  // Below another table of the same level nothing changes.
  lemma {:induction false} SplitElsewhere(
      m: Memory, m1: Memory, lv: map<nat, nat>, t: nat, b: nat, level: nat, vpn: nat, other: nat, x: nat, l: nat)
    requires Levelled(m.tables, lv) && Unshared(m.tables, lv) && IsSplit(m, m1, lv, x, Digit(vpn, l))
    requires t in lv && lv[t] == level && HugeAt(m.tables, t, level, vpn, x, l) && b in lv && lv[b] == level && b != t
    ensures Walk(m1.tables, b, level, other) == Walk(m.tables, b, level, other)
    decreases level
  {
    DigitBound(other, level);
    DigitBound(vpn, level);
    HugeEntry(m.tables, lv, t, level, vpn, x, l);
    assert m1.tables[b] == m.tables[b] by {
      assert l == level ==> x == t;
    }
    var e, down := m.tables[b][Digit(other, level)], m.tables[t][Digit(vpn, level)];
    if Linked(e) {
      assert Below(e, lv, level - 1);
      if down.flags.huge {
        WalkFrame(m.tables, m1.tables, e.frame, level - 1, other, lv);
      } else {
        assert Below(down, lv, level - 1);
        assert Points(m.tables, lv, b, Digit(other, level), e.frame);
        assert Points(m.tables, lv, t, Digit(vpn, level), down.frame);
        SplitElsewhere(m, m1, lv, down.frame, e.frame, level - 1, vpn, other, x, l);
      }
    }
  }

  // The two pages lie in one huge page.
  predicate Together(tables: Tables, t: nat, level: nat, vpn: nat, other: nat)
    decreases level
  {
    level > 0 && Digit(other, level) == Digit(vpn, level) &&
    var e := Entry(tables, t, Digit(vpn, level));
    e.flags.present && (e.flags.huge || Together(tables, e.frame, level - 1, vpn, other))
  }

  // A page that leaves the path at this table.
  lemma SplitBeside(m: Memory, m1: Memory, lv: map<nat, nat>, t: nat, level: nat, vpn: nat, other: nat, x: nat, l: nat)
    requires Levelled(m.tables, lv) && Unshared(m.tables, lv) && IsSplit(m, m1, lv, x, Digit(vpn, l))
    requires t in lv && lv[t] == level && HugeAt(m.tables, t, level, vpn, x, l)
    requires Digit(other, level) != Digit(vpn, level)
    ensures Walk(m1.tables, t, level, other) == Walk(m.tables, t, level, other)
  {
    DigitBound(other, level);
    DigitBound(vpn, level);
    HugeEntry(m.tables, lv, t, level, vpn, x, l);
    var e, down := m.tables[t][Digit(other, level)], m.tables[t][Digit(vpn, level)];
    assert m1.tables[t][Digit(other, level)] == e;
    if Linked(e) {
      assert Below(e, lv, level - 1);
      if down.flags.huge {
        WalkFrame(m.tables, m1.tables, e.frame, level - 1, other, lv);
      } else {
        assert Below(down, lv, level - 1);
        assert Points(m.tables, lv, t, Digit(other, level), e.frame);
        assert Points(m.tables, lv, t, Digit(vpn, level), down.frame);
        SplitElsewhere(m, m1, lv, down.frame, e.frame, level - 1, vpn, other, x, l);
      }
    }
  }

  /** The split hides exactly the pages of the huge page. */
  lemma {:induction false} SplitViews(
      m: Memory, m1: Memory, lv: map<nat, nat>, t: nat, level: nat, vpn: nat, other: nat, x: nat, l: nat)
    requires Levelled(m.tables, lv) && Unshared(m.tables, lv) && IsSplit(m, m1, lv, x, Digit(vpn, l))
    requires t in lv && lv[t] == level && HugeAt(m.tables, t, level, vpn, x, l)
    ensures View(m1.tables, t, level, other) ==
      if Together(m.tables, t, level, vpn, other) then None else View(m.tables, t, level, other)
    decreases level
  {
    DigitBound(vpn, level);
    HugeEntry(m.tables, lv, t, level, vpn, x, l);
    if Digit(other, level) != Digit(vpn, level) {
      SplitBeside(m, m1, lv, t, level, vpn, other, x, l);
    } else {
      var e := m.tables[t][Digit(vpn, level)];
      if e.flags.huge {
        DigitBound(other, level - 1);
        assert x == t && l == level;
        assert View(m1.tables, m.supply[0], level - 1, other).None?;
        assert Walk(m1.tables, t, level, other) == Walk(m1.tables, m.supply[0], level - 1, other);
      } else {
        assert Below(e, lv, level - 1);
        HugeEntry(m.tables, lv, e.frame, level - 1, vpn, x, l);
        SplitViews(m, m1, lv, e.frame, level - 1, vpn, other, x, l);
      }
    }
  }

  // -- map_page on any page ----------------------------------------------------------------------

  // Mapping into a huge page is splitting it and mapping into the space that leaves.
  lemma SplitsFirst(m: Memory, t: nat, level: nat, vpn: nat, flags: Flags, lv: map<nat, nat>)
    returns (x: nat, l: nat, m1: Memory, lv1: map<nat, nat>)
    requires Levelled(m.tables, lv) && Fresh(m) && t in lv && lv[t] == level && !Open(m.tables, t, level, vpn)
    requires Descend(m, t, level, vpn, flags).Some?
    ensures Descend(m, t, level, vpn, flags) == Descend(m1, t, level, vpn, flags)
    ensures HugeAt(m.tables, t, level, vpn, x, l) && IsSplit(m, m1, lv, x, Digit(vpn, l))
    ensures Levelled(m1.tables, lv1) && Fresh(m1) && Extends(lv, lv1) && Open(m1.tables, t, level, vpn)
    ensures Unshared(m.tables, lv) ==> Unshared(m1.tables, lv1)
  {
    x, l := FindHuge(m.tables, t, level, vpn);
    HugeEntry(m.tables, lv, t, level, vpn, x, l);
    SplitFirst(m, t, level, vpn, flags, x, l, lv);
    m1 := Shatter(m, x, Digit(vpn, l), flags);
    lv1 := lv[m.supply[0] := lv[x] - 1];
    ShatterIsSplit(m, lv, x, Digit(vpn, l), flags);
    SplitKeeps(m, m1, lv, x, Digit(vpn, l));
    SplitOpens(m, m1, lv, t, level, vpn, x, l);
    if Unshared(m.tables, lv) {
      SplitKeepsUnshared(m, m1, lv, x, Digit(vpn, l));
    }
  }

  /** map_page on any page of an address space: the page translates to `frame`; every other page keeps
      its view, except that the other pages of a huge page that `vpn` lies in lose theirs. */
  lemma MapPageCorrect(m: Memory, root: nat, vpn: nat, frame: nat, flags: Flags, other: nat, lv: map<nat, nat>)
    requires Levelled(m.tables, lv) && Unshared(m.tables, lv) && Fresh(m) && root in lv && lv[root] == TOP
    requires MapInto(m, root, TOP, vpn, frame, flags).Some? && flags.present
    requires vpn < Span(TOP) && other < Span(TOP) && other != vpn
    ensures var after := MapInto(m, root, TOP, vpn, frame, flags).value.tables;
            && Translate(after, root, vpn) == Some(frame)
            && View(after, root, TOP, other) ==
               if Together(m.tables, root, TOP, vpn, other) then None else View(m.tables, root, TOP, other)
  {
    PagesDiffer(vpn, other, TOP);
    if Open(m.tables, root, TOP, vpn) {
      MapSetsEntry(m, root, TOP, vpn, frame, flags, lv);
      MapKeepsOthers(m, root, TOP, vpn, frame, flags, other, lv);
      OpenApart(m.tables, root, TOP, vpn, other);
    } else {
      var x, l, m1, lv1 := SplitsFirst(m, root, TOP, vpn, flags, lv);
      MapSetsEntry(m1, root, TOP, vpn, frame, flags, lv1);
      MapKeepsOthers(m1, root, TOP, vpn, frame, flags, other, lv1);
      SplitViews(m, m1, lv, root, TOP, vpn, other, x, l);
    }
  }

  lemma {:induction false} OpenApart(tables: Tables, t: nat, level: nat, vpn: nat, other: nat)
    requires Open(tables, t, level, vpn)
    ensures !Together(tables, t, level, vpn, other)
    decreases level
  {
    if level > 0 {
      var e := Entry(tables, t, Digit(vpn, level));
      if e.flags.present {
        OpenApart(tables, e.frame, level - 1, vpn, other);
      }
    }
  }

  // The other pages of a last-level table lie in the same huge page.
  lemma {:induction false} NeighbourTogether(tables: Tables, t: nat, level: nat, vpn: nat, other: nat)
    requires !Open(tables, t, level, vpn) && other / ENTRIES == vpn / ENTRIES
    ensures Together(tables, t, level, vpn, other) && View(tables, t, level, other).Some?
    decreases level
  {
    assert Digit(other, level) == Digit(vpn, level);
    var e := Entry(tables, t, Digit(vpn, level));
    if !e.flags.huge {
      NeighbourTogether(tables, e.frame, level - 1, vpn, other);
    }
  }

  /** map_page leaves the view of every other page alone if and only if its page lies in no huge page. */
  lemma MapKeepsOthersIff(m: Memory, root: nat, vpn: nat, frame: nat, flags: Flags, lv: map<nat, nat>)
    requires Levelled(m.tables, lv) && Unshared(m.tables, lv) && Fresh(m) && root in lv && lv[root] == TOP
    requires MapInto(m, root, TOP, vpn, frame, flags).Some? && flags.present && vpn < Span(TOP)
    ensures (forall other: nat :: other < Span(TOP) && other != vpn ==>
               View(MapInto(m, root, TOP, vpn, frame, flags).value.tables, root, TOP, other)
               == View(m.tables, root, TOP, other))
       <==> Open(m.tables, root, TOP, vpn)
  {
    var after := MapInto(m, root, TOP, vpn, frame, flags).value.tables;
    if Open(m.tables, root, TOP, vpn) {
      forall other: nat | other < Span(TOP) && other != vpn
        ensures View(after, root, TOP, other) == View(m.tables, root, TOP, other)
      {
        MapPageCorrect(m, root, vpn, frame, flags, other, lv);
        OpenApart(m.tables, root, TOP, vpn, other);
      }
    } else {
      var other := if vpn % ENTRIES == 0 then vpn + 1 else vpn - 1;
      SpanEven(TOP);
      NeighbourTogether(m.tables, root, TOP, vpn, other);
      MapPageCorrect(m, root, vpn, frame, flags, other, lv);
      assert View(after, root, TOP, other) != View(m.tables, root, TOP, other);
    }
  }

  lemma {:induction false} SpanEven(level: nat)
    ensures Span(level) % ENTRIES == 0
  {
    if level > 0 {
      SpanEven(level - 1);
    }
  }

  // -- Unmapping a page of a huge page ----------------------------------------------------------------

  // The path of `vpn` leads from `t` to table `page` of level `l`.
  predicate Leads(tables: Tables, t: nat, level: nat, vpn: nat, page: nat, l: nat)
    decreases level
  {
    if level <= l then t == page && level == l
    else
      var e := Entry(tables, t, Digit(vpn, level));
      Linked(e) && Leads(tables, e.frame, level - 1, vpn, page, l)
  }

  // Below an absent entry mapping and unmapping leave a zero entry.
  lemma NewPathUndone(m: Memory, t: nat, level: nat, vpn: nat, frame: nat, flags: Flags, lv: map<nat, nat>)
    requires Levelled(m.tables, lv) && Unshared(m.tables, lv) && Fresh(m) && t in lv && lv[t] == level
    requires level > 0 ==> !Entry(m.tables, t, Digit(vpn, level)).flags.present
    requires MapInto(m, t, level, vpn, frame, flags).Some?
    ensures Clear(MapInto(m, t, level, vpn, frame, flags).value, t, level, vpn).tables
         == Write(m.tables, t, Digit(vpn, level), EMPTY)
  {
    DigitBound(vpn, level);
    var d := Digit(vpn, level);
    if level > 0 {
      var m1 := MapInto(m, t, level, vpn, frame, flags).value;
      var mS, child, lv1 := MapStep(m, t, level, vpn, frame, flags, lv);
      MapThenClear(mS, child, level - 1, vpn, frame, flags, lv1);
      ZeroedIsRestorable(mS.tables, child, level - 1, vpn, flags);
      assert Clear(m1, child, level - 1, vpn).tables == mS.tables && AllZero(mS.tables[child]);
      assert Clear(m1, t, level, vpn).tables == Write(mS.tables - {child}, t, d, EMPTY);
      UndoneLink(m.tables, mS.tables, t, d, child);
    } else {
      assert m.tables[t][d := Pte(frame, flags)][d := EMPTY] == m.tables[t][d := EMPTY];
    }
  }

  lemma UndoneLink(before: Tables, after: Tables, t: nat, d: nat, child: nat)
    requires t in before && d < |before[t]| && child !in before && t in after && |after[t]| == |before[t]|
    requires after.Keys == before.Keys + {child} && SameBut(before, after, t)
    requires forall i :: 0 <= i < |before[t]| && i != d ==> after[t][i] == before[t][i]
    ensures Write(after - {child}, t, d, EMPTY) == Write(before, t, d, EMPTY)
  {
    assert after[t][d := EMPTY] == before[t][d := EMPTY];
  }

  // Table `page` has something in it beside entry `d`.
  predicate MoreIn(tables: Tables, page: nat, d: nat) {
    page in tables && exists j :: 0 <= j < |tables[page]| && j != d && tables[page][j] != EMPTY
  }

  // The path stays up to table `page`, which loses the entry of the page and nothing else.
  ghost predicate LeavesTable(m: Memory, m2: Memory, t: nat, level: nat, vpn: nat, page: nat, l: nat) {
    && page in m.tables && page in m2.tables && Digit(vpn, l) < |m.tables[page]|
    && m2.tables[page] == m.tables[page][Digit(vpn, l) := EMPTY]
    && Leads(m2.tables, t, level, vpn, page, l)
  }

  lemma {:induction false} LeadsStays(
      m: Memory, t: nat, level: nat, vpn: nat, frame: nat, flags: Flags, lv: map<nat, nat>, page: nat, l: nat)
    requires Levelled(m.tables, lv) && Unshared(m.tables, lv) && Fresh(m) && t in lv && lv[t] == level
    requires Leads(m.tables, t, level, vpn, page, l) && MoreIn(m.tables, page, Digit(vpn, l))
    requires l > 0 ==> !Entry(m.tables, page, Digit(vpn, l)).flags.present
    requires MapInto(m, t, level, vpn, frame, flags).Some?
    ensures LeavesTable(m, Clear(MapInto(m, t, level, vpn, frame, flags).value, t, level, vpn), t, level, vpn, page, l)
    decreases level
  {
    DigitBound(vpn, level);
    if level == l {
      NewPathUndone(m, t, level, vpn, frame, flags, lv);
    } else {
      LeadsOpen(m.tables, t, level, vpn, page, l);
      var mS, child, lv1 := MapStep(m, t, level, vpn, frame, flags, lv);
      assert Below(m.tables[t][Digit(vpn, level)], lv, level - 1);
      LeadsFrame(m.tables, mS.tables, child, level - 1, vpn, page, l, lv);
      LeadsStays(mS, child, level - 1, vpn, frame, flags, lv1, page, l);
      ClearSparesParent(m, mS, t, child, level, vpn, frame, flags, lv1);
      var c := Clear(MapInto(m, t, level, vpn, frame, flags).value, child, level - 1, vpn);
      NotEmptied(mS, c, child, level - 1, vpn, page, l);
    }
  }

  lemma NotEmptied(m: Memory, c: Memory, t: nat, level: nat, vpn: nat, page: nat, l: nat)
    requires LeavesTable(m, c, t, level, vpn, page, l) && MoreIn(m.tables, page, Digit(vpn, l))
    ensures t in c.tables ==> !AllZero(c.tables[t])
  {
    if level == l {
      var j :| 0 <= j < |m.tables[page]| && j != Digit(vpn, l) && m.tables[page][j] != EMPTY;
      assert c.tables[page][j] != EMPTY;
    } else {
      assert Entry(c.tables, t, Digit(vpn, level)) != EMPTY;
    }
  }

  lemma {:induction false} LeadsOpen(tables: Tables, t: nat, level: nat, vpn: nat, page: nat, l: nat)
    requires Leads(tables, t, level, vpn, page, l) && (l > 0 ==> !Entry(tables, page, Digit(vpn, l)).flags.present)
    ensures Open(tables, t, level, vpn)
    decreases level
  {
    if level > l {
      LeadsOpen(tables, Entry(tables, t, Digit(vpn, level)).frame, level - 1, vpn, page, l);
    }
  }

  // The path to `page` looks only at tables of its level and below.
  lemma {:induction false} LeadsFrame(
      before: Tables, after: Tables, t: nat, level: nat, vpn: nat, page: nat, l: nat, lv: map<nat, nat>)
    requires Levelled(before, lv) && t in lv && lv[t] == level && Leads(before, t, level, vpn, page, l)
    requires forall x :: x in lv && lv[x] <= level ==> x in after && after[x] == before[x]
    ensures Leads(after, t, level, vpn, page, l) && page in before && page in after && after[page] == before[page]
    decreases level
  {
    DigitBound(vpn, level);
    if level > l {
      assert Below(before[t][Digit(vpn, level)], lv, level - 1);
      LeadsFrame(before, after, before[t][Digit(vpn, level)].frame, level - 1, vpn, page, l, lv);
    }
  }

  lemma {:induction false} SplitLeads(
      m: Memory, m1: Memory, lv: map<nat, nat>, t: nat, level: nat, vpn: nat, x: nat, l: nat)
    requires Levelled(m.tables, lv) && t in lv && lv[t] == level && HugeAt(m.tables, t, level, vpn, x, l)
    requires IsSplit(m, m1, lv, x, Digit(vpn, l))
    ensures l > 0 && Leads(m1.tables, t, level, vpn, m.supply[0], l - 1)
    decreases level
  {
    DigitBound(vpn, level);
    HugeEntry(m.tables, lv, t, level, vpn, x, l);
    var e := m.tables[t][Digit(vpn, level)];
    if !e.flags.huge {
      assert Below(e, lv, level - 1);
      HugeEntry(m.tables, lv, e.frame, level - 1, vpn, x, l);
      SplitLeads(m, m1, lv, e.frame, level - 1, vpn, x, l);
    }
  }

  /** Mapping a page of a huge page and unmapping it never restores the tables: the path still leads to the
      table that took the place of the huge page, which keeps its 511 other entries, all absent. */
  lemma MapThenUnmapHuge(m: Memory, root: nat, vpn: nat, frame: nat, flags: Flags, lv: map<nat, nat>)
    returns (x: nat, l: nat)
    requires Levelled(m.tables, lv) && Unshared(m.tables, lv) && Fresh(m) && root in lv && lv[root] == TOP
    requires !Open(m.tables, root, TOP, vpn) && MapInto(m, root, TOP, vpn, frame, flags).Some?
    ensures HugeAt(m.tables, root, TOP, vpn, x, l) && l > 0 && Digit(vpn, l - 1) < ENTRIES && m.supply != []
    ensures var m2, page := Unmap(MapInto(m, root, TOP, vpn, frame, flags).value, root, TOP, vpn), m.supply[0];
      && m2.tables != m.tables && Leads(m2.tables, root, TOP, vpn, page, l - 1) && page in m2.tables
      && m2.tables[page] == SplitOf(Entry(m.tables, x, Digit(vpn, l)))[Digit(vpn, l - 1) := EMPTY]
  {
    var m1, lv1;
    x, l, m1, lv1 := SplitsFirst(m, root, TOP, vpn, flags, lv);
    HugeEntry(m.tables, lv, root, TOP, vpn, x, l);
    SplitLeads(m, m1, lv, root, TOP, vpn, x, l);
    DigitBound(vpn, l - 1);
    var page, d := m.supply[0], Digit(vpn, l - 1);
    var j := if d == 1 then 2 else 1;
    assert m1.tables[page][j] != EMPTY;
    LeadsStays(m1, root, TOP, vpn, frame, flags, lv1, page, l - 1);
    MapSetsEntry(m1, root, TOP, vpn, frame, flags, lv1);
    assert page !in m.tables;
  }

  // -- Runs of pages -----------------------------------------------------------------------------

  /** A batch inside one last-level table is the same as mapping its pages one at a time. */
  lemma BatchIsEach(m: Memory, root: nat, top: nat, vpn: nat, frames: seq<nat>, flags: Flags, lv: map<nat, nat>)
    requires Levelled(m.tables, lv) && Fresh(m) && root in lv && lv[root] == top
    requires 0 < |frames| <= ENTRIES - vpn % ENTRIES
    ensures MapBatch(m, root, top, vpn, frames, flags) == MapEach(m, root, top, vpn, frames, flags)
  {
    if Open(m.tables, root, top, vpn) {
      OpenBatchIsEach(m, root, top, vpn, frames, flags, lv);
    } else if Descend(m, root, top, vpn, flags).Some? {
      var x, l, m1, lv1 := SplitsFirst(m, root, top, vpn, flags, lv);
      OpenBatchIsEach(m1, root, top, vpn, frames, flags, lv1);
      assert MapInto(m, root, top, vpn, frames[0], flags) == MapInto(m1, root, top, vpn, frames[0], flags);
    }
  }

  lemma MapKeeps(m: Memory, root: nat, top: nat, vpn: nat, frame: nat, flags: Flags, lv: map<nat, nat>)
    returns (lv2: map<nat, nat>)
    requires Levelled(m.tables, lv) && Fresh(m) && root in lv && lv[root] == top
    requires MapInto(m, root, top, vpn, frame, flags).Some?
    ensures var m2 := MapInto(m, root, top, vpn, frame, flags).value;
            && Levelled(m2.tables, lv2) && Fresh(m2) && Extends(lv, lv2)
            && (Unshared(m.tables, lv) ==> Unshared(m2.tables, lv2))
  {
    if Open(m.tables, root, top, vpn) {
      lv2 := MapIntoKeeps(m, root, top, vpn, frame, flags, lv);
    } else {
      var x, l, m1, lv1 := SplitsFirst(m, root, top, vpn, flags, lv);
      lv2 := MapIntoKeeps(m1, root, top, vpn, frame, flags, lv1);
    }
  }

  /** Mapping keeps an address space well formed. */
  lemma {:induction false} MapEachKeeps(
      m: Memory, root: nat, top: nat, vpn: nat, frames: seq<nat>, flags: Flags, lv: map<nat, nat>)
    returns (lv2: map<nat, nat>)
    requires Levelled(m.tables, lv) && Fresh(m) && root in lv && lv[root] == top
    requires MapEach(m, root, top, vpn, frames, flags).Some?
    ensures var m2 := MapEach(m, root, top, vpn, frames, flags).value;
            && Levelled(m2.tables, lv2) && Fresh(m2) && Extends(lv, lv2)
            && (Unshared(m.tables, lv) ==> Unshared(m2.tables, lv2))
    decreases frames
  {
    if frames == [] {
      lv2 := lv;
    } else {
      var lv1 := MapKeeps(m, root, top, vpn, frames[0], flags, lv);
      var m1 := MapInto(m, root, top, vpn, frames[0], flags).value;
      lv2 := MapEachKeeps(m1, root, top, vpn + 1, frames[1..], flags, lv1);
    }
  }
}
