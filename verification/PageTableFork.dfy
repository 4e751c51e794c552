/** fork_pml4 and free_pml4 of kernel/src/mm/virt.rs. A table of the parent is copied entry by entry;
    entries from `half` on are copied as they are (the shared kernel half of a root, where `half` is 256;
    in every other table `half` is 512). A huge page is a leaf. */
module PageTableFork {
  import opened Basics
  import opened PageTableModel
  import opened PageTableViews

  const REF_MAX: nat := 0xFFFF

  predicate BecomesCow(e: Pte) { e.flags.writable && e.flags.user }

  // A writable user page becomes read-only copy-on-write in the child.
  function CowOf(e: Pte): Pte {
    if BecomesCow(e) then e.(flags := e.flags.(writable := false, cow := true)) else e
  }

  // ref_page: a saturating increment of a tracked page's count.
  function Ref(refs: seq<nat>, frame: nat): seq<nat> {
    if frame < |refs| then refs[frame := Saturate(refs[frame] + 1)] else refs
  }

  function Saturate(n: nat): nat { if n < REF_MAX then n else REF_MAX }

  // copy_table_recursive (and fork_pml4, which is the same walk with a shared half); None is
  // out of memory.
  function CopyTable(m: Memory, src: nat, level: nat, half: nat): Option<(Memory, nat)>
    decreases level, ENTRIES + 1
  {
    if m.supply == [] then None else
    var page := m.supply[0];
    match CopyFrom(m.(tables := m.tables[page := Zeroed()], supply := m.supply[1..]), src, page, level, half, 0)
    case None => None
    case Some(m1) => Some((m1, page))
  }

  function CopyFrom(m: Memory, src: nat, dst: nat, level: nat, half: nat, i: nat): Option<Memory>
    requires i <= ENTRIES
    decreases level, ENTRIES - i
  {
    if i == ENTRIES then Some(m) else
    var e := Entry(m.tables, src, i);
    if !e.flags.present then CopyFrom(m, src, dst, level, half, i + 1)
    else if i >= half then CopyFrom(m.(tables := Write(m.tables, dst, i, e)), src, dst, level, half, i + 1)
    else if level == 0 || e.flags.huge then
      CopyFrom(m.(tables := Write(m.tables, dst, i, CowOf(e)),
                  refs := if BecomesCow(e) then Ref(m.refs, e.frame) else m.refs), src, dst, level, half, i + 1)
    else
      match CopyTable(m, e.frame, level - 1, ENTRIES)
      case None => None
      case Some((m1, c)) =>
        CopyFrom(m1.(tables := Write(m1.tables, dst, i, Pte(c, MaskFlags(e.flags)))), src, dst, level, half, i + 1)
  }

  // free_table_recursive (and free_pml4, with `half` 256): children first, then the table.
  function FreeFrom(m: Memory, t: nat, level: nat, half: nat, i: nat): Memory
    requires i <= half
    decreases level, half - i
  {
    if i == half then m.(tables := m.tables - {t}, freed := m.freed + [t]) else
    var e := Entry(m.tables, t, i);
    if Linked(e) && level > 0
    then FreeFrom(FreeFrom(m, e.frame, level - 1, ENTRIES, 0), t, level, half, i + 1)
    else FreeFrom(m, t, level, half, i + 1)
  }

  // -- What the source tree holds ------------------------------------------------

  // Tables a copy of entries from `i` on needs.
  function SizeFrom(s: Tables, src: nat, level: nat, half: nat, i: nat): nat
    requires i <= ENTRIES
    decreases level, ENTRIES - i
  {
    if i == ENTRIES then 0 else
    var e := Entry(s, src, i);
    (if Linked(e) && i < half && level > 0 then 1 + SizeFrom(s, e.frame, level - 1, ENTRIES, 0) else 0)
    + SizeFrom(s, src, level, half, i + 1)
  }

  // Leaf entries, from `i` on, that become copy-on-write and map frame `f` or the huge page there.
  function CowLeaves(s: Tables, src: nat, level: nat, half: nat, i: nat, f: nat): nat
    requires i <= ENTRIES
    decreases level, ENTRIES - i
  {
    if i == ENTRIES then 0 else
    var e := Entry(s, src, i);
    (if !e.flags.present || i >= half then 0
     else if level == 0 || e.flags.huge then (if BecomesCow(e) && e.frame == f then 1 else 0)
     else CowLeaves(s, e.frame, level - 1, ENTRIES, 0, f))
    + CowLeaves(s, src, level, half, i + 1, f)
  }

  // -- What a copy is ---------------------------------------------------------------

  // Entries of table `d` of `t`, from `i` on, copy those of table `src` of `s`; the tables below
  // are, in the order of allocation, exactly `us`.
  ghost predicate CopyOf(s: Tables, src: nat, t: Tables, d: nat, level: nat, half: nat, i: nat, us: seq<nat>)
    requires i <= ENTRIES
    decreases level, ENTRIES - i
  {
    d in t && |t[d]| == ENTRIES &&
    if i == ENTRIES then us == [] else
    var e := Entry(s, src, i);
    if !e.flags.present then t[d][i] == EMPTY && CopyOf(s, src, t, d, level, half, i + 1, us)
    else if i >= half then t[d][i] == e && CopyOf(s, src, t, d, level, half, i + 1, us)
    else if level == 0 || e.flags.huge then t[d][i] == CowOf(e) && CopyOf(s, src, t, d, level, half, i + 1, us)
    else
      var k := 1 + SizeFrom(s, e.frame, level - 1, ENTRIES, 0);
      && k <= |us| && t[d][i] == Pte(us[0], MaskFlags(e.flags))
      && CopyOf(s, e.frame, t, us[0], level - 1, ENTRIES, 0, us[1..k])
      && CopyOf(s, src, t, d, level, half, i + 1, us[k..])
  }

  // A copy depends only on its own tables.
  lemma {:induction false} CopyOfFrame(
      s: Tables, src: nat, t: Tables, t2: Tables, d: nat, level: nat, half: nat, i: nat, us: seq<nat>)
    requires i <= ENTRIES && CopyOf(s, src, t, d, level, half, i, us)
    requires d in t2 && |t2[d]| == ENTRIES && forall j :: i <= j < ENTRIES ==> t2[d][j] == t[d][j]
    requires forall x :: x in us ==> x in t && x in t2 && t2[x] == t[x]
    ensures CopyOf(s, src, t2, d, level, half, i, us)
    decreases level, ENTRIES - i
  {
    if i < ENTRIES {
      var e := Entry(s, src, i);
      if Linked(e) && i < half && level > 0 {
        var k := 1 + SizeFrom(s, e.frame, level - 1, ENTRIES, 0);
        assert us[0] in us;
        CopyOfFrame(s, e.frame, t, t2, us[0], level - 1, ENTRIES, 0, us[1..k]);
        CopyOfFrame(s, src, t, t2, d, level, half, i + 1, us[k..]);
      } else {
        CopyOfFrame(s, src, t, t2, d, level, half, i + 1, us);
      }
    }
  }

  // -- The copy is made ----------------------------------------------------------------

  // The tables of the parent `s` below its root, with levels `lv`, are intact in memory; counts fit
  // 16 bits.
  ghost predicate Intact(s: Tables, m: Memory, lv: map<nat, nat>) {
    && Levelled(s, lv) && Fresh(m)
    && (forall x :: x in lv ==> x in m.tables && m.tables[x] == s[x])
    && forall f :: 0 <= f < |m.refs| ==> m.refs[f] <= REF_MAX
  }

  // The table to be copied is intact in memory, and below `half` it points at tables of the parent.
  // What it points at from `half` on does not matter.
  ghost predicate Source(s: Tables, m: Memory, lv: map<nat, nat>, src: nat, level: nat, half: nat) {
    && src in s && |s[src]| == ENTRIES && src in m.tables && m.tables[src] == s[src]
    && (level > 0 ==> forall i {:trigger Below(s[src][i], lv, level - 1)} ::
          0 <= i < ENTRIES && i < half && Linked(s[src][i]) ==> Below(s[src][i], lv, level - 1))
  }

  // From `m` to `m2` the first `k` pages were taken, tables other than `dst` are as before, and
  // each count rose by the number of copy-on-write entries `cows`.
  ghost predicate Took(m: Memory, m2: Memory, dst: nat, k: nat) {
    && k <= |m.supply| && m2.supply == m.supply[k..] && m2.freed == m.freed && |m2.refs| == |m.refs|
    && (forall x :: x in m2.tables <==> x in m.tables || x in m.supply[..k])
    && (forall x :: x in m.tables && x != dst ==> m2.tables[x] == m.tables[x])
  }

  ghost predicate Counted(s: Tables, m: Memory, m2: Memory, src: nat, level: nat, half: nat, i: nat)
    requires i <= ENTRIES
  {
    |m2.refs| == |m.refs| &&
    forall f: nat :: f < |m.refs| ==> m2.refs[f] == Saturate(m.refs[f] + CowLeaves(s, src, level, half, i, f))
  }

  lemma TookThen(m: Memory, m1: Memory, m2: Memory, dst: nat, j: nat, k: nat)
    requires Took(m, m1, dst, j) && Took(m1, m2, dst, k) && dst in m.tables
    ensures Took(m, m2, dst, j + k)
    ensures m.supply[..j + k] == m.supply[..j] + m1.supply[..k] && m.supply[j..j + k] == m1.supply[..k]
  {
    assert m.supply[..j + k] == m.supply[..j] + m1.supply[..k];
    assert m1.supply[k..] == m.supply[j + k..];
  }

  lemma {:induction false} CopyTableCorrect(s: Tables, m: Memory, src: nat, level: nat, half: nat, lv: map<nat, nat>)
    requires Intact(s, m, lv) && Source(s, m, lv, src, level, half)
    ensures var k := 1 + SizeFrom(s, src, level, half, 0);
            var r := CopyTable(m, src, level, half);
            && (r.Some? <==> k <= |m.supply|)
            && (r.Some? ==> && r.value.1 == m.supply[0] && Took(m, r.value.0, m.supply[0], k)
                            && Counted(s, m, r.value.0, src, level, half, 0)
                            && CopyOf(s, src, r.value.0.tables, m.supply[0], level, half, 0, m.supply[1..k]))
    decreases level, ENTRIES + 1
  {
    if m.supply != [] {
      var page := m.supply[0];
      var m1 := m.(tables := m.tables[page := Zeroed()], supply := m.supply[1..]);
      NewCopy(s, m, m1, src, level, half, lv);
      CopyFromCorrect(s, m1, src, page, level, half, 0, lv);
      var k := SizeFrom(s, src, level, half, 0);
      if k <= |m1.supply| {
        CopyDone(m, m1, CopyTable(m, src, level, half).value.0, k);
      }
    }
  }

  // The copy's first page.
  lemma NewCopy(s: Tables, m: Memory, m1: Memory, src: nat, level: nat, half: nat, lv: map<nat, nat>)
    requires Intact(s, m, lv) && Source(s, m, lv, src, level, half) && m.supply != []
    requires m1 == m.(tables := m.tables[m.supply[0] := Zeroed()], supply := m.supply[1..])
    ensures Intact(s, m1, lv) && Source(s, m1, lv, src, level, half) && Took(m, m1, m.supply[0], 1)
    ensures m.supply[0] !in lv && m.supply[0] != src
  {
  }

  lemma CopyDone(m: Memory, m1: Memory, m2: Memory, k: nat)
    requires m.supply != [] && m1 == m.(tables := m.tables[m.supply[0] := Zeroed()], supply := m.supply[1..])
    requires Fresh(m) && Took(m1, m2, m.supply[0], k)
    ensures Took(m, m2, m.supply[0], 1 + k) && m.supply[1..1 + k] == m1.supply[..k]
  {
    assert m.supply[..1 + k] == [m.supply[0]] + m1.supply[..k];
    assert m1.supply[k..] == m.supply[1 + k..];
  }

  ghost predicate CopyPost(s: Tables, m: Memory, r: Option<Memory>, src: nat, dst: nat, level: nat, half: nat, i: nat)
    requires i <= ENTRIES && dst in m.tables && |m.tables[dst]| == ENTRIES
  {
    var k := SizeFrom(s, src, level, half, i);
    && (r.Some? <==> k <= |m.supply|)
    && (r.Some? ==> && Took(m, r.value, dst, k) && Counted(s, m, r.value, src, level, half, i)
                    && CopyOf(s, src, r.value.tables, dst, level, half, i, m.supply[..k])
                    && forall j :: 0 <= j < i ==> r.value.tables[dst][j] == m.tables[dst][j])
  }

  lemma {:induction false} CopyFromCorrect(
    s: Tables, m: Memory, src: nat, dst: nat, level: nat, half: nat, i: nat, lv: map<nat, nat>)
    requires i <= ENTRIES && Intact(s, m, lv) && Source(s, m, lv, src, level, half)
    requires dst in m.tables && |m.tables[dst]| == ENTRIES && dst !in lv && dst != src
    requires forall j :: i <= j < ENTRIES ==> m.tables[dst][j] == EMPTY
    ensures CopyPost(s, m, CopyFrom(m, src, dst, level, half, i), src, dst, level, half, i)
    decreases level, ENTRIES - i
  {
    if i == ENTRIES {
    } else {
      var e := s[src][i];
      assert Entry(m.tables, src, i) == e == Entry(s, src, i);
      if !e.flags.present {
        CopyFromCorrect(s, m, src, dst, level, half, i + 1, lv);
        CopyAbsent(s, m, src, dst, level, half, i);
      } else if i >= half || level == 0 || e.flags.huge {
        var m1 := WithEntry(m, dst, i, e, half);
        EntryKeepsIntact(s, m, dst, i, e, half, lv);
        CopyFromCorrect(s, m1, src, dst, level, half, i + 1, lv);
        CopyEntry(s, m, m1, src, dst, level, half, i);
      } else {
        assert Below(e, lv, level - 1);
        CopyTableCorrect(s, m, e.frame, level - 1, ENTRIES, lv);
        var child := CopyTable(m, e.frame, level - 1, ENTRIES);
        if child.Some? {
          var m1 := WithChild(child.value.0, dst, i, child.value.1, e);
          ChildTook(s, m, child.value.0, m1, e, dst, level, i, lv);
          CopyFromCorrect(s, m1, src, dst, level, half, i + 1, lv);
        }
        CopyChild(s, m, src, dst, level, half, i);
      }
    }
  }

  function WithEntry(m: Memory, dst: nat, i: nat, e: Pte, half: nat): Memory {
    if i < half
    then m.(tables := Write(m.tables, dst, i, CowOf(e)), refs := if BecomesCow(e) then Ref(m.refs, e.frame) else m.refs)
    else m.(tables := Write(m.tables, dst, i, e))
  }

  function WithChild(m0: Memory, dst: nat, i: nat, c: nat, e: Pte): Memory {
    m0.(tables := Write(m0.tables, dst, i, Pte(c, MaskFlags(e.flags))))
  }

  lemma CopyAbsent(s: Tables, m: Memory, src: nat, dst: nat, level: nat, half: nat, i: nat)
    requires i < ENTRIES && dst in m.tables && |m.tables[dst]| == ENTRIES && m.tables[dst][i] == EMPTY
    requires !Entry(s, src, i).flags.present && Entry(m.tables, src, i) == Entry(s, src, i)
    requires CopyPost(s, m, CopyFrom(m, src, dst, level, half, i + 1), src, dst, level, half, i + 1)
    ensures CopyPost(s, m, CopyFrom(m, src, dst, level, half, i), src, dst, level, half, i)
  {
    var r := CopyFrom(m, src, dst, level, half, i);
    if r.Some? {
      assert r.value.tables[dst][i] == EMPTY;
      assert forall f: nat :: CowLeaves(s, src, level, half, i, f) == CowLeaves(s, src, level, half, i + 1, f);
    }
  }

  lemma EntryKeepsIntact(s: Tables, m: Memory, dst: nat, i: nat, e: Pte, half: nat, lv: map<nat, nat>)
    requires Intact(s, m, lv) && dst in m.tables && |m.tables[dst]| == ENTRIES && dst !in lv && i < ENTRIES
    ensures Intact(s, WithEntry(m, dst, i, e, half), lv)
  {
  }

  // One entry that is not a table of its own to copy.
  lemma CopyEntry(s: Tables, m: Memory, m1: Memory, src: nat, dst: nat, level: nat, half: nat, i: nat)
    requires i < ENTRIES && dst in m.tables && |m.tables[dst]| == ENTRIES
    requires var e := Entry(s, src, i);
             && e.flags.present && (i >= half || level == 0 || e.flags.huge) && Entry(m.tables, src, i) == e
             && m1 == WithEntry(m, dst, i, e, half)
    requires CopyPost(s, m1, CopyFrom(m1, src, dst, level, half, i + 1), src, dst, level, half, i + 1)
    ensures CopyPost(s, m, CopyFrom(m, src, dst, level, half, i), src, dst, level, half, i)
  {
    var r := CopyFrom(m, src, dst, level, half, i);
    assert r == CopyFrom(m1, src, dst, level, half, i + 1);
    if r.Some? {
      var k := SizeFrom(s, src, level, half, i);
      assert r.value.tables[dst][i] == m1.tables[dst][i];
      assert CopyOf(s, src, r.value.tables, dst, level, half, i, m.supply[..k]);
      assert Counted(s, m, r.value, src, level, half, i);
    }
  }

  // What copying a child table and pointing an entry at it leaves.
  lemma ChildTook(s: Tables, m: Memory, m0: Memory, m1: Memory, e: Pte, dst: nat, level: nat, i: nat, lv: map<nat, nat>)
    requires level > 0 && i < ENTRIES && Intact(s, m, lv) && m.supply != []
    requires dst in m.tables && |m.tables[dst]| == ENTRIES && dst !in lv
    requires Took(m, m0, m.supply[0], 1 + SizeFrom(s, e.frame, level - 1, ENTRIES, 0))
    requires Counted(s, m, m0, e.frame, level - 1, ENTRIES, 0)
    requires m1 == WithChild(m0, dst, i, m.supply[0], e)
    ensures Took(m, m1, dst, 1 + SizeFrom(s, e.frame, level - 1, ENTRIES, 0)) && Intact(s, m1, lv)
    ensures m1.tables[dst] == m.tables[dst][i := Pte(m.supply[0], MaskFlags(e.flags))]
  {
    assert m.supply[0] !in m.tables;
    assert m0.tables[dst] == m.tables[dst];
  }

  // One entry whose table is copied in turn.
  lemma CopyChild(s: Tables, m: Memory, src: nat, dst: nat, level: nat, half: nat, i: nat)
    requires level > 0 && i < ENTRIES && i < half && dst in m.tables && |m.tables[dst]| == ENTRIES && Fresh(m)
    requires var e := Entry(s, src, i);
             var k := 1 + SizeFrom(s, e.frame, level - 1, ENTRIES, 0);
             var child := CopyTable(m, e.frame, level - 1, ENTRIES);
             && Linked(e) && Entry(m.tables, src, i) == e
             && (child.Some? <==> k <= |m.supply|)
             && (child.Some? ==>
                   var m1 := WithChild(child.value.0, dst, i, child.value.1, e);
                   && child.value.1 == m.supply[0] && Counted(s, m, child.value.0, e.frame, level - 1, ENTRIES, 0)
                   && CopyOf(s, e.frame, child.value.0.tables, m.supply[0], level - 1, ENTRIES, 0, m.supply[1..k])
                   && Took(m, m1, dst, k) && m1.tables[dst] == m.tables[dst][i := Pte(m.supply[0], MaskFlags(e.flags))]
                   && CopyPost(s, m1, CopyFrom(m1, src, dst, level, half, i + 1), src, dst, level, half, i + 1))
    ensures CopyPost(s, m, CopyFrom(m, src, dst, level, half, i), src, dst, level, half, i)
  {
    var e := Entry(s, src, i);
    var j := 1 + SizeFrom(s, e.frame, level - 1, ENTRIES, 0);
    var child := CopyTable(m, e.frame, level - 1, ENTRIES);
    if child.Some? {
      var m0 := child.value.0;
      var m1 := WithChild(m0, dst, i, child.value.1, e);
      var r := CopyFrom(m1, src, dst, level, half, i + 1);
      var k := SizeFrom(s, src, level, half, i + 1);
      assert SizeFrom(s, src, level, half, i) == j + k;
      if r.Some? {
        TookThen(m, m1, r.value, dst, j, k);
        ChildSurvives(s, m, m0, m1, r.value, e, dst, level, i, j, k);
        ChildCounted(s, m, m0, m1, r.value, src, level, half, i);
        assert r.value.tables[dst][i] == m1.tables[dst][i];
        ChildThenRest(s, src, r.value.tables, dst, level, half, i, m.supply[..j + k], j, m.supply, m1.supply);
      }
    }
  }

  // A child's copy followed by the copy of the entries after it.
  lemma ChildThenRest(
      s: Tables, src: nat, t: Tables, dst: nat, level: nat, half: nat, i: nat, us: seq<nat>, j: nat, all: seq<nat>,
      rest: seq<nat>)
    requires level > 0 && i < ENTRIES && i < half && dst in t && |t[dst]| == ENTRIES && Linked(Entry(s, src, i))
    requires j == 1 + SizeFrom(s, Entry(s, src, i).frame, level - 1, ENTRIES, 0) <= |us| <= |all| && us == all[..|us|]
    requires |us| - j <= |rest| && all[j..|us|] == rest[..|us| - j]
    requires t[dst][i] == Pte(all[0], MaskFlags(Entry(s, src, i).flags))
    requires CopyOf(s, Entry(s, src, i).frame, t, all[0], level - 1, ENTRIES, 0, all[1..j])
    requires CopyOf(s, src, t, dst, level, half, i + 1, rest[..|us| - j])
    ensures CopyOf(s, src, t, dst, level, half, i, us)
  {
    assert us[0] == all[0] && us[1..j] == all[1..j] && us[j..] == rest[..|us| - j];
  }

  lemma ChildCounted(s: Tables, m: Memory, m0: Memory, m1: Memory, m2: Memory, src: nat, level: nat, half: nat, i: nat)
    requires level > 0 && i < ENTRIES && i < half && Linked(Entry(s, src, i)) && m1.refs == m0.refs
    requires Counted(s, m, m0, Entry(s, src, i).frame, level - 1, ENTRIES, 0)
    requires Counted(s, m1, m2, src, level, half, i + 1)
    ensures Counted(s, m, m2, src, level, half, i)
  {
  }

  // The child's copy is untouched by the rest of the loop.
  lemma ChildSurvives(
      s: Tables, m: Memory, m0: Memory, m1: Memory, m2: Memory, e: Pte, dst: nat, level: nat, i: nat, j: nat, k: nat)
    requires level > 0 && i < ENTRIES && Fresh(m) && dst in m.tables && 0 < j <= |m.supply|
    requires CopyOf(s, e.frame, m0.tables, m.supply[0], level - 1, ENTRIES, 0, m.supply[1..j])
    requires m1 == WithChild(m0, dst, i, m.supply[0], e) && Took(m, m1, dst, j) && Took(m1, m2, dst, k)
    ensures CopyOf(s, e.frame, m2.tables, m.supply[0], level - 1, ENTRIES, 0, m.supply[1..j])
  {
    forall x | x in m.supply[..j]
      ensures x in m0.tables && x in m2.tables && m2.tables[x] == m0.tables[x]
    {
      assert x in m1.tables && x !in m.tables;
    }
    assert m.supply[0] in m.supply[..j];
    assert forall x :: x in m.supply[1..j] ==> x in m.supply[..j];
    CopyOfFrame(s, e.frame, m0.tables, m2.tables, m.supply[0], level - 1, ENTRIES, 0, m.supply[1..j]);
  }

  // -- Freeing a copy ---------------------------------------------------------------------

  ghost predicate Distinct(us: seq<nat>) {
    forall i, j :: 0 <= i < j < |us| ==> us[i] != us[j]
  }

  // `m2` is `m` without the tables `gone`, which went to free_page in some order.
  ghost predicate Freed(m: Memory, m2: Memory, gone: seq<nat>) {
    && (forall x :: x in m2.tables <==> x in m.tables && x !in gone)
    && (forall x :: x in m2.tables ==> m2.tables[x] == m.tables[x])
    && multiset(m2.freed) == multiset(m.freed) + multiset(gone)
    && m2.supply == m.supply && m2.refs == m.refs
  }

  lemma {:induction false} SharedHalfOwnsNothing(
      s: Tables, src: nat, t: Tables, d: nat, level: nat, half: nat, i: nat, us: seq<nat>)
    requires half <= i <= ENTRIES && CopyOf(s, src, t, d, level, half, i, us)
    ensures us == []
    decreases ENTRIES - i
  {
    if i < ENTRIES {
      SharedHalfOwnsNothing(s, src, t, d, level, half, i + 1, us);
    }
  }

  lemma {:induction false} FreeCopy(s: Tables, src: nat, m: Memory, d: nat, level: nat, half: nat, i: nat, us: seq<nat>)
    requires i <= half <= ENTRIES && CopyOf(s, src, m.tables, d, level, half, i, us)
    requires Distinct([d] + us) && forall x :: x in us ==> x in m.tables
    ensures Freed(m, FreeFrom(m, d, level, half, i), us + [d])
    decreases level, half - i
  {
    if i == half {
      SharedHalfOwnsNothing(s, src, m.tables, d, level, half, i, us);
      assert us + [d] == [d];
    } else {
      var e := Entry(s, src, i);
      assert level > 0 ==> Linked(m.tables[d][i]) == Linked(e);
      if Linked(e) && level > 0 {
        var k := 1 + SizeFrom(s, e.frame, level - 1, ENTRIES, 0);
        var c, below, rest := us[0], us[1..k], us[k..];
        DistinctParts(d, us, k);
        FreeCopy(s, e.frame, m, c, level - 1, ENTRIES, 0, below);
        var m1 := FreeFrom(m, c, level - 1, ENTRIES, 0);
        CopyOfFrame(s, src, m.tables, m1.tables, d, level, half, i + 1, rest);
        FreeCopy(s, src, m1, d, level, half, i + 1, rest);
        FreedThen(m, m1, FreeFrom(m, d, level, half, i), c, below, rest, d, us);
      } else {
        FreeCopy(s, src, m, d, level, half, i + 1, us);
      }
    }
  }

  lemma DistinctParts(d: nat, us: seq<nat>, k: nat)
    requires Distinct([d] + us) && 0 < k <= |us|
    ensures Distinct([us[0]] + us[1..k]) && Distinct([d] + us[k..]) && d !in us
    ensures forall x :: x in us[k..] ==> x !in us[..k]
    ensures us[..k] == [us[0]] + us[1..k]
  {
    var all := [d] + us;
    assert forall j :: 0 <= j < |us| ==> us[j] == all[j + 1] != all[0];
    forall i, j | 0 <= i < j < |us|
      ensures us[i] != us[j]
    {
      assert all[i + 1] != all[j + 1];
    }
  }

  lemma FreedThen(m: Memory, m1: Memory, m2: Memory, c: nat, below: seq<nat>, rest: seq<nat>, d: nat, us: seq<nat>)
    requires us == [c] + below + rest
    requires Freed(m, m1, below + [c]) && Freed(m1, m2, rest + [d])
    ensures Freed(m, m2, us + [d])
  {
    assert multiset(us + [d]) == multiset(below + [c]) + multiset(rest + [d]) by {
      assert us + [d] == [c] + below + (rest + [d]);
    }
  }

  // -- What the child sees -------------------------------------------------------------------

  function CowView(v: Option<Pte>): Option<Pte> {
    match v
    case None => None
    case Some(e) => Some(CowOf(e))
  }

  // Entry `j` of a copy.
  lemma {:induction false} CopyOfAt(
      s: Tables, src: nat, t: Tables, d: nat, level: nat, half: nat, i: nat, us: seq<nat>, j: nat)
    returns (own: seq<nat>)
    requires i <= j < ENTRIES && CopyOf(s, src, t, d, level, half, i, us)
    ensures var e := Entry(s, src, j);
            && d in t && |t[d]| == ENTRIES
            && (if !e.flags.present then t[d][j] == EMPTY
                else if j >= half then t[d][j] == e
                else if level == 0 || e.flags.huge then t[d][j] == CowOf(e)
                else && own != [] && t[d][j] == Pte(own[0], MaskFlags(e.flags))
                     && CopyOf(s, e.frame, t, own[0], level - 1, ENTRIES, 0, own[1..])
                     && forall x :: x in own ==> x in us)
    decreases j - i
  {
    var e := Entry(s, src, i);
    var k := if Linked(e) && i < half && level > 0 then 1 + SizeFrom(s, e.frame, level - 1, ENTRIES, 0) else 0;
    if i == j {
      own := us[..k];
      assert k > 0 ==> own[1..] == us[1..k];
    } else {
      assert us[0..] == us;
      own := CopyOfAt(s, src, t, d, level, half, i + 1, us[k..], j);
    }
  }

  // Through a copy every page of the copied range looks as it does through the source, with
  // writable user pages turned copy-on-write.
  lemma {:induction false} CopyShows(
      s: Tables, src: nat, t: Tables, d: nat, level: nat, half: nat, us: seq<nat>, vpn: nat)
    requires CopyOf(s, src, t, d, level, half, 0, us) && Digit(vpn, level) < half <= ENTRIES
    ensures View(t, d, level, vpn) == CowView(View(s, src, level, vpn))
    decreases level
  {
    var e := Entry(s, src, Digit(vpn, level));
    var own := CopyOfAt(s, src, t, d, level, half, 0, us, Digit(vpn, level));
    if level > 0 && Linked(e) {
      DigitBound(vpn, level - 1);
      CopyShows(s, e.frame, t, own[0], level - 1, ENTRIES, own[1..], vpn);
    }
  }

  // The table of the given level on the path of `vpn`.
  function TableAt(tables: Tables, t: nat, level: nat, vpn: nat, at: nat): Option<nat>
    decreases level
  {
    if level <= at then Some(t) else
    var e := Entry(tables, t, Digit(vpn, level));
    if Linked(e) then TableAt(tables, e.frame, level - 1, vpn, at) else None
  }

  // Every table a page of the copied range goes through is one of the copy's own.
  lemma {:induction false} CopyOwnsItsTables(
      s: Tables, src: nat, t: Tables, d: nat, level: nat, half: nat, us: seq<nat>, vpn: nat, at: nat)
    requires CopyOf(s, src, t, d, level, half, 0, us) && Digit(vpn, level) < half <= ENTRIES
    ensures TableAt(t, d, level, vpn, at).Some? ==> TableAt(t, d, level, vpn, at).value in [d] + us
    decreases level
  {
    if level > at {
      var e := Entry(s, src, Digit(vpn, level));
      var own := CopyOfAt(s, src, t, d, level, half, 0, us, Digit(vpn, level));
      if Linked(e) {
        DigitBound(vpn, level - 1);
        CopyOwnsItsTables(s, e.frame, t, own[0], level - 1, ENTRIES, own[1..], vpn, at);
        assert [own[0]] + own[1..] == own;
      }
    }
  }

  // -- fork_pml4 and free_pml4 ----------------------------------------------------------------

  // For a root `level` is TOP and `half` is 256; the claims hold for a copy of any table.

  function CopySize(s: Tables, src: nat, level: nat, half: nat): nat { 1 + SizeFrom(s, src, level, half, 0) }

  // A fork fails only for want of pages, takes exactly CopySize of them, leaves the parent alone,
  // copies the shared half entry by entry, and raises each tracked page's count by its number
  // of copy-on-write entries, saturating.
  lemma ForkCorrect(m: Memory, root: nat, level: nat, half: nat, lv: map<nat, nat>)
    requires Intact(m.tables, m, lv) && Source(m.tables, m, lv, root, level, half)
    ensures var r := CopyTable(m, root, level, half);
            var k := CopySize(m.tables, root, level, half);
            && (r.None? <==> |m.supply| < k)
            && (r.Some? ==>
                  var (m2, child) := r.value;
                  && child == m.supply[0] && m2.supply == m.supply[k..] && m2.freed == m.freed
                  && Counted(m.tables, m, m2, root, level, half, 0)
                  && (forall x :: x in m.tables ==> x in m2.tables && m2.tables[x] == m.tables[x])
                  && (forall i :: half <= i < ENTRIES ==>
                        Entry(m2.tables, child, i) ==
                        if m.tables[root][i].flags.present then m.tables[root][i] else EMPTY))
  {
    CopyTableCorrect(m.tables, m, root, level, half, lv);
    if CopyTable(m, root, level, half).Some? {
      var (m2, child) := CopyTable(m, root, level, half).value;
      SharedHalf(m.tables, root, m2.tables, child, level, half, m.supply[1..CopySize(m.tables, root, level, half)]);
    }
  }

  lemma SharedHalf(s: Tables, src: nat, t: Tables, d: nat, level: nat, half: nat, us: seq<nat>)
    requires CopyOf(s, src, t, d, level, half, 0, us)
    ensures forall i :: half <= i < ENTRIES ==>
      Entry(t, d, i) == if Entry(s, src, i).flags.present then Entry(s, src, i) else EMPTY
  {
    forall i | half <= i < ENTRIES
      ensures Entry(t, d, i) == if Entry(s, src, i).flags.present then Entry(s, src, i) else EMPTY
    {
      var own := CopyOfAt(s, src, t, d, level, half, 0, us, i);
    }
  }

  lemma ParentWalk(m: Memory, m2: Memory, root: nat, level: nat, half: nat, lv: map<nat, nat>, vpn: nat)
    requires Intact(m.tables, m, lv) && Source(m.tables, m, lv, root, level, half) && Digit(vpn, level) < half
    requires forall x :: x in m.tables ==> x in m2.tables && m2.tables[x] == m.tables[x]
    ensures Walk(m2.tables, root, level, vpn) == Walk(m.tables, root, level, vpn)
  {
    var e := Entry(m.tables, root, Digit(vpn, level));
    DigitBound(vpn, level);
    if level > 0 && Linked(e) {
      assert Below(m.tables[root][Digit(vpn, level)], lv, level - 1);
      WalkFrame(m.tables, m2.tables, e.frame, level - 1, vpn, lv);
    }
  }

  // Every page below `half` is seen by the child as by the parent, writable user pages read-only
  // and copy-on-write, through tables none of which the parent had.
  lemma ForkedPage(m: Memory, root: nat, level: nat, half: nat, lv: map<nat, nat>, vpn: nat, at: nat)
    requires Intact(m.tables, m, lv) && Source(m.tables, m, lv, root, level, half)
    requires CopyTable(m, root, level, half).Some? && Digit(vpn, level) < half <= ENTRIES
    ensures var (m2, child) := CopyTable(m, root, level, half).value;
            && View(m2.tables, child, level, vpn) == CowView(View(m.tables, root, level, vpn))
            && View(m2.tables, root, level, vpn) == View(m.tables, root, level, vpn)
            && (TableAt(m2.tables, child, level, vpn, at).Some? ==>
                  TableAt(m2.tables, child, level, vpn, at).value !in m.tables)
  {
    CopyTableCorrect(m.tables, m, root, level, half, lv);
    var (m2, child) := CopyTable(m, root, level, half).value;
    var us := m.supply[1..CopySize(m.tables, root, level, half)];
    CopyShows(m.tables, root, m2.tables, child, level, half, us, vpn);
    ParentWalk(m, m2, root, level, half, lv, vpn);
    CopyOwnsItsTables(m.tables, root, m2.tables, child, level, half, us, vpn, at);
    assert forall x :: x in [child] + us ==> x in m.supply;
  }

  // Freeing a fresh child gives back exactly the pages the fork took and restores the tables.
  lemma ForkThenFree(m: Memory, root: nat, level: nat, half: nat, lv: map<nat, nat>)
    requires Intact(m.tables, m, lv) && Source(m.tables, m, lv, root, level, half)
    requires CopyTable(m, root, level, half).Some? && half <= ENTRIES
    ensures var (m2, child) := CopyTable(m, root, level, half).value;
            var m3 := FreeFrom(m2, child, level, half, 0);
            var k := CopySize(m.tables, root, level, half);
            && m3.tables == m.tables && k <= |m.supply|
            && multiset(m3.freed) == multiset(m.freed) + multiset(m.supply[..k])
  {
    CopyTableCorrect(m.tables, m, root, level, half, lv);
    var (m2, child) := CopyTable(m, root, level, half).value;
    var k := CopySize(m.tables, root, level, half);
    var us := m.supply[1..k];
    assert m.supply[..k] == [child] + us;
    FreeCopy(m.tables, root, m2, child, level, half, 0, us);
    FreedExactly(m, m2, FreeFrom(m2, child, level, half, 0), child, k);
  }

  lemma FreedExactly(m: Memory, m2: Memory, m3: Memory, child: nat, k: nat)
    requires 0 < k <= |m.supply| && child == m.supply[0] && Fresh(m)
    requires Took(m, m2, child, k) && Freed(m2, m3, m.supply[1..k] + [child])
    ensures m3.tables == m.tables && multiset(m3.freed) == multiset(m.freed) + multiset(m.supply[..k])
  {
    var took := m.supply[..k];
    Rotated(took);
    assert took[1..] == m.supply[1..k];
    assert forall x :: x in took ==> x !in m.tables;
    assert m3.tables.Keys == m.tables.Keys;
  }

  lemma Rotated(us: seq<nat>)
    requires us != []
    ensures multiset(us[1..] + [us[0]]) == multiset(us)
    ensures forall x :: x in us[1..] + [us[0]] <==> x in us
  {
    assert us == [us[0]] + us[1..];
    assert forall x :: x in us[1..] + [us[0]] <==> x in multiset(us[1..] + [us[0]]);
  }
}
