/** The page-table routines of kernel/src/mm/virt.rs as they run: 512-entry tables overwritten in
    place, each routine proved to do what its function on memory says. `ok` is false where the
    kernel would panic for want of a page. */
module PageTables {
  import opened Basics
  import opened PageTableModel
  import opened PageTableViews
  import opened PageTableSplit
  import opened PageTableFork

  // frame, frame + 1, ..., frame + n - 1
  function Run(frame: nat, n: nat): (r: seq<nat>)
    ensures |r| == n && forall i :: 0 <= i < n ==> r[i] == frame + i
  {
    seq(n, i => frame + i)
  }

  // Mapping the frames from the `i`-th on is mapping that one and then the rest.
  lemma MapEachFirst(m: Memory, root: nat, top: nat, vpn: nat, frames: seq<nat>, i: nat, flags: Flags)
    requires i < |frames|
    ensures var r := MapInto(m, root, top, vpn, frames[i], flags);
      MapEach(m, root, top, vpn, frames[i..], flags)
      == if r == None then None else MapEach(r.value, root, top, vpn + 1, frames[i + 1..], flags)
  {
    assert frames[i..][1..] == frames[i + 1..];
  }

  // Mapping a run of pages is one batch and then the rest.
  lemma MapTurn(
      m: Memory, root: nat, top: nat, vpn: nat, frame: nat, batch: nat, n: nat, flags: Flags, lv: map<nat, nat>)
    returns (lv2: map<nat, nat>)
    requires Levelled(m.tables, lv) && Fresh(m) && root in lv && lv[root] == top
    requires 0 < batch <= n && batch <= ENTRIES - vpn % ENTRIES
    ensures var r := MapBatch(m, root, top, vpn, Run(frame, batch), flags);
      && MapEach(m, root, top, vpn, Run(frame, n), flags) ==
         (match r
          case None => None
          case Some(m1) => MapEach(m1, root, top, vpn + batch, Run(frame + batch, n - batch), flags))
      && (r.Some? ==>
            Levelled(r.value.tables, lv2) && Fresh(r.value) && root in lv2 && lv2[root] == top)
  {
    var now, later := Run(frame, batch), Run(frame + batch, n - batch);
    assert Run(frame, n) == now + later;
    MapEachSplits(m, root, top, vpn, now, later, flags);
    BatchIsEach(m, root, top, vpn, now, flags, lv);
    lv2 := lv;
    var r := MapEach(m, root, top, vpn, now, flags);
    if r.Some? {
      lv2 := MapEachKeeps(m, root, top, vpn, now, flags, lv);
    }
  }

  class Mmu {
    var tables: Tables
    var supply: seq<nat>
    var freed: seq<nat>
    var refs: seq<nat>
    const top: nat  // level of a root: 3 for the four levels of long mode

    ghost function State(): Memory
      reads this
    {
      Memory(tables, supply, freed, refs)
    }

    method WriteEntry(t: nat, i: nat, e: Pte)
      modifies this`tables
      ensures tables == Write(old(tables), t, i, e)
    {
      if t in tables && i < |tables[t]| {
        tables := tables[t := tables[t][i := e]];
      }
    }

    method AllocPage() returns (r: Option<nat>)
      modifies this`supply
      ensures old(supply) == [] ==> r.None? && supply == []
      ensures old(supply) != [] ==> r == Some(old(supply)[0]) && supply == old(supply)[1..]
    {
      if supply == [] {
        return None;
      }
      r := Some(supply[0]);
      supply := supply[1..];
    }

    method FreePage(t: nat)
      modifies this`tables, this`freed
      ensures tables == old(tables) - {t} && freed == old(freed) + [t]
    {
      tables := tables - {t};
      freed := freed + [t];
    }

    method EnsureTable(t: nat, i: nat, flags: Flags) returns (ok: bool)
      modifies this`tables, this`supply
      ensures ok == Ensure(old(State()), t, i, flags).Some?
      ensures ok ==> State() == Ensure(old(State()), t, i, flags).value
      ensures !ok ==> State() == old(State()) && supply == []
    {
      var e := Entry(tables, t, i);
      if !e.flags.present || e.flags.huge {
        var page := AllocPage();
        if page.None? {
          return false;
        }
        tables := tables[page.value := if e.flags.present then SplitOf(e) else Zeroed()];
        WriteEntry(t, i, Pte(page.value, flags.(present := true)));
      }
      return true;
    }

    // What the walk of map_page gives from table `t` on.
    ghost predicate Gives(t: nat, level: nat, vpn: nat, flags: Flags, goal: Option<(Memory, nat)>)
      reads this
    {
      goal == Descend(State(), t, level, vpn, flags)
    }

    // One level of that walk: make the table below, pass USER on, step into it.
    method EnterTable(t: nat, level: nat, vpn: nat, flags: Flags, ghost goal: Option<(Memory, nat)>)
      returns (ok: bool, below: nat)
      requires level > 0 && Gives(t, level, vpn, flags, goal)
      modifies this`tables, this`supply
      ensures !ok ==> goal == None && supply == []
      ensures ok ==> Gives(below, level - 1, vpn, flags, goal)
    {
      var d := Digit(vpn, level);
      ok := EnsureTable(t, d, TableFlags(flags));
      below := 0;
      if ok {
        below := Entry(tables, t, d).frame;
        WriteEntry(t, d, WithUser(Entry(tables, t, d), flags));
      }
    }

    // The whole walk.
    method WalkDown(root: nat, vpn: nat, flags: Flags, ghost goal: Option<(Memory, nat)>) returns (ok: bool, pt: nat)
      requires Gives(root, top, vpn, flags, goal)
      modifies this`tables, this`supply
      ensures if ok then goal == Some((State(), pt)) else goal == None && supply == []
    {
      ok, pt := true, root;
      var level := top;
      while level > 0 && ok
        invariant if ok then Gives(pt, level, vpn, flags, goal) else goal == None && supply == []
      {
        ok, pt := EnterTable(pt, level, vpn, flags, goal);
        level := level - 1;
      }
    }

    method EnsurePath(root: nat, vpn: nat, flags: Flags) returns (ok: bool, pt: nat)
      modifies this`tables, this`supply
      ensures ok == Descend(old(State()), root, top, vpn, flags).Some?
      ensures ok ==> Descend(old(State()), root, top, vpn, flags) == Some((State(), pt))
      ensures !ok ==> supply == []
    {
      ghost var goal := Descend(State(), root, top, vpn, flags);
      ok, pt := WalkDown(root, vpn, flags, goal);
    }

    method MapPage(root: nat, vpn: nat, frame: nat, flags: Flags) returns (ok: bool)
      modifies this`tables, this`supply
      ensures ok == MapInto(old(State()), root, top, vpn, frame, flags).Some?
      ensures ok ==> State() == MapInto(old(State()), root, top, vpn, frame, flags).value
      ensures !ok ==> supply == []
    {
      var pt;
      ok, pt := EnsurePath(root, vpn, flags);
      if ok {
        WriteEntry(pt, Digit(vpn, 0), Pte(frame, flags));
      }
    }

    method MapPagesFromPhys(root: nat, vpn: nat, frames: seq<nat>, flags: Flags) returns (ok: bool)
      modifies this`tables, this`supply
      ensures ok == MapEach(old(State()), root, top, vpn, frames, flags).Some?
      ensures ok ==> State() == MapEach(old(State()), root, top, vpn, frames, flags).value
      ensures !ok ==> supply == []
    {
      ghost var goal := MapEach(State(), root, top, vpn, frames, flags);
      ok := true;
      var i := 0;
      while i < |frames|
        invariant ok && i <= |frames| && goal == MapEach(State(), root, top, vpn + i, frames[i..], flags)
      {
        ok := MapNext(root, vpn + i, frames, i, flags, goal);
        if !ok {
          return;
        }
        i := i + 1;
      }
    }

    // One turn of that loop.
    method MapNext(root: nat, vpn: nat, frames: seq<nat>, i: nat, flags: Flags, ghost goal: Option<Memory>)
      returns (ok: bool)
      requires i < |frames| && goal == MapEach(State(), root, top, vpn, frames[i..], flags)
      modifies this`tables, this`supply
      ensures ok ==> goal == MapEach(State(), root, top, vpn + 1, frames[i + 1..], flags)
      ensures !ok ==> goal == None && supply == []
    {
      MapEachFirst(State(), root, top, vpn, frames, i, flags);
      ok := MapPage(root, vpn, frames[i], flags);
    }

    // Walks to each last-level table once and fills a run of its entries; the result is that of
    // mapping the pages one at a time, down to which page became which table.
    method MapContiguous(root: nat, vpn: nat, frame: nat, n: nat, flags: Flags, ghost lv: map<nat, nat>)
      returns (ok: bool)
      requires Levelled(tables, lv) && Fresh(State()) && root in lv && lv[root] == top
      modifies this`tables, this`supply
      ensures ok == MapEach(old(State()), root, top, vpn, Run(frame, n), flags).Some?
      ensures ok ==> State() == MapEach(old(State()), root, top, vpn, Run(frame, n), flags).value
      ensures !ok ==> supply == []
    {
      var remaining, v, f := n, vpn, frame;
      ghost var levels: map<nat, nat> := lv;
      while remaining > 0
        invariant 0 <= remaining <= n && v == vpn + (n - remaining) && f == frame + (n - remaining)
        invariant Levelled(tables, levels) && Fresh(State()) && root in levels && levels[root] == top
        invariant MapEach(old(State()), root, top, vpn, Run(frame, n), flags)
               == MapEach(State(), root, top, v, Run(f, remaining), flags)
      {
        var i := Digit(v, 0);
        var batch := if ENTRIES - i < remaining then ENTRIES - i else remaining;
        ghost var before := State();
        ghost var grown := MapTurn(before, root, top, v, f, batch, remaining, flags, levels);
        ok := MapRun(root, v, f, batch, flags);
        if !ok {
          return;
        }
        levels := grown;
        remaining, v, f := remaining - batch, v + batch, f + batch;
      }
      ok := true;
    }

    // One turn of the outer loop of map_contiguous.
    method MapRun(root: nat, vpn: nat, frame: nat, batch: nat, flags: Flags) returns (ok: bool)
      modifies this`tables, this`supply
      ensures ok == MapBatch(old(State()), root, top, vpn, Run(frame, batch), flags).Some?
      ensures ok ==> State() == MapBatch(old(State()), root, top, vpn, Run(frame, batch), flags).value
      ensures !ok ==> supply == []
    {
      var pt;
      ok, pt := EnsurePath(root, vpn, flags);
      if ok {
        FillRun(pt, Digit(vpn, 0), frame, batch, flags);
      }
    }

    // The inner loop of map_contiguous.
    method FillRun(pt: nat, first: nat, frame: nat, batch: nat, flags: Flags)
      modifies this`tables
      ensures tables == WriteRun(old(tables), pt, first, Run(frame, batch), flags)
    {
      ghost var frames := Run(frame, batch);
      ghost var goal := WriteRun(tables, pt, first, frames, flags);
      var i := 0;
      while i < batch
        invariant i <= batch && goal == WriteRun(tables, pt, first + i, frames[i..], flags)
      {
        assert frames[i..][1..] == frames[i + 1..];
        WriteEntry(pt, first + i, Pte(frame + i, flags));
        i := i + 1;
      }
    }

    method ReadPte(root: nat, vpn: nat) returns (r: Option<Pte>)
      requires Open(tables, root, top, vpn)
      ensures r == Walk(tables, root, top, vpn)
    {
      var t, level := root, top;
      while level > 0
        invariant 0 <= level <= top && Open(tables, t, level, vpn)
        invariant Walk(tables, root, top, vpn) == Walk(tables, t, level, vpn)
      {
        var e := Entry(tables, t, Digit(vpn, level));
        if !e.flags.present {
          return None;
        }
        t, level := e.frame, level - 1;
      }
      r := Some(Entry(tables, t, Digit(vpn, 0)));
    }

    method TranslatePage(root: nat, vpn: nat) returns (r: Option<nat>)
      requires Open(tables, root, top, vpn)
      ensures r == match View(tables, root, top, vpn) case None => None case Some(e) => Some(e.frame)
    {
      var e := ReadPte(root, vpn);
      r := if e.Some? && e.value.flags.present then Some(e.value.frame) else None;
    }

    method IsTableEmpty(t: nat) returns (empty: bool)
      requires t in tables
      ensures empty == AllZero(tables[t])
    {
      var i := 0;
      while i < |tables[t]|
        invariant i <= |tables[t]| && AllZero(tables[t][..i])
      {
        if tables[t][i] != EMPTY {
          return false;
        }
        i := i + 1;
      }
      assert tables[t][..i] == tables[t];
      return true;
    }

    method UnmapPage(root: nat, vpn: nat, ghost lv: map<nat, nat>)
      requires Levelled(tables, lv) && Unshared(tables, lv) && root in lv && lv[root] == top
      requires Open(tables, root, top, vpn)
      modifies this`tables, this`freed
      ensures State() == Unmap(old(State()), root, top, vpn)
    {
      OpenPath(tables, root, top, vpn);
      var e := ReadPte(root, vpn);
      if e.Some? {
        var changed := ClearBelow(root, top, vpn, lv);
      }
    }

    // Clears the page's entry and, only where the table below went away, looks at whether the
    // next table up is now empty too.
    method ClearBelow(t: nat, level: nat, vpn: nat, ghost lv: map<nat, nat>) returns (changed: bool)
      requires Levelled(tables, lv) && Unshared(tables, lv) && t in lv && lv[t] == level
      requires Full(tables, t, level, vpn)
      modifies this`tables, this`freed
      ensures State() == Clear(old(State()), t, level, vpn)
      ensures !changed ==> level > 0 && t in tables && tables[t] == old(tables)[t]
      decreases level
    {
      var d := Digit(vpn, level);
      DigitBound(vpn, level);
      if level == 0 {
        WriteEntry(t, d, EMPTY);
        return true;
      }
      ghost var m1, c := ClearStep(State(), t, level, vpn, lv);
      var child := Entry(tables, t, d).frame;
      var below := ClearBelow(child, level - 1, vpn, lv);
      var empty := false;
      if below {
        empty := IsTableEmpty(child);
      } else {
        assert tables[child][Digit(vpn, level - 1)].flags.present;
      }
      if empty {
        FreePage(child);
        WriteEntry(t, d, EMPTY);
      }
      return empty;
    }

    // copy_table_recursive; with `half` 256 on a root it is fork_pml4. A copy that fails has used up
    // every page there was and given none back.
    method CopyTableInto(src: nat, level: nat, half: nat) returns (r: Option<nat>)
      modifies this`tables, this`supply, this`refs
      ensures r.Some? == CopyTable(old(State()), src, level, half).Some?
      ensures r.Some? ==> CopyTable(old(State()), src, level, half) == Some((State(), r.value))
      ensures r.None? ==> supply == []
      decreases level
    {
      var page := AllocPage();
      if page.None? {
        return None;
      }
      var dst := page.value;
      tables := tables[dst := Zeroed()];
      var i := 0;
      while i < ENTRIES
        invariant i <= ENTRIES && freed == old(freed)
        invariant CopyTable(old(State()), src, level, half) ==
                  match CopyFrom(State(), src, dst, level, half, i) case None => None case Some(m) => Some((m, dst))
      {
        var e := Entry(tables, src, i);
        if e.flags.present {
          if i >= half {
            WriteEntry(dst, i, e);
          } else if level == 0 || e.flags.huge {
            if BecomesCow(e) {
              refs := Ref(refs, e.frame);
            }
            WriteEntry(dst, i, CowOf(e));
          } else {
            var child := CopyTableInto(e.frame, level - 1, ENTRIES);
            if child.None? {
              return None;
            }
            WriteEntry(dst, i, Pte(child.value, MaskFlags(e.flags)));
          }
        }
        i := i + 1;
      }
      return Some(dst);
    }

    // free_table_recursive; with `half` 256 on a root it is free_pml4.
    method FreeTable(t: nat, level: nat, half: nat)
      requires half <= ENTRIES
      modifies this`tables, this`freed
      ensures State() == FreeFrom(old(State()), t, level, half, 0)
      decreases level
    {
      var i := 0;
      while i < half
        invariant i <= half
        invariant FreeFrom(old(State()), t, level, half, 0) == FreeFrom(State(), t, level, half, i)
      {
        var e := Entry(tables, t, i);
        if e.flags.present && level > 0 && !e.flags.huge {
          FreeTable(e.frame, level - 1, ENTRIES);
        }
        i := i + 1;
      }
      FreePage(t);
    }
  }
}
