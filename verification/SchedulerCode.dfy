/** The scheduler's operations of kernel/src/scheduler.rs and kernel/src/gdf.rs as they update the gang
    table, the vCPU table and the per-CPU fields in place, loops and all. Each is proved to do what the
    functions of SchedulerModel and SchedulerSteps say. */
module SchedulerCode {
  import opened Basics
  import opened SchedulerModel
  import opened SchedulerSteps

  lemma EmptyAppend(slots: seq<Option<nat>>, x: Option<nat>)
    ensures Empty(slots + [x]) <==> Empty(slots) && x == None
  {
    assert (slots + [x])[|slots|] == x;
    assert forall i :: 0 <= i < |slots| ==> (slots + [x])[i] == slots[i];
  }

  // After `j` slots: what is still to be cleaned completes the result.
  ghost predicate Cleaned(
      before: Vcpus, all: seq<Option<nat>>, vcpus: Vcpus, j: nat, slots: seq<Option<nat>>, removed: nat)
  {
    && j <= |all| && |slots| == j
    && var (left, rest, n) := CleanSlots(vcpus, all[j..]);
       CleanSlots(before, all) == (left, slots + rest, removed + n)
  }

  lemma CleanedStart(before: Vcpus, all: seq<Option<nat>>)
    ensures Cleaned(before, all, before, 0, [], 0)
  {
    assert all[0..] == all && forall r: seq<Option<nat>> :: [] + r == r;
  }

  lemma CleanedStep(before: Vcpus, all: seq<Option<nat>>, vcpus: Vcpus, j: nat, slots: seq<Option<nat>>, removed: nat)
    requires Cleaned(before, all, vcpus, j, slots, removed) && j < |all|
    ensures if IsTerminated(vcpus, all[j])
            then Cleaned(before, all, vcpus - {all[j].value}, j + 1, slots + [None], removed + 1)
            else Cleaned(before, all, vcpus, j + 1, slots + [all[j]], removed)
  {
    assert all[j..][0] == all[j] && all[j..][1..] == all[j + 1..];
    var gone := IsTerminated(vcpus, all[j]);
    var rest := CleanSlots(if gone then vcpus - {all[j].value} else vcpus, all[j + 1..]).1;
    var slot := if gone then None else all[j];
    assert slots + ([slot] + rest) == slots + [slot] + rest;
  }

  class Scheduler {
    var vcpus: Vcpus
    var gangs: Gangs
    var count: nat
    var current: seq<nat>
    const idle: seq<nat>
    var online: seq<bool>

    ghost function View(): Machine
      reads this
    {
      Machine(vcpus, gangs, count, current, idle, online)
    }

    ghost predicate Valid()
      reads this
    {
      Shaped(View())
    }

    // Frees the terminated vCPUs of one gang.
    method CleanOne(i: nat)
      requires i < |gangs|
      modifies `vcpus, `gangs
      ensures vcpus == CleanGang(old(vcpus), old(gangs)[i]).0
      ensures gangs == old(gangs)[i := CleanGang(old(vcpus), old(gangs)[i]).1]
    {
      if gangs[i] == None {
        assert gangs[i := None] == gangs;
        return;
      }
      var g := gangs[i].value;
      var slots, removed, allEmpty := [], 0, true;
      CleanedStart(vcpus, g.slots);
      for j := 0 to |g.slots|
        modifies `vcpus
        invariant Cleaned(old(vcpus), g.slots, vcpus, j, slots, removed) && (allEmpty <==> Empty(slots))
      {
        var slot := g.slots[j];
        CleanedStep(old(vcpus), g.slots, vcpus, j, slots, removed);
        if slot.Some? && slot.value in vcpus && vcpus[slot.value].state == Terminated {
          vcpus := vcpus - {slot.value};
          removed := removed + 1;
          slot := None;
        }
        EmptyAppend(slots, slot);
        if slot.Some? {
          allEmpty := false;
        }
        slots := slots + [slot];
      }
      assert slots + [] == slots;
      var left := if allEmpty then None else Some(g.(slots := slots, vcpuCount := Minus(g.vcpuCount, removed)));
      gangs := gangs[i := left];
    }
  
    method CleanUpTerminated()
      requires Valid()
      modifies `vcpus, `gangs
      ensures View() == CleanUp(old(View())) && Valid()
    {
      CleanShape(vcpus, gangs, 1, count);
      if count <= 1 {
        return;
      }
      for i := 1 to count
        modifies `vcpus, `gangs
        invariant |gangs| == |old(gangs)|
        invariant CleanFrom(old(vcpus), old(gangs), 1, count) == CleanFrom(vcpus, gangs, i, count)
      {
        CleanOne(i);
      }
    }

    // Step 1 of schedule_inner.
    method SaveCurrent(c: nat, frame: Frame, kernelRsp: nat, serial: nat)
      requires Valid() && c < |current|
      modifies `vcpus, `gangs
      ensures View() == Save(old(View()), c, frame, kernelRsp, serial) && Valid()
    {
      var cur := current[c];
      if cur == idle[c] || cur !in vcpus {
        return;
      }
      var v := vcpus[cur];
      var saved := v.(frame := frame, stamp := Some(serial));
      if frame.cs % 4 == 0 {
        saved := saved.(frame := frame.(rsp := kernelRsp, ss := 0x10));
      }
      if v.state != Halted {
        if 0 < v.gang < MAX_GANGS && gangs[v.gang].Some? {
          var g := gangs[v.gang].value;
          var w := if g.vcpuCount < 1 then 1 else g.vcpuCount;
          g := g.(vruntime := Plus(g.vruntime, VRUNTIME_TICK * 100 / w), running := Minus(g.running, 1));
          gangs := gangs[v.gang := Some(g)];
          saved := saved.(vruntime := Plus(v.vruntime, VRUNTIME_TICK), state := Ready);
        }
      }
      vcpus := vcpus[cur := saved];
    }

    // Step 2 of schedule_inner.
    method FindBestGang() returns (best: Option<nat>)
      requires Valid()
      ensures best == BestGang(gangs, 1, count, None, U64_MAX)
    {
      best := None;
      var bestVruntime := U64_MAX;
      var i := 1;
      while i < count
        invariant 1 <= i && BestGang(gangs, 1, count, None, U64_MAX) == BestGang(gangs, i, count, best, bestVruntime)
      {
        if gangs[i].Some? {
          var g := gangs[i].value;
          if g.active && Minus(g.vcpuCount, g.running) > 0 && g.vruntime < bestVruntime {
            bestVruntime, best := g.vruntime, Some(i);
          }
        }
        i := i + 1;
      }
    }

    method PickFrom(slots: seq<Option<nat>>) returns (best: Option<nat>)
      ensures best == PickVcpu(vcpus, slots, 0, None, U64_MAX)
    {
      best := None;
      var bestVruntime := U64_MAX;
      var i := 0;
      while i < |slots|
        invariant i <= |slots|
        invariant PickVcpu(vcpus, slots, 0, None, U64_MAX) == PickVcpu(vcpus, slots, i, best, bestVruntime)
      {
        if slots[i].Some? && slots[i].value in vcpus {
          var v := vcpus[slots[i].value];
          if v.state == Ready && v.vruntime < bestVruntime {
            bestVruntime, best := v.vruntime, slots[i];
          }
        }
        i := i + 1;
      }
    }

    method CountFreeCores() returns (n: nat)
      requires Valid()
      ensures n == FreeCores(View(), 0)
    {
      n := 0;
      var c := 0;
      while c < |current|
        invariant c <= |current| && FreeCores(View(), 0) == n + FreeCores(View(), c)
      {
        if online[c] && current[c] == idle[c] {
          n := n + 1;
        }
        c := c + 1;
      }
    }
  
    // Steps 2 to 5 of schedule_inner; `queue` is what goes on the CPU's ready queue.
    method ChooseNext() returns (next: Option<nat>, queue: seq<nat>)
      requires Valid()
      modifies `gangs
      ensures Valid()
      ensures Choose(old(View())) == None ==> next == None && View() == old(View())
      ensures Choose(old(View())).Some? ==>
        next == Some(Choose(old(View())).value.1) && View() == Choose(old(View())).value.0
      ensures forall id :: id in queue ==> next == Some(id)
    {
      queue := [];
      var i := FindBestGang();
      if i == None || i.value >= |gangs| || gangs[i.value] == None {
        return None, [];
      }
      var g := gangs[i.value].value;
      var demand := Minus(g.vcpuCount, g.running);
      var free := CountFreeCores();
      var perCore := if free >= demand || free == 0 then 1 else (demand + free - 1) / free;
      next := PickFrom(g.slots);
      if next == None {
        return;
      }
      var running := g.running + 1;
      if perCore > 1 {
        var room := Minus(g.vcpuCount, running);
        var extra := if perCore - 1 < room then perCore - 1 else room;
        for k := 0 to extra
          modifies {}
          invariant running == g.running + 1 + k && forall id :: id in queue ==> next == Some(id)
        {
          var more := PickFrom(g.slots);
          if more.Some? {
            running := running + 1;
            queue := queue + [more.value];
          }
        }
      }
      gangs := gangs[i.value := Some(g.(running := running))];
    }

    // Step 6 of schedule_inner on; `out` is the frame the CPU returns with. It is written before the
    // canary is looked at.
    method LoadNext(c: nat, next: nat, frame: Frame, curPml4: nat) returns (out: Frame, switched: bool)
      requires Valid() && c < |current|
      modifies `vcpus, `current
      ensures var loaded := Load(old(View()), c, next, curPml4);
        && View() == loaded.m && switched == loaded.switched
        && out == if loaded.frame.Some? then loaded.frame.value else frame
      ensures Valid()
    {
      if next !in vcpus {
        current := current[c := idle[c]];
        return frame, false;
      }
      var v := vcpus[next];
      vcpus := vcpus[next := v.(state := Running, stamp := None)];
      out := v.frame;
      if v.kind != IdleKind {
        var frameOk := out.rsp != 0 && (out.cs == 0x08 || out.cs == 0x1B) && Canonical(out.rip);
        if v.stamp == None || !frameOk {
          current := current[c := idle[c]];
          return out, false;
        }
        if out.cs % 4 == 3 && out.ss != 0x23 && out.ss != 0x2B {
          out := out.(ss := 0x23);
        }
        if out.cs % 4 == 0 && out.ss != 0x10 && out.ss != 0x18 {
          out := out.(ss := 0x10);
        }
      }
      current := current[c := next];
      if v.pml4 != curPml4 && v.pml4 != 0 && v.pml4 >= MAX_PML4 {
        current := current[c := idle[c]];
        assert current == old(current)[c := idle[c]];
        return out, false;
      }
      return out, true;
    }

    // schedule_inner; `out` is the frame the CPU returns with, switched or not.
    method ScheduleInner(c: nat, frame: Frame, kernelRsp: nat, serial: nat, curPml4: nat)
      returns (out: Frame, switched: bool)
      requires Valid() && c < |current|
      modifies `vcpus, `gangs, `current
      ensures (View(), out, switched) == Pass(old(View()), c, frame, kernelRsp, serial, curPml4) && Valid()
    {
      if count < 1 {
        return frame, false;
      }
      CleanUpTerminated();
      SaveCurrent(c, frame, kernelRsp, serial);
      var next, _ := ChooseNext();
      if next == None {
        current := current[c := idle[c]];
        return frame, false;
      }
      out, switched := LoadNext(c, next.value, frame, curPml4);
    }

    // block_current; on the idle vCPU it refuses. Unswitched, the CPU goes on with the halted vCPU.
    method BlockCurrent(c: nat, frame: Frame, kernelRsp: nat, serial: nat, curPml4: nat)
      returns (out: Frame, switched: bool)
      requires Valid() && c < |current|
      modifies `vcpus, `gangs, `current
      ensures Valid()
      ensures var m, cur := old(View()), old(current)[c];
        (View(), out, switched) == if cur == idle[c] then (m, frame, false)
        else Pass(if cur in m.vcpus then Halt(m, cur) else m, c, frame, kernelRsp, serial, curPml4)
    {
      var cur := current[c];
      if cur == idle[c] {
        return frame, false;
      }
      if cur in vcpus {
        var gid := vcpus[cur].gang;
        vcpus := vcpus[cur := vcpus[cur].(state := Halted)];
        if 0 < gid < MAX_GANGS && gangs[gid].Some? {
          gangs := gangs[gid := Some(gangs[gid].value.(running := Minus(gangs[gid].value.running, 1)))];
        }
      }
      out, switched := ScheduleInner(c, frame, kernelRsp, serial, curPml4);
    }

    // wake; the result says whether the vCPU goes on a ready queue.
    method WakeVcpu(v: nat) returns (queued: bool)
      requires Valid()
      modifies `vcpus
      ensures Valid() && queued == IsHalted(old(View()), v)
      ensures View() == old(View()).(vcpus := vcpus)
      ensures vcpus == if queued then old(vcpus)[v := old(vcpus)[v].(state := Ready, vruntime := 0)] else old(vcpus)
    {
      if v in vcpus && vcpus[v].state == Halted {
        vcpus := vcpus[v := vcpus[v].(state := Ready, vruntime := 0)];
        return true;
      }
      return false;
    }

    // `stack` says whether a kernel stack could be allocated.
    method RegisterDriverVcpu(v: nat, stack: bool) returns (ok: bool)
      requires Valid()
      modifies `vcpus, `gangs, `count
      ensures Valid() && (ok <==> stack && old(count) < MAX_GANGS)
      ensures View() == if ok then Joined(old(View()), v) else old(View())
    {
      if !stack {
        return false;
      }
      if count == 0 {
        count := 1;
      }
      if count >= MAX_GANGS {
        return false;
      }
      if v in vcpus {
        vcpus := vcpus[v := vcpus[v].(gang := count)];
      }
      gangs := gangs[count := Some(Gang([Some(v)] + seq(7, _ => None), 1, 0, 0, true))];
      count := count + 1;
      return true;
    }

    // The loops of handle_crash over the gang table.
    method MarkTerminated(v: nat, pml4: nat)
      requires Valid()
      modifies `vcpus, `gangs
      ensures View() == Marked(old(View()), v, pml4) && Valid()
    {
      if v in vcpus {
        vcpus := vcpus[v := vcpus[v].(state := Terminated, pml4 := pml4)];
      }
      for i := 0 to |gangs|
        modifies `gangs
        invariant |gangs| == |old(gangs)|
        invariant forall k :: 0 <= k < |gangs| ==> gangs[k] == if k < i then Leave(old(gangs)[k], v) else old(gangs)[k]
      {
        var left := LeaveGang(gangs[i], v);
        gangs := gangs[i := left];
      }
    }

    method LeaveGang(gang: Option<Gang>, v: nat) returns (r: Option<Gang>)
      ensures r == Leave(gang, v)
    {
      if gang == None {
        return None;
      }
      var g := gang.value;
      var slots, held, allEmpty := Vacate(g.slots, v);
      return if allEmpty then None else Some(g.(slots := slots, vcpuCount := Minus(g.vcpuCount, held)));
    }

    method Vacate(slots: seq<Option<nat>>, v: nat) returns (r: seq<Option<nat>>, held: nat, allEmpty: bool)
      ensures r == Without(slots, v) && held == Holding(slots, v) && (allEmpty <==> Empty(Without(slots, v)))
    {
      r, held, allEmpty := [], 0, true;
      for j := 0 to |slots|
        invariant r == Without(slots[..j], v) && Holding(slots, v) == held + Holding(slots[j..], v)
        invariant allEmpty <==> Empty(r)
      {
        assert slots[j..][0] == slots[j] && slots[j..][1..] == slots[j + 1..];
        var slot := slots[j];
        if slot == Some(v) {
          slot := None;
          held := held + 1;
        }
        EmptyAppend(r, slot);
        if slot.Some? {
          allEmpty := false;
        }
        r := r + [slot];
        assert slots[..j + 1] == slots[..j] + [slots[j]];
      }
      assert slots[..|slots|] == slots;
    }
  }
}
