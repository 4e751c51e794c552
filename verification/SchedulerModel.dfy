/** The gang scheduler of kernel/src/scheduler.rs with the vCPU table of kernel/src/vcpu.rs and the
    crash recovery of kernel/src/gdf.rs, as functions on their shared state. A scheduling pass is cut
    where another CPU's crash recovery, which does not take the gang table's lock, can come in between:
    it saves the current vCPU, chooses the next, and loads that. */
module SchedulerModel {
  import opened Basics

  const MAX_GANGS: nat := 32
  const MAX_VCPUS: nat := 128
  const VRUNTIME_TICK: nat := 20
  const U64_MAX: nat := 0xFFFF_FFFF_FFFF_FFFF
  const MAX_PML4: nat := 0x1_0000_0000

  datatype Kind = Normal | HardwareDriver | AbstractionDriver | IdleKind

  datatype VcpuState = Ready | Running | Halted | Blocked | Terminated | Idle

  // A trap frame; `others` are the registers that no operation here looks at.
  datatype Frame = Frame(rax: nat, rip: nat, cs: nat, ss: nat, rsp: nat, others: seq<nat>)

  // `stamp` is the frame canary: it holds the number of the save that set it, or nothing when the
  // canary is clear. The program only looks at whether it is set.
  datatype Vcpu = Vcpu(
    kind: Kind, gang: nat, state: VcpuState, frame: Frame, stamp: Option<nat>, vruntime: nat, pml4: nat)

  datatype Gang = Gang(slots: seq<Option<nat>>, vcpuCount: nat, vruntime: nat, running: nat, active: bool)

  type Vcpus = map<nat, Vcpu>
  type Gangs = seq<Option<Gang>>

  // `current` and `idle` give each CPU's current and idle vCPU, `online` whether it has been brought up.
  datatype Machine = Machine(
    vcpus: Vcpus, gangs: Gangs, count: nat, current: seq<nat>, idle: seq<nat>, online: seq<bool>)

  predicate Shaped(m: Machine) {
    m.count <= |m.gangs| == MAX_GANGS && |m.current| == |m.idle| == |m.online|
  }

  predicate IsDriver(k: Kind) {
    k == HardwareDriver || k == AbstractionDriver
  }

  // saturating_sub and saturating_add
  function Minus(a: nat, b: nat): nat {
    if a < b then 0 else a - b
  }

  function Plus(a: nat, b: nat): nat {
    if a + b > U64_MAX then U64_MAX else a + b
  }

  // -- Frames ------------------------------------------------------------------------------

  predicate Canonical(rip: nat) {
    rip < 0x8000_0000_0000 || 0xFFFF_8000_0000_0000 <= rip <= U64_MAX
  }

  // What the save stores: a kernel frame gets the stack pointer and segment the hardware left out.
  function SavedFrame(f: Frame, kernelRsp: nat): Frame {
    if f.cs % 4 != 0 then f else f.(rsp := kernelRsp, ss := 0x10)
  }

  // The checks the scheduler makes before it switches.
  predicate FrameOk(f: Frame) {
    f.rsp != 0 && (f.cs == 0x08 || f.cs == 0x1B) && Canonical(f.rip)
  }

  // The stack segment repairs it makes after them.
  function Repaired(f: Frame): Frame {
    if f.cs % 4 == 3 && f.ss != 0x23 && f.ss != 0x2B then f.(ss := 0x23)
    else if f.cs % 4 == 0 && f.ss != 0x10 && f.ss != 0x18 then f.(ss := 0x10)
    else f
  }

  // The checks crash recovery makes.
  predicate FrameRecoverable(f: Frame) {
    && f.rsp != 0 && (f.cs == 0x08 || f.cs == 0x1B) && Canonical(f.rip)
    && (f.cs % 4 == 0 ==> f.ss == 0x10 || f.ss == 0x18)
    && (f.cs % 4 == 3 ==> f.ss == 0x23 || f.ss == 0x2B)
  }

  // -- Cleaning up terminated vCPUs ------------------------------------------------------------

  predicate IsTerminated(vcpus: Vcpus, slot: Option<nat>) {
    slot.Some? && slot.value in vcpus && vcpus[slot.value].state == Terminated
  }

  // The vCPUs left and the slots left of a gang, and how many were taken out.
  function CleanSlots(vcpus: Vcpus, slots: seq<Option<nat>>): (Vcpus, seq<Option<nat>>, nat) {
    if slots == [] then (vcpus, [], 0)
    else if IsTerminated(vcpus, slots[0]) then
      var (left, rest, n) := CleanSlots(vcpus - {slots[0].value}, slots[1..]);
      (left, [None] + rest, n + 1)
    else
      var (left, rest, n) := CleanSlots(vcpus, slots[1..]);
      (left, [slots[0]] + rest, n)
  }

  predicate Empty(slots: seq<Option<nat>>) {
    forall i :: 0 <= i < |slots| ==> slots[i] == None
  }

  function CleanGang(vcpus: Vcpus, gang: Option<Gang>): (Vcpus, Option<Gang>) {
    match gang
    case None => (vcpus, None)
    case Some(g) =>
      var (left, slots, n) := CleanSlots(vcpus, g.slots);
      (left, if Empty(slots) then None else Some(g.(slots := slots, vcpuCount := Minus(g.vcpuCount, n))))
  }

  function CleanFrom(vcpus: Vcpus, gangs: Gangs, i: nat, count: nat): (Vcpus, Gangs)
    requires count <= |gangs|
    decreases count - i
  {
    if i >= count then (vcpus, gangs) else
    var (left, gang) := CleanGang(vcpus, gangs[i]);
    CleanFrom(left, gangs[i := gang], i + 1, count)
  }

  function CleanUp(m: Machine): Machine
    requires m.count <= |m.gangs|
  {
    var (vcpus, gangs) := CleanFrom(m.vcpus, m.gangs, 1, m.count);
    m.(vcpus := vcpus, gangs := gangs)
  }

  // -- Saving the current vCPU -------------------------------------------------------------------

  // The gang's account of a vCPU that stops running.
  function Charge(g: Gang): Gang {
    var w := if g.vcpuCount < 1 then 1 else g.vcpuCount;
    g.(vruntime := Plus(g.vruntime, VRUNTIME_TICK * 100 / w), running := Minus(g.running, 1))
  }

  function SavedVcpu(v: Vcpu, gangs: Gangs, frame: Frame, kernelRsp: nat, serial: nat): Vcpu {
    var saved := v.(frame := SavedFrame(frame, kernelRsp), stamp := Some(serial));
    if v.state != Halted && 0 < v.gang < |gangs| && gangs[v.gang].Some?
    then saved.(vruntime := Plus(v.vruntime, VRUNTIME_TICK), state := Ready)
    else saved
  }

  function Save(m: Machine, c: nat, frame: Frame, kernelRsp: nat, serial: nat): Machine
    requires c < |m.current| == |m.idle|
  {
    var cur := m.current[c];
    if cur == m.idle[c] || cur !in m.vcpus then m else
    var v := m.vcpus[cur];
    m.(vcpus := m.vcpus[cur := SavedVcpu(v, m.gangs, frame, kernelRsp, serial)],
       gangs := if v.state != Halted && 0 < v.gang < |m.gangs| && m.gangs[v.gang].Some?
                then m.gangs[v.gang := Some(Charge(m.gangs[v.gang].value))] else m.gangs)
  }

  // -- Choosing ------------------------------------------------------------------------------------

  predicate Available(g: Option<Gang>) {
    g.Some? && g.value.active && Minus(g.value.vcpuCount, g.value.running) > 0
  }

  // The available gang of least vruntime from `i` on, the first of equals; `best` is the one so far.
  function BestGang(gangs: Gangs, i: nat, count: nat, best: Option<nat>, bestVruntime: nat): Option<nat>
    requires count <= |gangs|
    decreases count - i
  {
    if i >= count then best
    else if Available(gangs[i]) && gangs[i].value.vruntime < bestVruntime
    then BestGang(gangs, i + 1, count, Some(i), gangs[i].value.vruntime)
    else BestGang(gangs, i + 1, count, best, bestVruntime)
  }

  // pick_vcpu: the Ready vCPU of least vruntime from slot `i` on, the first of equals.
  function PickVcpu(vcpus: Vcpus, slots: seq<Option<nat>>, i: nat, best: Option<nat>, bestVruntime: nat): Option<nat>
    decreases |slots| - i
  {
    if i >= |slots| then best
    else if slots[i].Some? && slots[i].value in vcpus && vcpus[slots[i].value].state == Ready
            && vcpus[slots[i].value].vruntime < bestVruntime
    then PickVcpu(vcpus, slots, i + 1, Some(slots[i].value), vcpus[slots[i].value].vruntime)
    else PickVcpu(vcpus, slots, i + 1, best, bestVruntime)
  }

  // -- What the searches find ----------------------------------------------------------------------

  predicate Choosable(g: Option<Gang>) {
    Available(g) && g.value.vruntime < U64_MAX
  }

  // Among the gangs from 1 up to `i`: the first of the choosable ones of least vruntime, if any.
  ghost predicate GangFound(gangs: Gangs, i: nat, found: Option<nat>) {
    i <= |gangs| &&
    match found
    case None => forall k :: 1 <= k < i ==> !Choosable(gangs[k])
    case Some(b) =>
      && 1 <= b < i && Choosable(gangs[b])
      && (forall k :: 1 <= k < i && Choosable(gangs[k]) ==> gangs[b].value.vruntime <= gangs[k].value.vruntime)
      && forall k :: 1 <= k < b && Choosable(gangs[k]) ==> gangs[b].value.vruntime < gangs[k].value.vruntime
  }

  /** The search finds the first of the available gangs of least vruntime, or nothing if and only if
      no gang is available with a vruntime below the limit. */
  lemma {:induction false} BestGangFound(gangs: Gangs, i: nat, count: nat, best: Option<nat>, bestVruntime: nat)
    requires 1 <= i <= count <= |gangs| && GangFound(gangs, i, best)
    requires bestVruntime == if best.Some? then gangs[best.value].value.vruntime else U64_MAX
    ensures GangFound(gangs, count, BestGang(gangs, i, count, best, bestVruntime))
    decreases count - i
  {
    if i < count {
      if Available(gangs[i]) && gangs[i].value.vruntime < bestVruntime {
        BestGangFound(gangs, i + 1, count, Some(i), gangs[i].value.vruntime);
      } else {
        BestGangFound(gangs, i + 1, count, best, bestVruntime);
      }
    }
  }

  // The vruntime of the slot's vCPU if it can be picked, else the limit.
  function Rank(vcpus: Vcpus, slot: Option<nat>): nat {
    if slot.Some? && slot.value in vcpus && vcpus[slot.value].state == Ready && vcpus[slot.value].vruntime < U64_MAX
    then vcpus[slot.value].vruntime else U64_MAX
  }

  // Slot `b` has the least rank of the first `i`, and is the first that does.
  ghost predicate FirstLeast(vcpus: Vcpus, slots: seq<Option<nat>>, i: nat, b: nat) {
    && b < i <= |slots|
    && (forall k :: 0 <= k < i ==> Rank(vcpus, slots[b]) <= Rank(vcpus, slots[k]))
    && forall k :: 0 <= k < b ==> Rank(vcpus, slots[b]) < Rank(vcpus, slots[k])
  }

  // Among the first `i` slots: the vCPU of the first one of least rank, if any can be picked.
  ghost predicate SlotFound(vcpus: Vcpus, slots: seq<Option<nat>>, i: nat, found: Option<nat>) {
    i <= |slots| &&
    match found
    case None => forall k :: 0 <= k < i ==> Rank(vcpus, slots[k]) == U64_MAX
    case Some(v) => Rank(vcpus, found) < U64_MAX && exists b: nat :: FirstLeast(vcpus, slots, i, b) && slots[b] == found
  }

  // The better of `best` and slot `i`.
  function Better(vcpus: Vcpus, slots: seq<Option<nat>>, i: nat, best: Option<nat>): Option<nat>
    requires i < |slots|
  {
    if Rank(vcpus, slots[i]) < Rank(vcpus, best) then slots[i] else best
  }

  lemma PickStep(vcpus: Vcpus, slots: seq<Option<nat>>, i: nat, best: Option<nat>)
    requires i < |slots|
    ensures var next := Better(vcpus, slots, i, best);
      PickVcpu(vcpus, slots, i, best, Rank(vcpus, best)) == PickVcpu(vcpus, slots, i + 1, next, Rank(vcpus, next))
  {
  }

  // What the search finds from slot `i` on is the better of all of them and `best`.
  function BestFrom(vcpus: Vcpus, slots: seq<Option<nat>>, i: nat, best: Option<nat>): Option<nat>
    decreases |slots| - i
  {
    if i >= |slots| then best else BestFrom(vcpus, slots, i + 1, Better(vcpus, slots, i, best))
  }

  lemma {:induction false} PickIsBest(vcpus: Vcpus, slots: seq<Option<nat>>, i: nat, best: Option<nat>)
    ensures PickVcpu(vcpus, slots, i, best, Rank(vcpus, best)) == BestFrom(vcpus, slots, i, best)
    decreases |slots| - i
  {
    if i < |slots| {
      PickStep(vcpus, slots, i, best);
      PickIsBest(vcpus, slots, i + 1, Better(vcpus, slots, i, best));
    }
  }

  // The best among the first `i` slots is `found`, in slot `b`, or there is none and `b` is past the end.
  ghost predicate FoundAt(vcpus: Vcpus, slots: seq<Option<nat>>, i: nat, found: Option<nat>, b: nat) {
    i <= |slots| &&
    if b < |slots| then FirstLeast(vcpus, slots, i, b) && slots[b] == found && Rank(vcpus, found) < U64_MAX
    else found == None && forall k :: 0 <= k < i ==> Rank(vcpus, slots[k]) == U64_MAX
  }

  lemma FoundStep(vcpus: Vcpus, slots: seq<Option<nat>>, i: nat, best: Option<nat>, b: nat)
    requires i < |slots| && FoundAt(vcpus, slots, i, best, b)
    ensures var newer := Rank(vcpus, slots[i]) < Rank(vcpus, best);
      FoundAt(vcpus, slots, i + 1, Better(vcpus, slots, i, best), if newer then i else b)
  {
  }

  lemma {:induction false} BestIsFound(vcpus: Vcpus, slots: seq<Option<nat>>, i: nat, best: Option<nat>, b: nat)
    returns (found: Option<nat>, at: nat)
    requires FoundAt(vcpus, slots, i, best, b)
    ensures found == BestFrom(vcpus, slots, i, best) && FoundAt(vcpus, slots, |slots|, found, at)
    decreases |slots| - i
  {
    if i == |slots| {
      found, at := best, b;
    } else {
      FoundStep(vcpus, slots, i, best, b);
      var newer := Rank(vcpus, slots[i]) < Rank(vcpus, best);
      found, at := BestIsFound(vcpus, slots, i + 1, Better(vcpus, slots, i, best), if newer then i else b);
    }
  }

  /** pick_vcpu finds the first of the Ready vCPUs of least vruntime, or nothing if and only if the
      gang has none with a vruntime below the limit. */
  lemma PickVcpuFound(vcpus: Vcpus, slots: seq<Option<nat>>)
    ensures SlotFound(vcpus, slots, |slots|, PickVcpu(vcpus, slots, 0, None, U64_MAX))
  {
    PickIsBest(vcpus, slots, 0, None);
    var found, at := BestIsFound(vcpus, slots, 0, None, |slots|);
  }

  // count_free_cores
  function FreeCores(m: Machine, c: nat): nat
    requires |m.current| == |m.idle| == |m.online|
    decreases |m.current| - c
  {
    if c >= |m.current| then 0
    else (if m.online[c] && m.current[c] == m.idle[c] then 1 else 0) + FreeCores(m, c + 1)
  }

  // How many more vCPUs of the chosen gang go on the CPU's ready queue.
  function Extra(g: Gang, freeCores: nat): nat {
    var demand := Minus(g.vcpuCount, g.running);
    var perCore := if freeCores >= demand || freeCores == 0 then 1 else (demand + freeCores - 1) / freeCores;
    if perCore <= 1 then 0 else
    var room := Minus(g.vcpuCount, g.running + 1);
    if perCore - 1 < room then perCore - 1 else room
  }

  // Steps 2 to 5 of schedule_inner: the vCPU to load and the machine with its gang's new count, or
  // nothing when there is none. `free` is the number of free cores counted.
  function ChooseWith(m: Machine, free: nat): Option<(Machine, nat)>
    requires Shaped(m)
  {
    match BestGang(m.gangs, 1, m.count, None, U64_MAX)
    case None => None
    case Some(i) =>
      if i >= |m.gangs| || m.gangs[i] == None then None else
      var g := m.gangs[i].value;
      match PickVcpu(m.vcpus, g.slots, 0, None, U64_MAX)
      case None => None
      case Some(next) =>
        Some((m.(gangs := m.gangs[i := Some(g.(running := g.running + 1 + Extra(g, free)))]), next))
  }

  function Choose(m: Machine): Option<(Machine, nat)>
    requires Shaped(m)
  {
    ChooseWith(m, FreeCores(m, 0))
  }

  // Gang `i` is the first of the available ones of least vruntime.
  ghost predicate IsBest(m: Machine, i: nat) {
    m.count <= |m.gangs| && GangFound(m.gangs, m.count, Some(i))
  }

  // The gang has no Ready vCPU.
  ghost predicate NoneReady(m: Machine, g: Gang) {
    forall k :: 0 <= k < |g.slots| ==> Rank(m.vcpus, g.slots[k]) == U64_MAX
  }

  // No gang is available, or the first of the available ones of least vruntime has no Ready vCPU.
  ghost predicate NothingToRun(m: Machine) {
    forall i: nat :: IsBest(m, i) ==> NoneReady(m, m.gangs[i].value)
  }

  /** The choice finds nothing if and only if no gang is available or the first of the available ones of
      least vruntime has no Ready vCPU, however many cores were counted as free. */
  lemma NothingChosen(m: Machine, free: nat)
    requires Shaped(m)
    ensures ChooseWith(m, free) == None <==> NothingToRun(m)
  {
    if m.count >= 1 {
      BestGangFound(m.gangs, 1, m.count, None, U64_MAX);
    }
    var best := BestGang(m.gangs, 1, m.count, None, U64_MAX);
    if best.Some? {
      assert IsBest(m, best.value);
      BestIsOne(m, best.value);
      PickVcpuFound(m.vcpus, m.gangs[best.value].value.slots);
    } else {
      assert forall i: nat :: !IsBest(m, i);
    }
  }

  lemma BestIsOne(m: Machine, i: nat)
    requires IsBest(m, i)
    ensures forall j: nat :: IsBest(m, j) ==> j == i
  {
  }

  function GoIdle(m: Machine, c: nat): Machine
    requires c < |m.current| == |m.idle|
  {
    m.(current := m.current[c := m.idle[c]])
  }

  // -- Loading -----------------------------------------------------------------------------------

  // The machine after a load, what the load wrote over the frame the CPU returns with, and whether
  // it reported a switch.
  datatype Loaded = Loaded(m: Machine, frame: Option<Frame>, switched: bool)

  // Step 6 of schedule_inner on. A rejected load has already written the frame.
  function Load(m: Machine, c: nat, next: nat, curPml4: nat): Loaded
    requires c < |m.current| == |m.idle|
  {
    if next !in m.vcpus then Loaded(GoIdle(m, c), None, false) else
    var v := m.vcpus[next];
    var taken := m.(vcpus := m.vcpus[next := v.(state := Running, stamp := None)]);
    if v.kind != IdleKind && (v.stamp == None || !FrameOk(v.frame)) then
      Loaded(GoIdle(taken, c), Some(v.frame), false)
    else
      var frame := if v.kind == IdleKind then v.frame else Repaired(v.frame);
      if v.pml4 != curPml4 && v.pml4 != 0 && v.pml4 >= MAX_PML4 then Loaded(GoIdle(taken, c), Some(frame), false)
      else Loaded(taken.(current := m.current[c := next]), Some(frame), true)
  }

  // What a load asks of the vCPU: the canary set and the frame in order, unless it is an idle one, and a
  // page-table root in range if that has to change.
  predicate Loads(m: Machine, next: nat, curPml4: nat) {
    && next in m.vcpus
    && (m.vcpus[next].kind == IdleKind || (m.vcpus[next].stamp.Some? && FrameOk(m.vcpus[next].frame)))
    && (m.vcpus[next].pml4 == curPml4 || m.vcpus[next].pml4 < MAX_PML4)
  }

  lemma LoadSwitches(m: Machine, c: nat, next: nat, curPml4: nat)
    requires c < |m.current| == |m.idle|
    ensures Load(m, c, next, curPml4).switched <==> Loads(m, next, curPml4)
  {
  }

  // The slots of a gang whose one vCPU is `v`.
  function Single(v: nat): (s: seq<Option<nat>>)
    ensures |s| == 8 && s[0] == Some(v) && forall i :: 1 <= i < 8 ==> s[i] == None
  {
    [Some(v)] + seq(7, _ => None)
  }
}
