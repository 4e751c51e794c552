/** The steps that CPUs take on the scheduler's state, in any order: the three steps of a scheduling
    pass, waking, starting a driver, and crash recovery. A step is what a CPU does while it holds the
    vCPU table's lock. A pass also holds the gang table's lock from its first step to its last; crash
    recovery, answers and the allocation of vCPUs do not take that lock and come in between. */
module SchedulerSteps {
  import opened Basics
  import opened SchedulerModel

  // Who holds the gang table's lock between the steps of a scheduling pass: a CPU that has saved its
  // current vCPU and not yet chosen another, or one that has chosen and not yet loaded it.
  datatype Hold = Free | Choosing(cpu: nat) | Picked(cpu: nat, next: nat)

  // A load: the vCPU, the stamp it used up, the frame the CPU then returns with, and whether the
  // load was accepted. A rejected load has written the frame too.
  datatype LoadEvent = LoadEvent(vcpu: nat, stamp: Option<nat>, frame: Frame, accepted: bool)

  // A setting of the canary: whose, and for which frame.
  datatype Stamp = Stamp(vcpu: nat, frame: Frame)

  // What happened so far: the next stamp's number, the stamps, the last answer written over the rax
  // of each, and the loads.
  datatype History = History(serial: nat, stamps: map<nat, Stamp>, answers: map<nat, nat>, loads: seq<LoadEvent>)

  /** `context` is the vCPU whose frame each CPU returns with, which need not be its current vCPU:
      a pass that does not switch makes the idle vCPU current and returns all the same.
      `recovering` CPUs have taken an exception and not yet resumed anything, `marking` ones among them
      have yet to mark their crashed driver, `pending` vCPUs are allocated and not yet initialised,
      `starting` ones not yet in a gang, and `queued` ones have been on a ready queue. */
  datatype State = State(
    m: Machine, context: seq<nat>, hold: Hold, recovering: set<nat>, marking: set<nat>,
    pending: set<nat>, starting: set<nat>, queued: set<nat>, h: History)

  datatype Step =
    | Tick(c: nat, frame: Frame, kernelRsp: nat)
    | Block(c: nat, frame: Frame, kernelRsp: nat)
    | Pick
    | Finish(curPml4: nat)
    | Wake(v: nat)
    | Alloc(v: nat, kind: Kind, pml4: nat)
    | Init(v: nat, frame: Frame)
    | Register(v: nat)
    | Crash(c: nat, known: bool)
    | Mark(c: nat, pml4: nat)
    | RecoverTo(c: nat, v: nat)
    | RecoverIdle(c: nat)
    | Answer(v: nat, result: nat)

  // -- Scheduling passes -----------------------------------------------------------------------

  // What the pass on CPU `c` saves, if anything.
  predicate Saves(m: Machine, c: nat)
    requires c < |m.current| == |m.idle|
  {
    m.current[c] != m.idle[c] && m.current[c] in m.vcpus
  }

  function Stamped(h: History, v: nat, frame: Frame): History {
    h.(serial := h.serial + 1, stamps := h.stamps[h.serial := Stamp(v, frame)], answers := h.answers - {h.serial})
  }

  // The first step of a pass after its clean-up.
  function Saving(s: State, c: nat, frame: Frame, kernelRsp: nat): State
    requires Shaped(s.m) && c < |s.m.current|
  {
    s.(m := Save(s.m, c, frame, kernelRsp, s.h.serial), hold := Choosing(c),
       h := if Saves(s.m, c) then Stamped(s.h, s.m.current[c], frame) else s.h)
  }

  // The first step of a pass: terminated vCPUs are cleaned up and the current vCPU is saved. The clean-up
  // asks only which vCPUs in gangs are terminated, and that changes under the gang table's lock alone.
  function Begin(s: State, c: nat, frame: Frame, kernelRsp: nat): State
    requires Shaped(s.m) && c < |s.m.current|
  {
    if s.m.count < 1 then s else
    CleanShape(s.m.vcpus, s.m.gangs, 1, s.m.count);
    Saving(s.(m := CleanUp(s.m)), c, frame, kernelRsp)
  }

  lemma CleanShape(vcpus: Vcpus, gangs: Gangs, i: nat, count: nat)
    requires count <= |gangs|
    ensures |CleanFrom(vcpus, gangs, i, count).1| == |gangs|
    decreases count - i
  {
  }

  // A whole pass of schedule_inner with no step of another CPU in between: the machine, the frame the
  // CPU returns with, and whether the pass reported a switch.
  function Pass(m: Machine, c: nat, frame: Frame, kernelRsp: nat, serial: nat, curPml4: nat): (Machine, Frame, bool)
    requires Shaped(m) && c < |m.current|
  {
    if m.count < 1 then (m, frame, false) else
    CleanShape(m.vcpus, m.gangs, 1, m.count);
    var saved := Save(CleanUp(m), c, frame, kernelRsp, serial);
    match Choose(saved)
    case None => (GoIdle(saved, c), frame, false)
    case Some((chosen, next)) =>
      var loaded := Load(chosen, c, next, curPml4);
      (loaded.m, if loaded.frame.Some? then loaded.frame.value else frame, loaded.switched)
  }

  // block_current before it schedules
  function Halt(m: Machine, v: nat): Machine
    requires v in m.vcpus
  {
    var g := m.vcpus[v].gang;
    m.(vcpus := m.vcpus[v := m.vcpus[v].(state := Halted)],
       gangs := if 0 < g < |m.gangs| && m.gangs[g].Some?
                then m.gangs[g := Some(m.gangs[g].value.(running := Minus(m.gangs[g].value.running, 1)))] else m.gangs)
  }

  predicate IsHalted(m: Machine, v: nat) {
    v in m.vcpus && m.vcpus[v].state == Halted
  }

  // -- Starting and crashing ---------------------------------------------------------------------

  const FRESH := Frame(0, 0, 0x08, 0x10, 0, [])

  // register_driver_vcpu: a new gang of one
  function Joined(m: Machine, v: nat): Machine
    requires Shaped(m) && m.count < MAX_GANGS
  {
    var id := if m.count == 0 then 1 else m.count;
    m.(count := id + 1, vcpus := if v in m.vcpus then m.vcpus[v := m.vcpus[v].(gang := id)] else m.vcpus,
       gangs := m.gangs[id := Some(Gang(Single(v), 1, 0, 0, true))])
  }

  function Without(slots: seq<Option<nat>>, v: nat): (r: seq<Option<nat>>)
    ensures |r| == |slots|
  {
    seq(|slots|, i requires 0 <= i < |slots| => if slots[i] == Some(v) then None else slots[i])
  }

  function Holding(slots: seq<Option<nat>>, v: nat): nat {
    if slots == [] then 0 else (if slots[0] == Some(v) then 1 else 0) + Holding(slots[1..], v)
  }

  // The part of handle_crash under the gang table's lock: the vCPU leaves every gang.
  function Leave(g: Option<Gang>, v: nat): Option<Gang> {
    if g == None || Empty(Without(g.value.slots, v)) then None
    else
      var left := Minus(g.value.vcpuCount, Holding(g.value.slots, v));
      Some(g.value.(slots := Without(g.value.slots, v), vcpuCount := left))
  }

  function Marked(m: Machine, v: nat, pml4: nat): Machine {
    m.(vcpus := if v in m.vcpus then m.vcpus[v := m.vcpus[v].(state := Terminated, pml4 := pml4)] else m.vcpus,
       gangs := seq(|m.gangs|, i requires 0 <= i < |m.gangs| => Leave(m.gangs[i], v)))
  }

  // -- Steps -------------------------------------------------------------------------------------

  // CPU `c` is in the middle of a pass.
  predicate InPass(s: State, c: nat) {
    !s.hold.Free? && s.hold.cpu == c
  }

  // CPU `c` runs what its frame says: it is neither inside a pass nor handling a crash.
  predicate Executes(s: State, c: nat) {
    c < |s.m.current| && !InPass(s, c) && c !in s.recovering
  }

  // CPU `c` has a claim on its current vCPU: it is not inside a pass, and if it has taken an exception it
  // has yet to mark that vCPU.
  predicate Claims(s: State, c: nat) {
    c < |s.m.current| && !InPass(s, c) && (c in s.recovering ==> c in s.marking)
  }

  predicate Enabled(s: State, step: Step) {
    Shaped(s.m) && |s.context| == |s.m.current| &&
    match step
    case Tick(c, _, _) => s.hold.Free? && c < |s.m.current| && c !in s.recovering
    case Block(c, _, _) => s.hold.Free? && c < |s.m.current| && c !in s.recovering
    case Pick => s.hold.Choosing? && s.hold.cpu < |s.m.current|
    case Finish(_) => s.hold.Picked? && s.hold.cpu < |s.m.current|
    case Wake(v) => s.hold.Free?
    case Alloc(v, kind, _) => v < MAX_VCPUS && v !in s.m.vcpus && IsDriver(kind)
    case Init(v, _) => v in s.pending && v in s.m.vcpus
    case Register(v) => s.hold.Free? && v in s.starting && v in s.m.vcpus
    case Crash(c, _) =>
      // The exception came from a driver that was CPU `c`'s current vCPU.
      && Executes(s, c) && s.m.current[c] in s.m.vcpus && IsDriver(s.m.vcpus[s.m.current[c]].kind)
    case Mark(c, _) => s.hold.Free? && c < |s.m.current| && c in s.marking
    case RecoverTo(c, v) =>
      && c < |s.m.current| && c in s.recovering && c !in s.marking && v in s.queued && v in s.m.vcpus
      && IsDriver(s.m.vcpus[v].kind) && s.m.vcpus[v].state == Ready && FrameRecoverable(s.m.vcpus[v].frame)
    case RecoverIdle(c) => c < |s.m.current| && c in s.recovering && c !in s.marking
    case Answer(v, _) => v in s.m.vcpus
  }

  function SetVcpu(s: State, v: nat, x: Vcpu): State {
    s.(m := s.m.(vcpus := s.m.vcpus[v := x]))
  }

  // The state in which block_current enters the pass.
  function Blocking(s: State, c: nat): State
    requires c < |s.m.current|
  {
    if s.m.current[c] in s.m.vcpus then s.(m := Halt(s.m, s.m.current[c])) else s
  }

  function Next(s: State, step: Step): State
    requires Enabled(s, step)
  {
    match step
    case Tick(c, frame, kernelRsp) => Begin(s, c, frame, kernelRsp)
    case Block(c, frame, kernelRsp) =>
      if s.m.current[c] == s.m.idle[c] then s else Begin(Blocking(s, c), c, frame, kernelRsp)
    case Pick =>
      (match Choose(s.m)
       case None => s.(m := GoIdle(s.m, s.hold.cpu), hold := Free)
       case Some((chosen, next)) =>
         s.(m := chosen, hold := Picked(s.hold.cpu, next), queued := s.queued + {next}))
    case Finish(curPml4) =>
      var Picked(c, next) := s.hold;
      var loaded := Load(s.m, c, next, curPml4);
      if loaded.frame == None then s.(m := loaded.m, hold := Free) else
      var event := LoadEvent(next, s.m.vcpus[next].stamp, loaded.frame.value, loaded.switched);
      s.(m := loaded.m, hold := Free, context := s.context[c := next], h := s.h.(loads := s.h.loads + [event]))
    case Wake(v) =>
      if IsHalted(s.m, v)
      then SetVcpu(s, v, s.m.vcpus[v].(state := Ready, vruntime := 0)).(queued := s.queued + {v})
      else s
    case Alloc(v, kind, pml4) =>
      SetVcpu(s, v, Vcpu(kind, 0, Halted, FRESH, None, 0, pml4)).(pending := s.pending + {v})
    case Init(v, frame) =>
      SetVcpu(s, v, s.m.vcpus[v].(frame := frame, stamp := Some(s.h.serial), state := Ready))
        .(pending := s.pending - {v}, starting := s.starting + {v}, h := Stamped(s.h, v, frame))
    case Register(v) =>
      // A full table refuses the driver, which then stays out of every gang.
      if s.m.count >= MAX_GANGS then s else
      s.(m := Joined(s.m, v), starting := s.starting - {v}, queued := s.queued + {v})
    case Crash(c, known) =>
      // Only a driver that belongs to a service is marked.
      s.(recovering := s.recovering + {c}, marking := if known then s.marking + {c} else s.marking)
    case Mark(c, pml4) => s.(m := Marked(s.m, s.m.current[c], pml4), marking := s.marking - {c})
    case RecoverTo(c, v) =>
      var x := s.m.vcpus[v];
      var t := SetVcpu(s, v, x.(state := Running, stamp := None));
      t.(m := t.m.(current := s.m.current[c := v]), context := s.context[c := v], recovering := s.recovering - {c},
         h := s.h.(loads := s.h.loads + [LoadEvent(v, x.stamp, x.frame, true)]))
    case RecoverIdle(c) =>
      s.(m := GoIdle(s.m, c), context := s.context[c := s.m.idle[c]], recovering := s.recovering - {c})
    case Answer(v, result) =>
      var x := s.m.vcpus[v];
      SetVcpu(s, v, x.(frame := x.frame.(rax := result)))
        .(h := if x.stamp.Some? then s.h.(answers := s.h.answers[x.stamp.value := result]) else s.h)
  }

  /** A pass is the steps of a tick with no step of another CPU in between. */
  lemma PassIsTick(s: State, c: nat, frame: Frame, kernelRsp: nat, curPml4: nat)
    requires Enabled(s, Tick(c, frame, kernelRsp))
    ensures var t, m := Next(s, Tick(c, frame, kernelRsp)), Pass(s.m, c, frame, kernelRsp, s.h.serial, curPml4).0;
      && (s.m.count < 1 ==> m == t.m)
      && (s.m.count >= 1 ==> Enabled(t, Pick))
      && (s.m.count >= 1 && Next(t, Pick).hold.Free? ==> m == Next(t, Pick).m)
      && (s.m.count >= 1 && !Next(t, Pick).hold.Free? ==>
            Enabled(Next(t, Pick), Finish(curPml4)) && m == Next(Next(t, Pick), Finish(curPml4)).m)
  {
    CleanShape(s.m.vcpus, s.m.gangs, 1, s.m.count);
  }
}
