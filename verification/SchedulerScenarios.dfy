/** Runs from boot that show where the scheduler does less than it seems to: one vCPU run by two CPUs, in
    two ways, and a driver freed because it was registered after its crash. */
module SchedulerScenarios {
  import opened Basics
  import opened SchedulerModel
  import opened SchedulerSteps
  import opened SchedulerRuns
  import opened SchedulerFreed
  import opened SchedulerContexts

  const IDLING := Vcpu(IdleKind, 0, Idle, FRESH, None, 0, 0)
  // The frame of a driver in user mode.
  const USER := Frame(0, 0x40_0000, 0x1B, 0x23, 0x7FFF_0000, [])

  // Two CPUs after boot.
  function Boot(): State {
    State(Machine(map[0 := IDLING, 1 := IDLING], seq(MAX_GANGS, _ => None), 0, [0, 1], [0, 1], [true, true]),
          [0, 1], Free, {}, {}, {}, {}, {}, History(0, map[], map[], []))
  }

  datatype Trace = Trace(states: seq<State>, steps: seq<Step>)

  // The trace is a run that has reached `s`.
  ghost predicate Reaches(r: Trace, s: State) {
    Run(r.states, r.steps) && r.states[|r.steps|] == s
  }

  lemma Extend(r: Trace, s: State, step: Step) returns (r': Trace, t: State)
    requires Reaches(r, s) && Enabled(s, step)
    ensures Reaches(r', t) && t == Next(s, step)
    ensures |r'.steps| == |r.steps| + 1 && r'.steps[|r.steps|] == step && r'.states[|r.steps|] == s
    ensures r.steps <= r'.steps && r.states <= r'.states
  {
    t := Next(s, step);
    r' := Trace(r.states + [t], r.steps + [step]);
    forall k | 0 <= k < |r'.steps|
      ensures Enabled(r'.states[k], r'.steps[k]) && r'.states[k + 1] == Next(r'.states[k], r'.steps[k])
    {
      assert k < |r.steps| ==> r'.states[k] == r.states[k] && r'.states[k + 1] == r.states[k + 1];
    }
  }

  // -- Machines with one gang -------------------------------------------------------------------------

  // The only gang is number `g`, the last one made, and the gang of vCPU `v`, which is `x`.
  ghost predicate OneGang(m: Machine, g: nat, v: nat, x: Vcpu, running: nat) {
    && Shaped(m) && 1 <= g < MAX_GANGS && m.count == g + 1 && m.idle == [0, 1]
    && v in m.vcpus && m.vcpus[v] == x && x.gang == g
    && m.gangs[g].Some? && m.gangs[g].value.slots == Single(v) && m.gangs[g].value.vcpuCount == 1
    && m.gangs[g].value.running == running && m.gangs[g].value.active && m.gangs[g].value.vruntime < U64_MAX
    && forall i :: 0 <= i < MAX_GANGS && i != g ==> m.gangs[i] == None
  }

  lemma CleansNothing(m: Machine, g: nat, v: nat, x: Vcpu, running: nat)
    requires OneGang(m, g, v, x, running) && x.state != Terminated
    ensures CleanUp(m) == m
  {
    var (vcpus, gangs) := CleanFrom(m.vcpus, m.gangs, 1, m.count);
    assert IsGangOf(m.gangs, g, v);
    assert IsTidy(m.vcpus, m.gangs, g);
    CleanEffect(m.vcpus, m.gangs, 1, m.count);
    forall w
      ensures !Frees(m.vcpus, m.gangs, 1, m.count, w)
    {
      assert IsGangOf(m.gangs, g, w) ==> Single(w)[0] == Single(v)[0];
    }
    assert vcpus == m.vcpus && gangs == m.gangs;
  }

  // Its gang is the best one if it is not counted as running.
  lemma BestIsIt(m: Machine, g: nat, v: nat, x: Vcpu)
    requires OneGang(m, g, v, x, 0)
    ensures IsBest(m, g) && BestGang(m.gangs, 1, m.count, None, U64_MAX) == Some(g)
  {
    BestGangFound(m.gangs, 1, m.count, None, U64_MAX);
    assert Choosable(m.gangs[g]);
  }

  // It is chosen if it is Ready.
  lemma Chooses(m: Machine, g: nat, v: nat, x: Vcpu)
    requires OneGang(m, g, v, x, 0) && x.vruntime < U64_MAX
    ensures x.state != Ready ==> Choose(m) == None
    ensures x.state == Ready ==>
      Choose(m) == Some((m.(gangs := m.gangs[g := Some(m.gangs[g].value.(running := 1))]), v))
  {
    BestIsIt(m, g, v, x);
    PickVcpuFound(m.vcpus, Single(v));
    assert Rank(m.vcpus, Single(v)[0]) < U64_MAX <==> x.state == Ready;
  }

  // -- Stages of a run -------------------------------------------------------------------------------

  // Between passes: what OneGang says, and the current vCPU and the context of each CPU.
  ghost predicate Stage(s: State, g: nat, v: nat, x: Vcpu, running: nat, current: seq<nat>, context: seq<nat>) {
    && OneGang(s.m, g, v, x, running) && s.m.current == current && s.context == context
    && |current| == |context| == 2 && s.hold == Free && s.m.gangs[g].value.vruntime == 0
    && x.kind == HardwareDriver && x.frame == USER && x.vruntime < U64_MAX - 20 && x.pml4 == 0
  }

  // No gang, no driver being started, and `v` not allocated.
  ghost predicate Clear(s: State, v: nat, current: seq<nat>, context: seq<nat>) {
    && Shaped(s.m) && s.m.idle == [0, 1] && s.m.current == current && s.context == context
    && |current| == |context| == 2 && s.hold == Free && s.pending == {} && s.starting == {}
    && v !in s.m.vcpus && v < MAX_VCPUS && s.m.count < 3 && forall i :: 0 <= i < MAX_GANGS ==> s.m.gangs[i] == None
  }

  lemma BootReached() returns (r: Trace)
    ensures Reaches(r, Boot())
  {
    r := Trace([Boot()], []);
  }

  // The next gang's number.
  function NextGang(m: Machine): nat {
    if m.count == 0 then 1 else m.count
  }

  function Started(g: nat, serial: nat): Vcpu {
    Vcpu(HardwareDriver, g, Ready, USER, Some(serial), 0, 0)
  }

  // A driver is allocated, initialised and registered.
  lemma Registers(s: State, v: nat, current: seq<nat>, context: seq<nat>) returns (s1: State, s2: State, t: State)
    requires Clear(s, v, current, context)
    ensures Enabled(s, Alloc(v, HardwareDriver, 0)) && s1 == Next(s, Alloc(v, HardwareDriver, 0))
    ensures Enabled(s1, Init(v, USER)) && s2 == Next(s1, Init(v, USER))
    ensures Enabled(s2, Register(v)) && t == Next(s2, Register(v))
    ensures var g := NextGang(s.m);
      && Stage(t, g, v, Started(g, s.h.serial), 0, current, context)
      && t == s.(m := t.m, queued := s.queued + {v}, h := t.h)
    ensures t.m.vcpus == s.m.vcpus[v := t.m.vcpus[v]]
  {
    s1 := Next(s, Alloc(v, HardwareDriver, 0));
    s2 := Next(s1, Init(v, USER));
    t := Next(s2, Register(v));
    assert t.pending == {} && t.starting == {};
  }

  lemma StartRun(r: Trace, s: State, v: nat, current: seq<nat>, context: seq<nat>) returns (r': Trace, t: State)
    requires Reaches(r, s) && Clear(s, v, current, context)
    ensures Reaches(r', t)
    ensures var g := NextGang(s.m);
      && Stage(t, g, v, Started(g, s.h.serial), 0, current, context)
      && t == s.(m := t.m, queued := s.queued + {v}, h := t.h)
    ensures t.m.vcpus == s.m.vcpus[v := t.m.vcpus[v]]
  {
    var s1, s2, s3 := Registers(s, v, current, context);
    var r1, t1 := Extend(r, s, Alloc(v, HardwareDriver, 0));
    var r2, t2 := Extend(r1, s1, Init(v, USER));
    r', t := Extend(r2, s2, Register(v));
  }

  // What steps of a pass leave alone.
  ghost predicate Outside(s: State, t: State) {
    && t.recovering == s.recovering && t.marking == s.marking && t.pending == s.pending && t.starting == s.starting
    && s.queued <= t.queued && t.m.vcpus.Keys == s.m.vcpus.Keys
  }

  // A tick on a CPU on its idle vCPU, and the choice.
  lemma PickRun(r: Trace, s: State, g: nat, v: nat, x: Vcpu, c: nat, current: seq<nat>, context: seq<nat>)
    returns (r': Trace, u: State)
    requires Reaches(r, s) && Stage(s, g, v, x, 0, current, context) && x.state == Ready
    requires c < 2 && current[c] == c && c !in s.recovering
    ensures Reaches(r', u) && u.hold == Picked(c, v) && OneGang(u.m, g, v, x, 1) && Outside(s, u)
    ensures u.m.current == current && u.context == context && u.m.vcpus == s.m.vcpus && u.m.gangs[g].value.vruntime == 0
  {
    CleansNothing(s.m, g, v, x, 0);
    var r1, t := Extend(r, s, Tick(c, USER, 0));
    assert t == s.(hold := Choosing(c));
    Chooses(s.m, g, v, x);
    r', u := Extend(r1, t, Pick);
  }

  // It is switched to.
  lemma SwitchRun(r: Trace, s: State, g: nat, v: nat, x: Vcpu, c: nat, current: seq<nat>, context: seq<nat>)
    returns (r': Trace, u: State)
    requires Reaches(r, s) && Stage(s, g, v, x, 0, current, context) && x.state == Ready && x.stamp.Some?
    requires c < 2 && current[c] == c && c !in s.recovering
    ensures Reaches(r', u) && Stage(u, g, v, x.(state := Running, stamp := None), 1, current[c := v], context[c := v])
    ensures Outside(s, u)
  {
    var r1, t := PickRun(r, s, g, v, x, c, current, context);
    assert x.frame == Repaired(x.frame) && FrameOk(x.frame);
    r', u := Extend(r1, t, Finish(0));
  }

  // -- A vCPU that blocks with nothing else Ready -------------------------------------------------------

  // It blocks on CPU 0, finds nothing to run, and goes on.
  lemma BlockRun(r: Trace, s: State, x: Vcpu) returns (r': Trace, u: State)
    requires Reaches(r, s) && Stage(s, 1, 2, x, 1, [2, 1], [2, 1]) && x.state == Running && s.recovering == {}
    ensures Reaches(r', u) && u.recovering == {}
    ensures Stage(u, 1, 2, x.(state := Halted, stamp := Some(s.h.serial)), 0, [0, 1], [2, 1])
  {
    var m, y := Blocking(s, 0).m, x.(state := Halted);
    assert OneGang(m, 1, 2, y, 0);
    CleansNothing(m, 1, 2, y, 0);
    var r1, t := Extend(r, s, Block(0, USER, 0));
    var z := y.(stamp := Some(s.h.serial));
    assert OneGang(t.m, 1, 2, z, 0);
    Chooses(t.m, 1, 2, z);
    r', u := Extend(r1, t, Pick);
  }

  lemma WakeRun(r: Trace, s: State, x: Vcpu) returns (r': Trace, u: State)
    requires Reaches(r, s) && Stage(s, 1, 2, x, 0, [0, 1], [2, 1]) && x.state == Halted && s.recovering == {}
    ensures Reaches(r', u) && Stage(u, 1, 2, x.(state := Ready, vruntime := 0), 0, [0, 1], [2, 1]) && u.recovering == {}
  {
    r', u := Extend(r, s, Wake(2));
  }

  // Driver 2 is started and switched to on CPU `c`.
  lemma FirstRun(c: nat) returns (r: Trace, s: State)
    requires c < 2
    ensures Reaches(r, s)
    ensures Stage(s, 1, 2, Started(1, 0).(state := Running, stamp := None), 1, [0, 1][c := 2], [0, 1][c := 2])
    ensures s.recovering == {} && s.marking == {} && s.pending == {} && s.starting == {} && s.m.vcpus.Keys == {0, 1, 2}
  {
    r := BootReached();
    r, s := StartRun(r, Boot(), 2, [0, 1], [0, 1]);
    r, s := SwitchRun(r, s, 1, 2, Started(1, 0), c, [0, 1], [0, 1]);
  }

  // It blocks on CPU 0 and is woken.
  lemma BlockedRun() returns (r: Trace, s: State, x: Vcpu)
    ensures Reaches(r, s) && Stage(s, 1, 2, x, 0, [0, 1], [2, 1]) && x.state == Ready && x.stamp.Some?
    ensures s.recovering == {}
  {
    r, s := FirstRun(0);
    r, s := BlockRun(r, s, s.m.vcpus[2]);
    r, s := WakeRun(r, s, s.m.vcpus[2]);
    x := s.m.vcpus[2];
  }

  /** A run from boot in which two CPUs run one vCPU: a driver blocks while no other vCPU is Ready, so
      that its CPU goes on with it; it is woken, and a tick loads it on the other CPU. */
  lemma OneVcpuTwice() returns (states: seq<State>, steps: seq<Step>)
    ensures Run(states, steps) && !Apart(states[|steps|])
    ensures var s := states[|steps|]; Executes(s, 0) && Executes(s, 1) && s.context == [2, 2]
  {
    var r, s, x := BlockedRun();
    r, s := SwitchRun(r, s, 1, 2, x, 1, [0, 1], [2, 1]);
    states, steps := r.states, r.steps;
    assert Executes(s, 0) && Executes(s, 1);
  }

  // -- A vCPU that recovery takes after its save ----------------------------------------------------------

  // Driver 2 crashes on CPU 1, which is then about to recover.
  lemma CrashRun(r: Trace, s: State, x: Vcpu) returns (r': Trace, t: State)
    requires Reaches(r, s) && Stage(s, 1, 2, x, 1, [0, 2], [0, 2]) && s.m.vcpus.Keys == {0, 1, 2}
    requires s.recovering == {} && s.marking == {} && s.pending == {} && s.starting == {}
    ensures Reaches(r', t) && Clear(t, 3, [0, 2], [0, 2]) && t.recovering == {1} && t.marking == {} && t.m.count == 2
  {
    var r1, s1 := Extend(r, s, Crash(1, true));
    r', t := Extend(r1, s1, Mark(1, 0));
    forall i | 0 <= i < MAX_GANGS && s.m.gangs[i].Some?
      ensures i == 1 && t.m.gangs[i] == None
    {
      assert Empty(Without(Single(2), 2));
    }
  }

  // A tick on CPU 0 saves driver 3.
  lemma SaveRun(r: Trace, s: State, x: Vcpu) returns (r': Trace, t: State)
    requires Reaches(r, s) && Stage(s, 2, 3, x, 1, [3, 2], [3, 2]) && x.state == Running && s.recovering == {1}
    ensures Reaches(r', t) && t.hold == Choosing(0) && t.context == [3, 2] && t.queued == s.queued
    ensures t.recovering == s.recovering && t.marking == s.marking
    ensures var y := x.(state := Ready, stamp := Some(s.h.serial), vruntime := x.vruntime + 20);
      OneGang(t.m, 2, 3, y, 0) && t.m.current == [3, 2]
  {
    CleansNothing(s.m, 2, 3, x, 1);
    r', t := Extend(r, s, Tick(0, USER, 0));
  }

  /** A run from boot that ends with two CPUs running one vCPU: crash recovery on CPU 1 resumes driver 3
      between its save and the choice of a pass on CPU 0. The pass finds nothing to run, and CPU 0 goes on
      with driver 3. */
  lemma TakenAfterSave() returns (states: seq<State>, steps: seq<Step>)
    ensures Run(states, steps) && !Apart(states[|steps|])
    ensures |steps| >= 2 && steps[|steps| - 2] == RecoverTo(1, 3) && states[|steps| - 2].hold == Choosing(0)
  {
    var r, s := FirstRun(1);
    r, s := CrashRun(r, s, s.m.vcpus[2]);
    r, s := StartRun(r, s, 3, [0, 2], [0, 2]);
    r, s := SwitchRun(r, s, 2, 3, s.m.vcpus[3], 0, [0, 2], [0, 2]);
    r, s := SaveRun(r, s, s.m.vcpus[3]);
    states, steps := TakeRun(r, s);
  }

  // Driver 3 has been saved by CPU 0, and CPU 1 may recover to it.
  ghost predicate MayTake(s: State) {
    && s.hold == Choosing(0) && s.context == [3, 2] && s.m.current == [3, 2] && 3 in s.queued
    && s.recovering == {1} && s.marking == {} && 3 in s.m.vcpus && OneGang(s.m, 2, 3, s.m.vcpus[3], 0)
    && s.m.vcpus[3].kind == HardwareDriver && s.m.vcpus[3].state == Ready && s.m.vcpus[3].frame == USER
  }

  lemma Takes(s: State)
    requires Inv(s) && MayTake(s)
    ensures Enabled(s, RecoverTo(1, 3))
    ensures var t := Next(s, RecoverTo(1, 3)); Enabled(t, Pick) && !Apart(Next(t, Pick))
  {
    assert FrameRecoverable(USER);
    BestIsIt(s.m, 2, 3, s.m.vcpus[3]);
    SavedYetRun(s, 1, 3);
  }

  lemma TakeRun(r: Trace, s: State) returns (states: seq<State>, steps: seq<Step>)
    requires Reaches(r, s) && MayTake(s)
    ensures Run(states, steps) && !Apart(states[|steps|])
    ensures |steps| >= 2 && steps[|steps| - 2] == RecoverTo(1, 3) && states[|steps| - 2].hold == Choosing(0)
  {
    RunsKeep(r.states, r.steps, |r.steps|);
    Takes(s);
    var r1, t := Extend(r, s, RecoverTo(1, 3));
    var r2, u := Extend(r1, t, Pick);
    states, steps := r2.states, r2.steps;
  }

  // -- A freed driver -------------------------------------------------------------------------------

  // While driver 2 runs on CPU 1, driver 3 is allocated, woken before it is initialised, and initialised.
  lemma EarlyWake(r: Trace, s: State, x: Vcpu) returns (r': Trace, t: State)
    requires Reaches(r, s) && Stage(s, 1, 2, x, 1, [0, 2], [0, 2]) && s.m.vcpus.Keys == {0, 1, 2}
    requires s.pending == {} && s.starting == {}
    ensures Reaches(r', t) && t == s.(m := t.m, queued := t.queued, starting := {3}, h := t.h) && 3 in t.queued
    ensures t.m == s.m.(vcpus := s.m.vcpus[3 := Started(0, s.h.serial)])
  {
    var r1, s1 := Extend(r, s, Alloc(3, HardwareDriver, 0));
    var r2, s2 := Extend(r1, s1, Wake(3));
    r', t := Extend(r2, s2, Init(3, USER));
    assert t.pending == {} && t.starting == {3};
    assert t.m.vcpus == s.m.vcpus[3 := Started(0, s.h.serial)];
  }

  // Driver 2 crashes and CPU 1 recovers to driver 3.
  lemma CrashTo(r: Trace, s: State) returns (r': Trace, t: State)
    requires Reaches(r, s) && s.hold == Free && s.recovering == {} && s.marking == {}
    requires s.starting == {3} && 3 in s.queued
    requires Shaped(s.m) && s.m.current == [0, 2] && |s.context| == 2 && s.m.count == 2
    requires {2, 3} <= s.m.vcpus.Keys && s.m.vcpus[2].kind == HardwareDriver
    requires s.m.vcpus[3].kind == HardwareDriver && s.m.vcpus[3].state == Ready && s.m.vcpus[3].frame == USER
    ensures Reaches(r', t) && t.hold == Free && t.starting == {3} && t.recovering == {} && t.marking == {}
    ensures Shaped(t.m) && t.m.count == 2 && t.m.current == [0, 3] && |t.context| == 2
    ensures 3 in t.m.vcpus && t.m.vcpus[3].kind == HardwareDriver
  {
    var r1, s1 := Extend(r, s, Crash(1, true));
    var r2, s2 := Extend(r1, s1, Mark(1, 0));
    assert FrameRecoverable(USER) && s2.recovering == {1} && s2.marking == {};
    r', t := Extend(r2, s2, RecoverTo(1, 3));
    assert t.recovering == {};
  }

  // It crashes too and is registered.
  lemma LateRun(r: Trace, s: State) returns (r': Trace, t: State)
    requires Reaches(r, s) && s.hold == Free && s.starting == {3} && s.recovering == {} && s.marking == {}
    requires Shaped(s.m) && s.m.count == 2 && s.m.current == [0, 3] && |s.context| == 2
    requires 3 in s.m.vcpus && s.m.vcpus[3].kind == HardwareDriver
    ensures Reaches(r', t) && t.hold == Free && t.recovering == {1} && Shaped(t.m) && t.m.count == 3
    ensures |t.m.current| == |t.context| == 2 && FreedIn(t, 3)
  {
    var r1, s1 := Extend(r, s, Crash(1, true));
    var r2, s2 := Extend(r1, s1, Mark(1, 0));
    r', t := Extend(r2, s2, Register(3));
  }

  /** A run from boot that frees a driver: woken before it is initialised, it is resumed by crash
      recovery before it is registered, crashes, is registered, and a tick frees it. */
  lemma DriverIsFreed() returns (states: seq<State>, steps: seq<Step>)
    ensures Run(states, steps) && FreesSome(states, steps)
  {
    var r, s := FirstRun(1);
    r, s := EarlyWake(r, s, s.m.vcpus[2]);
    r, s := CrashTo(r, s);
    r, s := LateRun(r, s);
    RunsKeep(r.states, r.steps, |r.steps|);
    var k, step := |r.steps|, Tick(0, USER, 0);
    PassFrees(s, step, 3);
    r, s := Extend(r, s, step);
    states, steps := r.states, r.steps;
    assert Removes(states[k], steps[k], 3);
  }
}
