/** Fairness of the scheduler on one CPU with a fixed set of single-vCPU driver gangs that never
    block: vruntimes stay close, and every gang runs again within a bound. A round is a whole
    scheduling pass. */
module SchedulerFairness {
  import opened Basics
  import opened SchedulerModel
  import opened SchedulerSteps
  import opened SchedulerRuns

  const CHARGE: nat := 2000  // VRUNTIME_TICK * 100 for a gang of one

  // What comes from outside in one round.
  datatype Input = Input(frame: Frame, kernelRsp: nat, serial: nat, curPml4: nat)

  // A round is a whole pass.
  function Round(m: Machine, x: Input): Machine
    requires OneCpu(m)
  {
    Pass(m, 0, x.frame, x.kernelRsp, x.serial, x.curPml4).0
  }

  predicate OneCpu(m: Machine) {
    Shaped(m) && |m.current| == 1
  }

  // -- Vruntimes alone -----------------------------------------------------------------------------

  // The vruntime of each gang, and the gang that runs.
  type Clock = seq<Option<nat>>

  function Charged(v: Clock, cur: Option<nat>): Clock {
    if cur.Some? && cur.value < |v| && v[cur.value].Some? then v[cur.value := Some(v[cur.value].value + CHARGE)] else v
  }

  // Gang `g` is the first of those with the least vruntime.
  predicate IsLeast(v: Clock, g: nat) {
    && g < |v| && v[g].Some?
    && (forall i :: 0 <= i < |v| && v[i].Some? ==> v[g].value <= v[i].value)
    && forall i :: 0 <= i < g && v[i].Some? ==> v[g].value < v[i].value
  }

  // No gang is ahead of another by more than `d`.
  predicate Within(v: Clock, d: nat) {
    forall i, j :: 0 <= i < |v| && 0 <= j < |v| && v[i].Some? && v[j].Some? ==> v[i].value <= v[j].value + d
  }

  /** If the gang that runs has the least vruntime, charging it keeps the spread within the larger of
      what it was and one charge. */
  lemma SpreadKept(v: Clock, cur: Option<nat>, d: nat)
    requires Within(v, d) && d >= CHARGE && (cur.Some? ==> IsLeast(v, cur.value))
    ensures Within(Charged(v, cur), d)
  {
  }

  // How often gang `j` can run before gang `g` is behind it, while `g` waits.
  function Turns(v: Clock, g: nat, j: nat): nat
    requires g < |v| && v[g].Some?
  {
    if j == g || j >= |v| || v[j] == None || v[j].value > v[g].value then 0
    else (v[g].value - v[j].value) / CHARGE + 1
  }

  // The sum over the first `n` gangs.
  function AllTurns(v: Clock, g: nat, n: nat): nat
    requires g < |v| && v[g].Some?
  {
    if n == 0 then 0 else AllTurns(v, g, n - 1) + Turns(v, g, n - 1)
  }

  lemma {:induction false} TurnUsed(v: Clock, g: nat, cur: nat, n: nat)
    requires g < |v| && v[g].Some? && cur < |v| && cur != g && IsLeast(v, cur)
    ensures var w := Charged(v, Some(cur));
      AllTurns(w, g, n) == AllTurns(v, g, n) - if cur < n then 1 else 0
  {
    if n > 0 {
      TurnUsed(v, g, cur, n - 1);
    }
  }

  lemma {:induction false} TurnsLeft(v: Clock, g: nat, cur: nat, n: nat)
    requires g < |v| && v[g].Some? && cur < n <= |v| && cur != g && IsLeast(v, cur)
    ensures AllTurns(v, g, n) >= 1
  {
    if cur < n - 1 {
      TurnsLeft(v, g, cur, n - 1);
    }
  }

  // Round `k` charges the gang that ran and lets the least one run.
  ghost predicate ClockStep(clocks: seq<Clock>, curs: seq<Option<nat>>, k: nat) {
    && k + 1 < |clocks| == |curs| && clocks[k + 1] == Charged(clocks[k], curs[k])
    && curs[k + 1].Some? && IsLeast(clocks[k + 1], curs[k + 1].value)
  }

  ghost predicate ClockRun(clocks: seq<Clock>, curs: seq<Option<nat>>) {
    && 0 < |clocks| == |curs|
    && forall k: nat {:trigger ClockStep(clocks, curs, k)} :: k + 1 < |clocks| ==> ClockStep(clocks, curs, k)
  }

  lemma LeastRuns(clocks: seq<Clock>, curs: seq<Option<nat>>, k: nat)
    requires ClockRun(clocks, curs) && 1 <= k < |clocks|
    ensures curs[k].Some? && IsLeast(clocks[k], curs[k].value)
  {
    assert ClockStep(clocks, curs, k - 1);
  }

  lemma {:induction false} SpreadBound(clocks: seq<Clock>, curs: seq<Option<nat>>, d: nat, j: nat, k: nat)
    requires ClockRun(clocks, curs) && 1 <= j <= k < |clocks| && Within(clocks[j], d) && d >= CHARGE
    ensures Within(clocks[k], d)
  {
    if k > j {
      SpreadBound(clocks, curs, d, j, k - 1);
      LeastRuns(clocks, curs, k - 1);
      assert ClockStep(clocks, curs, k - 1);
      SpreadKept(clocks[k - 1], curs[k - 1], d);
    }
  }

  // From round `k` on gang `g` runs within as many rounds as the others have turns left.
  lemma {:induction false} RunsWithin(clocks: seq<Clock>, curs: seq<Option<nat>>, g: nat, k: nat) returns (n: nat)
    requires ClockRun(clocks, curs) && 1 <= k < |clocks| && g < |clocks[k]| && clocks[k][g].Some?
    requires k + AllTurns(clocks[k], g, |clocks[k]|) < |clocks|
    ensures k <= n <= k + AllTurns(clocks[k], g, |clocks[k]|) && n < |curs| && curs[n] == Some(g)
    decreases |clocks| - k
  {
    LeastRuns(clocks, curs, k);
    if curs[k].value == g {
      n := k;
    } else {
      var all := |clocks[k]|;
      TurnsLeft(clocks[k], g, curs[k].value, all);
      TurnUsed(clocks[k], g, curs[k].value, all);
      assert ClockStep(clocks, curs, k);
      n := RunsWithin(clocks, curs, g, k + 1);
    }
  }

  // -- The machine's clocks ---------------------------------------------------------------------------

  function ClockOf(gangs: Gangs): (v: Clock)
    ensures |v| == |gangs|
    ensures forall i :: 0 <= i < |gangs| ==> v[i] == if gangs[i].Some? then Some(gangs[i].value.vruntime) else None
  {
    seq(|gangs|, i requires 0 <= i < |gangs| => if gangs[i].Some? then Some(gangs[i].value.vruntime) else None)
  }

  // A vCPU that the scheduler can load.
  predicate Loadable(v: Vcpu) {
    v.state == Ready && v.stamp.Some? && FrameOk(v.frame)
  }

  // Gang `i` is a driver gang of one whose vCPU runs, if `cur` is the gang, or else can be loaded.
  ghost predicate GangOk(m: Machine, i: nat, cur: Option<nat>) {
    && 1 <= i < m.count <= |m.gangs| && m.gangs[i].Some?
    && |m.gangs[i].value.slots| == 8 && m.gangs[i].value.slots[0].Some?
    && var g, runs := m.gangs[i].value, cur == Some(i);
       var v := g.slots[0].value;
       && g.slots == Single(v) && g.vcpuCount == 1 && g.active && g.running == (if runs then 1 else 0)
       && v in m.vcpus && v !in m.idle
       && m.vcpus[v].gang == i && IsDriver(m.vcpus[v].kind) && m.vcpus[v].pml4 < MAX_PML4
       && if runs then m.vcpus[v].state == Running else Loadable(m.vcpus[v])
  }

  function VcpuOf(m: Machine, i: nat): nat
    requires i < |m.gangs| && m.gangs[i].Some? && |m.gangs[i].value.slots| > 0 && m.gangs[i].value.slots[0].Some?
  {
    m.gangs[i].value.slots[0].value
  }

  // All gangs are such, `cur` is the one whose vCPU runs, and there is one at least.
  ghost predicate GangsOk(m: Machine, cur: Option<nat>) {
    && (forall i: nat {:trigger GangOk(m, i, cur)} :: i < |m.gangs| && m.gangs[i].Some? ==> GangOk(m, i, cur))
    && exists i: nat :: i < |m.gangs| && m.gangs[i].Some?
  }

  ghost predicate Steady(m: Machine, cur: Option<nat>) {
    && OneCpu(m) && GangsOk(m, cur)
    && (cur == None ==> m.current[0] == m.idle[0])
    && (cur.Some? ==> cur.value < |m.gangs| && GangOk(m, cur.value, cur) && m.current[0] == VcpuOf(m, cur.value))
  }

  // Every counter has room for `d` more.
  ghost predicate Room(m: Machine, d: nat) {
    && (forall i :: 0 <= i < |m.gangs| && m.gangs[i].Some? ==> m.gangs[i].value.vruntime + d < U64_MAX)
    && forall v :: v in m.vcpus ==> m.vcpus[v].vruntime + d < U64_MAX
  }

  // -- A round ------------------------------------------------------------------------------------

  lemma {:induction false} CleanAll(vcpus: Vcpus, gangs: Gangs, i: nat, count: nat)
    requires count <= |gangs|
    requires forall k :: 0 <= k < |gangs| && gangs[k].Some? ==>
      !Empty(gangs[k].value.slots) &&
      forall j :: 0 <= j < |gangs[k].value.slots| ==> !IsTerminated(vcpus, gangs[k].value.slots[j])
    ensures CleanFrom(vcpus, gangs, i, count) == (vcpus, gangs)
    decreases count - i
  {
    if i < count {
      if gangs[i].Some? {
        CleanSlotsNothing(vcpus, gangs[i].value.slots);
      }
      assert gangs[i := CleanGang(vcpus, gangs[i]).1] == gangs;
      CleanAll(vcpus, gangs, i + 1, count);
    }
  }

  lemma SteadyClean(m: Machine, cur: Option<nat>)
    requires Steady(m, cur)
    ensures CleanUp(m) == m
  {
    forall k: nat | k < |m.gangs| && m.gangs[k].Some?
      ensures !Empty(m.gangs[k].value.slots)
      ensures forall j :: 0 <= j < |m.gangs[k].value.slots| ==> !IsTerminated(m.vcpus, m.gangs[k].value.slots[j])
    {
      assert GangOk(m, k, cur);
      assert m.gangs[k].value.slots[0].Some?;
    }
    CleanAll(m.vcpus, m.gangs, 1, m.count);
  }

  // From `m` to `saved`, gang `g` stops running and is charged, and can be chosen again.
  ghost predicate Recharged(m: Machine, saved: Machine, g: nat) {
    && saved == m.(vcpus := saved.vcpus, gangs := saved.gangs) && GangOk(m, g, Some(g)) && GangOk(saved, g, None)
    && var v := VcpuOf(m, g);
       && v in saved.vcpus && saved.vcpus == m.vcpus[v := saved.vcpus[v]]
       && saved.vcpus[v].vruntime == m.vcpus[v].vruntime + VRUNTIME_TICK
       && saved.gangs == m.gangs[g := saved.gangs[g]] && VcpuOf(saved, g) == v
       && saved.gangs[g].value.vruntime == m.gangs[g].value.vruntime + CHARGE
  }

  lemma SaveRecharges(m: Machine, g: nat, x: Input)
    requires Steady(m, Some(g)) && Room(m, CHARGE) && FrameOk(SavedFrame(x.frame, x.kernelRsp))
    ensures Recharged(m, Save(m, 0, x.frame, x.kernelRsp, x.serial), g)
  {
  }

  lemma RechargedSteady(m: Machine, saved: Machine, g: nat)
    requires Steady(m, Some(g)) && Room(m, CHARGE) && Recharged(m, saved, g)
    ensures GangsOk(saved, None) && Room(saved, 0) && ClockOf(saved.gangs) == Charged(ClockOf(m.gangs), Some(g))
  {
    forall i: nat | i < |saved.gangs| && saved.gangs[i].Some?
      ensures GangOk(saved, i, None)
    {
      assert GangOk(m, i, Some(g));
    }
    assert saved.gangs[g].Some?;
  }

  // After the save every gang can be chosen and the one that ran has been charged.
  lemma SteadySave(m: Machine, cur: Option<nat>, x: Input)
    requires Steady(m, cur) && Room(m, CHARGE) && FrameOk(SavedFrame(x.frame, x.kernelRsp))
    ensures var saved := Save(m, 0, x.frame, x.kernelRsp, x.serial);
      OneCpu(saved) && GangsOk(saved, None) && Room(saved, 0) && ClockOf(saved.gangs) == Charged(ClockOf(m.gangs), cur)
  {
    if cur.Some? {
      SaveRecharges(m, cur.value, x);
      RechargedSteady(m, Save(m, 0, x.frame, x.kernelRsp, x.serial), cur.value);
    }
  }

  /** When every gang is available the search finds the first of those with the least vruntime. */
  lemma BestIsLeast(gangs: Gangs, count: nat)
    requires 1 <= count <= |gangs|
    requires forall k :: 0 <= k < |gangs| && gangs[k].Some? ==>
      1 <= k < count && Available(gangs[k]) && gangs[k].value.vruntime < U64_MAX
    requires exists k :: 0 <= k < |gangs| && gangs[k].Some?
    ensures var r := BestGang(gangs, 1, count, None, U64_MAX); r.Some? && IsLeast(ClockOf(gangs), r.value)
  {
    BestGangFound(gangs, 1, count, None, U64_MAX);
    var k :| 0 <= k < |gangs| && gangs[k].Some?;
    assert Choosable(gangs[k]);
    assert forall i :: 0 <= i < |gangs| && gangs[i].Some? ==> Choosable(gangs[i]);
  }

  lemma PickSingle(vcpus: Vcpus, v: nat)
    requires v in vcpus && vcpus[v].state == Ready && vcpus[v].vruntime < U64_MAX
    ensures PickVcpu(vcpus, Single(v), 0, None, U64_MAX) == Some(v)
  {
    PickVcpuFound(vcpus, Single(v));
    assert Single(v)[0] == Some(v) && Rank(vcpus, Single(v)[0]) < U64_MAX;
  }

  // The choice: the least gang's vCPU, and nothing on the ready queue.
  lemma SteadyChoose(m: Machine) returns (g: nat)
    requires OneCpu(m) && GangsOk(m, None) && Room(m, 0)
    ensures IsLeast(ClockOf(m.gangs), g) && g < |m.gangs| && GangOk(m, g, None)
    ensures Choose(m) == Some((m.(gangs := m.gangs[g := Some(m.gangs[g].value.(running := 1))]), VcpuOf(m, g)))
  {
    forall k: nat | k < |m.gangs| && m.gangs[k].Some?
      ensures 1 <= k < m.count && Available(m.gangs[k])
    {
      assert GangOk(m, k, None);
    }
    BestIsLeast(m.gangs, m.count);
    g := BestGang(m.gangs, 1, m.count, None, U64_MAX).value;
    assert GangOk(m, g, None);
    PickSingle(m.vcpus, VcpuOf(m, g));
    assert FreeCores(m, 0) <= 1;
    assert Extra(m.gangs[g].value, FreeCores(m, 0)) == 0;
  }

  lemma SteadyLoad(m: Machine, g: nat, curPml4: nat)
    requires OneCpu(m) && GangsOk(m, None) && g < |m.gangs| && GangOk(m, g, None)
    ensures var chosen := m.(gangs := m.gangs[g := Some(m.gangs[g].value.(running := 1))]);
      var t := Load(chosen, 0, VcpuOf(m, g), curPml4).m;
      Steady(t, Some(g)) && ClockOf(t.gangs) == ClockOf(m.gangs)
  {
    var chosen := m.(gangs := m.gangs[g := Some(m.gangs[g].value.(running := 1))]);
    var t := Load(chosen, 0, VcpuOf(m, g), curPml4).m;
    forall i: nat | i < |t.gangs| && t.gangs[i].Some?
      ensures GangOk(t, i, Some(g))
    {
      assert GangOk(m, i, None);
    }
    assert t.gangs[g].Some?;
  }

  /** A round of a steady machine charges the gang that ran, lets the first of the gangs with the
      least vruntime run, and is steady again. */
  lemma SteadyRound(m: Machine, cur: Option<nat>, x: Input) returns (g: nat)
    requires Steady(m, cur) && Room(m, CHARGE) && FrameOk(SavedFrame(x.frame, x.kernelRsp))
    ensures Steady(Round(m, x), Some(g))
    ensures ClockOf(Round(m, x).gangs) == Charged(ClockOf(m.gangs), cur) && IsLeast(ClockOf(Round(m, x).gangs), g)
  {
    SteadyClean(m, cur);
    SteadySave(m, cur, x);
    var saved := Save(m, 0, x.frame, x.kernelRsp, x.serial);
    g := SteadyChoose(saved);
    SteadyLoad(saved, g, x.curPml4);
  }

  // -- Runs of rounds -------------------------------------------------------------------------------

  // Round `k` starts with room in the counters and saves a frame that can be loaded again.
  ghost predicate RoundAt(ms: seq<Machine>, xs: seq<Input>, k: nat) {
    && k < |xs| && k + 1 < |ms| && OneCpu(ms[k]) && Room(ms[k], CHARGE)
    && FrameOk(SavedFrame(xs[k].frame, xs[k].kernelRsp)) && ms[k + 1] == Round(ms[k], xs[k])
  }

  // A run from a machine at rest, or one that runs any of the gangs.
  ghost predicate Rounds(ms: seq<Machine>, xs: seq<Input>, cur: Option<nat>) {
    && |ms| == |xs| + 1 && Steady(ms[0], cur)
    && forall k: nat {:trigger RoundAt(ms, xs, k)} :: k < |xs| ==> RoundAt(ms, xs, k)
  }

  function Clocks(ms: seq<Machine>): (r: seq<Clock>)
    ensures |r| == |ms| && forall k :: 0 <= k < |ms| ==> r[k] == ClockOf(ms[k].gangs)
  {
    seq(|ms|, k requires 0 <= k < |ms| => ClockOf(ms[k].gangs))
  }

  // The gangs that run after each of the first `n` rounds.
  ghost predicate Ran(ms: seq<Machine>, curs: seq<Option<nat>>, n: nat) {
    && |curs| == n + 1 <= |ms| && (forall k: nat {:trigger Steady(ms[k], curs[k])} :: k <= n ==> Steady(ms[k], curs[k]))
    && ClockRun(Clocks(ms[..n + 1]), curs)
  }

  lemma RoundGives(ms: seq<Machine>, xs: seq<Input>, k: nat, cur: Option<nat>) returns (g: nat)
    requires RoundAt(ms, xs, k) && Steady(ms[k], cur)
    ensures Steady(ms[k + 1], Some(g)) && IsLeast(ClockOf(ms[k + 1].gangs), g)
    ensures ClockOf(ms[k + 1].gangs) == Charged(ClockOf(ms[k].gangs), cur)
  {
    g := SteadyRound(ms[k], cur, xs[k]);
  }

  lemma RanNone(ms: seq<Machine>, cur: Option<nat>)
    requires ms != [] && Steady(ms[0], cur)
    ensures Ran(ms, [cur], 0)
  {
    assert Steady(ms[0], [cur][0]);
  }

  lemma RanOneMore(ms: seq<Machine>, before: seq<Option<nat>>, n: nat, g: nat)
    requires 1 <= n < |ms| && Ran(ms, before, n - 1) && Steady(ms[n], Some(g)) && IsLeast(ClockOf(ms[n].gangs), g)
    requires ClockOf(ms[n].gangs) == Charged(ClockOf(ms[n - 1].gangs), before[n - 1])
    ensures Ran(ms, before + [Some(g)], n)
  {
    var curs, clocks := before + [Some(g)], Clocks(ms[..n + 1]);
    assert Clocks(ms[..n]) == clocks[..n];
    ClockOneMore(clocks, before, g);
    forall k: nat | k <= n
      ensures Steady(ms[k], curs[k])
    {
      assert k < n ==> Steady(ms[k], before[k]);
    }
  }

  lemma ClockOneMore(clocks: seq<Clock>, before: seq<Option<nat>>, g: nat)
    requires |clocks| == |before| + 1 && ClockRun(clocks[..|before|], before)
    requires clocks[|before|] == Charged(clocks[|before| - 1], before[|before| - 1]) && IsLeast(clocks[|before|], g)
    ensures ClockRun(clocks, before + [Some(g)])
  {
    forall k: nat | k + 1 < |clocks|
      ensures ClockStep(clocks, before + [Some(g)], k)
    {
      if k + 1 < |before| {
        assert ClockStep(clocks[..|before|], before, k);
      }
    }
  }

  lemma RunOneRound(ms: seq<Machine>, xs: seq<Input>, before: seq<Option<nat>>, n: nat) returns (curs: seq<Option<nat>>)
    requires 1 <= n < |ms| && Ran(ms, before, n - 1) && RoundAt(ms, xs, n - 1)
    ensures Ran(ms, curs, n) && curs[0] == before[0]
  {
    assert Steady(ms[n - 1], before[n - 1]);
    var g := RoundGives(ms, xs, n - 1, before[n - 1]);
    curs := before + [Some(g)];
    RanOneMore(ms, before, n, g);
  }

  lemma {:induction false} RoundsRun(ms: seq<Machine>, xs: seq<Input>, cur: Option<nat>, n: nat)
    returns (curs: seq<Option<nat>>)
    requires Rounds(ms, xs, cur) && n < |ms|
    ensures Ran(ms, curs, n) && curs[0] == cur
  {
    if n == 0 {
      curs := [cur];
      RanNone(ms, cur);
    } else {
      var before := RoundsRun(ms, xs, cur, n - 1);
      curs := RunOneRound(ms, xs, before, n);
    }
  }

  function Larger(d: nat): nat {
    if d < CHARGE then CHARGE else d
  }

  /** In every run of rounds, from the first on: the vruntimes of any two gangs differ by no more than
      the larger of 2000 and what they differed by after an earlier round. */
  lemma VruntimesStayClose(ms: seq<Machine>, xs: seq<Input>, cur: Option<nat>, d: nat, j: nat, k: nat)
    requires Rounds(ms, xs, cur) && 1 <= j <= k < |ms| && Within(ClockOf(ms[j].gangs), d)
    ensures Within(ClockOf(ms[k].gangs), Larger(d))
  {
    var curs := RoundsRun(ms, xs, cur, k);
    SpreadBound(Clocks(ms[..k + 1]), curs, Larger(d), j, k);
  }

  // The gang that runs can be charged once more without being ahead of another by more than `d`.
  predicate CanBeCharged(v: Clock, cur: Option<nat>, d: nat) {
    cur.Some? && cur.value < |v| && v[cur.value].Some? ==>
      forall i :: 0 <= i < |v| && v[i].Some? && i != cur.value ==> v[cur.value].value + CHARGE <= v[i].value + d
  }

  /** The vruntimes stay as close as they were at first, or within 2000, through every round if and
      only if the gang that runs at first can be charged once more within that. A gang of least
      vruntime can. */
  lemma VruntimesStayCloseIff(ms: seq<Machine>, xs: seq<Input>, cur: Option<nat>, d: nat)
    requires Rounds(ms, xs, cur) && xs != [] && Within(ClockOf(ms[0].gangs), d)
    ensures (forall k :: 0 <= k < |ms| ==> Within(ClockOf(ms[k].gangs), Larger(d)))
       <==> CanBeCharged(ClockOf(ms[0].gangs), cur, Larger(d))
    ensures (cur.Some? ==> IsLeast(ClockOf(ms[0].gangs), cur.value)) ==>
      CanBeCharged(ClockOf(ms[0].gangs), cur, Larger(d))
  {
    var v := ClockOf(ms[0].gangs);
    var curs := RoundsRun(ms, xs, cur, 1);
    var clocks := Clocks(ms[..2]);
    assert ClockStep(clocks, curs, 0);
    assert ClockOf(ms[1].gangs) == Charged(v, cur);
    ChargedIff(v, cur, Larger(d));
    if CanBeCharged(v, cur, Larger(d)) {
      forall k | 0 <= k < |ms|
        ensures Within(ClockOf(ms[k].gangs), Larger(d))
      {
        if k > 0 {
          VruntimesStayClose(ms, xs, cur, Larger(d), 1, k);
        }
      }
    }
  }

  lemma ChargedIff(v: Clock, cur: Option<nat>, d: nat)
    requires Within(v, d)
    ensures Within(Charged(v, cur), d) <==> CanBeCharged(v, cur, d)
  {
    var w := Charged(v, cur);
    if Within(w, d) && cur.Some? && cur.value < |v| && v[cur.value].Some? {
      forall i | 0 <= i < |v| && v[i].Some? && i != cur.value
        ensures v[cur.value].value + CHARGE <= v[i].value + d
      {
        assert w[i] == v[i] && w[cur.value].value <= w[i].value + d;
      }
    }
  }

  // The gang of one vCPU `v`.
  function DriverGang(v: nat, vruntime: nat, running: nat): Option<Gang> {
    Some(Gang(Single(v), 1, vruntime, running, true))
  }

  // One CPU, its idle vCPU 0, and two drivers: gang 1 has run for three rounds and runs again, gang 2 has
  // just started.
  function LateStart(f: Frame): Machine {
    var idle := Vcpu(IdleKind, 0, Idle, f, None, 0, 0);
    var first := Vcpu(HardwareDriver, 1, Running, f, None, 3 * VRUNTIME_TICK, 0);
    var second := Vcpu(HardwareDriver, 2, Ready, f, Some(0), 0, 0);
    Machine(map[0 := idle, 1 := first, 2 := second],
            [None, DriverGang(1, 3 * CHARGE, 1), DriverGang(2, 0, 0)] + seq(29, _ => None), 3, [1], [0], [true])
  }

  lemma LateStartIsSteady(f: Frame)
    requires FrameOk(f)
    ensures Steady(LateStart(f), Some(1)) && Room(LateStart(f), CHARGE)
    ensures var v := ClockOf(LateStart(f).gangs);
      |v| == 32 && v[1] == Some(6000) && v[2] == Some(0) && forall i :: 0 <= i < 32 && i != 1 && i != 2 ==> v[i] == None
  {
    var m := LateStart(f);
    forall i: nat | i < |m.gangs| && m.gangs[i].Some?
      ensures GangOk(m, i, Some(1))
    {
      assert i == 1 || i == 2;
    }
    assert m.gangs[1].Some?;
  }

  /** A driver starts while the gang of another, of vruntime 6000, runs: the first round takes the
      spread from 6000 to 8000. */
  lemma LateStartWidens(x: Input)
    requires FrameOk(SavedFrame(x.frame, x.kernelRsp))
    ensures var m := LateStart(SavedFrame(x.frame, x.kernelRsp));
      && OneCpu(m) && Rounds([m, Round(m, x)], [x], Some(1)) && Within(ClockOf(m.gangs), 6000)
      && !Within(ClockOf(Round(m, x).gangs), 7999)
  {
    var f := SavedFrame(x.frame, x.kernelRsp);
    LateStartIsSteady(f);
    var g := SteadyRound(LateStart(f), Some(1), x);
    var ms := [LateStart(f), Round(LateStart(f), x)];
    assert RoundAt(ms, [x], 0);
    var v := ClockOf(Round(LateStart(f), x).gangs);
    assert v[1] == Some(8000) && v[2] == Some(0);
  }

  // The rounds within which gang `g` runs, from the vruntimes and the gang that runs first.
  function Bound(v: Clock, cur: Option<nat>, g: nat): nat
    requires g < |v| && v[g].Some?
  {
    1 + AllTurns(Charged(v, cur), g, |v|)
  }

  /** In every run of rounds that is long enough, every gang runs within the bound. */
  lemma EveryGangRunsAgain(ms: seq<Machine>, xs: seq<Input>, cur: Option<nat>, g: nat) returns (k: nat)
    requires Rounds(ms, xs, cur) && g < |ms[0].gangs| && ms[0].gangs[g].Some?
    requires Bound(ClockOf(ms[0].gangs), cur, g) < |ms|
    ensures 1 <= k <= Bound(ClockOf(ms[0].gangs), cur, g) && Steady(ms[k], Some(g))
  {
    var n := Bound(ClockOf(ms[0].gangs), cur, g);
    var curs := RoundsRun(ms, xs, cur, n);
    var clocks := Clocks(ms[..n + 1]);
    assert ClockStep(clocks, curs, 0);
    k := RunsWithin(clocks, curs, g, 1);
    assert Steady(ms[k], curs[k]);
  }
}
