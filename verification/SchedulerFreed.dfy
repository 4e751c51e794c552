/** When the scheduler frees a vCPU: exactly in the first pass after a driver that has crashed is
    registered. A crash takes the vCPU out of its gang, where the clean-up of a pass would look for it. */
module SchedulerFreed {
  import opened Basics
  import opened SchedulerModel
  import opened SchedulerSteps
  import opened SchedulerRuns

  // The step frees vCPU `v`.
  predicate Removes(s: State, step: Step, v: nat)
    requires Enabled(s, step)
  {
    v in s.m.vcpus && v !in Next(s, step).m.vcpus
  }

  // The step puts a vCPU that has crashed in a gang.
  predicate LateRegister(s: State, step: Step, v: nat) {
    step == Register(v) && IsTerminated(s.m.vcpus, Some(v)) && s.m.count < MAX_GANGS
  }

  // The vCPUs keep their gangs, and crashed ones stay so.
  ghost predicate SameGangs(after: Vcpus, before: Vcpus) {
    && (forall v :: v in after ==> v in before && after[v].gang == before[v].gang)
    && forall v :: v in after ==> (after[v].state == Terminated <==> before[v].state == Terminated)
  }

  lemma SavingGangs(s: State, h: State, c: nat, frame: Frame, kernelRsp: nat)
    requires Poised(s, h, c)
    ensures Shaped(h.m)
    ensures var t := Saving(h, c, frame, kernelRsp);
      t.m.vcpus.Keys == s.m.vcpus.Keys && SameGangs(t.m.vcpus, s.m.vcpus) && SameSlots(t.m.gangs, s.m.gangs)
  {
    SavingEffect(h, c, frame, kernelRsp);
    assert CpuOk(s, c) && Claims(s, c);
  }

  // What a pass leaves of the vCPUs and gangs: what the clean-up leaves, with the current vCPU saved.
  lemma PassEffect(s: State, step: Step)
    requires Inv(s) && Enabled(s, step) && IsPass(s, step)
    ensures var t := Next(s, step); SameSlots(t.m.gangs, Cleaned(s).m.gangs)
    ensures forall v :: v in Next(s, step).m.vcpus <==> v in s.m.vcpus && !FreedIn(s, v)
    ensures SameGangs(Next(s, step).m.vcpus, s.m.vcpus)
  {
    PassPoised(s, step);
    var h, c := PassFrom(s, step), step.c;
    CleanedSame(s, h, c);
    CleanedPoised(s, h, c);
    SavingGangs(Cleaned(s), Cleaned(h), c, step.frame, step.kernelRsp);
  }

  /** A pass frees exactly the terminated vCPUs that sit in a gang, and leaves none to be freed. */
  lemma PassFrees(s: State, step: Step, v: nat)
    requires Inv(s) && Enabled(s, step) && IsPass(s, step)
    ensures Removes(s, step, v) <==> FreedIn(s, v)
    ensures !FreedIn(Next(s, step), v)
  {
    PassEffect(s, step);
    GangsTidy(s);
    CleanEffect(s.m.vcpus, s.m.gangs, 1, s.m.count);
  }

  // No other step frees a vCPU, and only the registering of a crashed one leaves one to be freed.
  lemma OtherSteps(s: State, step: Step, v: nat)
    requires Inv(s) && Enabled(s, step) && !IsPass(s, step)
    ensures !Removes(s, step, v)
    ensures FreedIn(s, v) ==> FreedIn(Next(s, step), v)
    ensures FreedIn(Next(s, step), v) ==> FreedIn(s, v) || LateRegister(s, step, v)
    ensures LateRegister(s, step, v) ==> FreedIn(Next(s, step), v)
  {
    if FreedIn(s, v) {
      FreedIs(s, v);
    }
    if step.Mark? {
      MarkFrees(s, step.c, step.pml4, v);
    } else if step.Pick? {
      PickFrees(s, v);
    } else if step.Register? {
      RegisterFrees(s, step.v, v);
    } else {
      QuietFrees(s, step, v);
    }
  }

  lemma RegisterFrees(s: State, w: nat, v: nat)
    requires Inv(s) && Enabled(s, Register(w))
    ensures FreedIn(Next(s, Register(w)), v) <==> FreedIn(s, v) || LateRegister(s, Register(w), v)
  {
    if FreedIn(s, v) {
      FreedIs(s, v);
      assert GangOk(s, s.m.vcpus[v].gang);
    }
    if v in s.m.vcpus && v != w {
      assert Single(v)[0] != Single(w)[0];
    }
  }

  lemma QuietFrees(s: State, step: Step, v: nat)
    requires Inv(s) && Enabled(s, step) && !IsPass(s, step) && !step.Mark? && !step.Pick? && !step.Register?
    ensures !Removes(s, step, v) && (FreedIn(Next(s, step), v) <==> FreedIn(s, v))
  {
    if FreedIn(s, v) {
      FreedIs(s, v);
    }
    assert step.Finish? ==> s.hold.next in s.m.vcpus;
  }

  lemma PickFrees(s: State, v: nat)
    requires Inv(s) && Enabled(s, Pick)
    ensures FreedIn(Next(s, Pick), v) <==> FreedIn(s, v)
  {
    PickEffect(s);
  }

  lemma MarkFrees(s: State, c: nat, pml4: nat, v: nat)
    requires Inv(s) && Enabled(s, Mark(c, pml4))
    ensures FreedIn(Next(s, Mark(c, pml4)), v) <==> FreedIn(s, v)
  {
    var crashed := s.m.current[c];
    assert CpuOk(s, c) && Claims(s, c);
    assert VcpuOk(s, crashed);
    GangOwners(s);
    LeftGangs(s.m, crashed, pml4);
    if v in s.m.vcpus && v != crashed {
      assert Single(v)[0] != Single(crashed)[0];
    }
  }

  // -- Runs ------------------------------------------------------------------------------------

  lemma FreedBefore(states: seq<State>, steps: seq<Step>, k: nat, v: nat)
    requires Run(states, steps) && k < |states| && FreedIn(states[k], v)
    ensures k > 0 && (FreedIn(states[k - 1], v) || LateRegister(states[k - 1], steps[k - 1], v))
  {
    if k > 0 {
      RunsKeep(states, steps, k - 1);
      if IsPass(states[k - 1], steps[k - 1]) {
        PassFrees(states[k - 1], steps[k - 1], v);
      } else {
        OtherSteps(states[k - 1], steps[k - 1], v);
      }
    }
  }

  /** A vCPU due to be freed was registered after its crash. */
  lemma {:induction false} FreedAfter(states: seq<State>, steps: seq<Step>, k: nat, v: nat) returns (j: nat)
    requires Run(states, steps) && k < |states| && FreedIn(states[k], v)
    ensures j < k && LateRegister(states[j], steps[j], v)
  {
    FreedBefore(states, steps, k, v);
    if FreedIn(states[k - 1], v) {
      j := FreedAfter(states, steps, k - 1, v);
    } else {
      j := k - 1;
    }
  }

  /** A vCPU registered after its crash stays due to be freed up to the first pass, which frees it. */
  lemma {:induction false} FreedByPass(states: seq<State>, steps: seq<Step>, j: nat, k: nat, v: nat) returns (i: nat)
    requires Run(states, steps) && j < k < |steps| && LateRegister(states[j], steps[j], v)
    requires IsPass(states[k], steps[k])
    ensures j < i <= k && Removes(states[i], steps[i], v)
  {
    RunsKeep(states, steps, j);
    OtherSteps(states[j], steps[j], v);
    i := j + 1;
    while !IsPass(states[i], steps[i])
      invariant j < i <= k && FreedIn(states[i], v)
      decreases k - i
    {
      RunsKeep(states, steps, i);
      OtherSteps(states[i], steps[i], v);
      i := i + 1;
    }
    RunsKeep(states, steps, i);
    PassFrees(states[i], steps[i], v);
  }

  ghost predicate FreesSome(states: seq<State>, steps: seq<Step>)
    requires Run(states, steps)
  {
    exists k: nat, v: nat :: k < |steps| && Removes(states[k], steps[k], v)
  }

  ghost predicate PassAfterLateRegister(states: seq<State>, steps: seq<Step>)
    requires Run(states, steps)
  {
    exists j: nat, k: nat, v: nat ::
      j < k < |steps| && LateRegister(states[j], steps[j], v) && IsPass(states[k], steps[k])
  }

  /** In every run, some vCPU is freed if and only if some pass comes after the registering of a driver
      that has crashed. */
  lemma FreedIff(states: seq<State>, steps: seq<Step>)
    requires Run(states, steps)
    ensures FreesSome(states, steps) <==> PassAfterLateRegister(states, steps)
  {
    if FreesSome(states, steps) {
      var k: nat, v: nat :| k < |steps| && Removes(states[k], steps[k], v);
      RunsKeep(states, steps, k);
      if IsPass(states[k], steps[k]) {
        PassFrees(states[k], steps[k], v);
      } else {
        OtherSteps(states[k], steps[k], v);
      }
      var j := FreedAfter(states, steps, k, v);
    }
    if PassAfterLateRegister(states, steps) {
      var j: nat, k: nat, v: nat :|
        j < k < |steps| && LateRegister(states[j], steps[j], v) && IsPass(states[k], steps[k]);
      var i := FreedByPass(states, steps, j, k, v);
    }
  }

  /** A crashed vCPU stays terminated for as long as it is allocated. */
  lemma TerminatedStays(s: State, step: Step, v: nat)
    requires Inv(s) && Enabled(s, step) && IsTerminated(s.m.vcpus, Some(v))
    ensures v in Next(s, step).m.vcpus ==> IsTerminated(Next(s, step).m.vcpus, Some(v))
  {
    if IsPass(s, step) {
      PassEffect(s, step);
    } else {
      assert VcpuOk(s, v);
    }
  }
}
