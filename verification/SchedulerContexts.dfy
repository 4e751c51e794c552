/** What the CPUs really run. A pass that reports no switch makes the idle vCPU current, yet its CPU
    goes on with the frame of the vCPU it came from, or of the one whose load it rejected. This module
    says exactly when every CPU runs its current vCPU, and exactly when two CPUs run one vCPU. */
module SchedulerContexts {
  import opened Basics
  import opened SchedulerModel
  import opened SchedulerSteps
  import opened SchedulerRuns

  // -- CPUs that run their current vCPU ----------------------------------------------------------

  // Every CPU runs its current vCPU.
  ghost predicate Faithful(s: State) {
    |s.context| == |s.m.current| && forall c: nat :: Executes(s, c) ==> s.context[c] == s.m.current[c]
  }

  // The step ends a pass without a switch on a CPU that then runs a vCPU other than its idle one: there
  // is nothing to choose, or the vCPU chosen cannot be loaded.
  ghost predicate Strays(s: State, step: Step)
    requires Enabled(s, step)
  {
    match step
    case Pick => s.context[s.hold.cpu] != s.m.idle[s.hold.cpu] && NothingToRun(s.m)
    case Finish(curPml4) => !Loads(s.m, s.hold.next, curPml4)
    case _ => false
  }

  lemma PassContext(s: State, step: Step)
    requires Inv(s) && Enabled(s, step) && IsPass(s, step)
    ensures var t := Next(s, step); t.context == s.context && t.m.current == s.m.current && Entered(s, t, step.c)
  {
    PassPoised(s, step);
    var h := PassFrom(s, step);
    CleanedPoised(s, h, step.c);
    SavingEffect(Cleaned(h), step.c, step.frame, step.kernelRsp);
  }

  // CPU `c` has entered a pass.
  ghost predicate Entered(s: State, t: State, c: nat) {
    t.recovering == s.recovering && t.m.idle == s.m.idle && InPass(t, c)
  }

  lemma PickFaithful(s: State)
    requires Inv(s) && Enabled(s, Pick)
    ensures Strays(s, Pick) ==> !Faithful(Next(s, Pick))
    ensures Faithful(s) && !Strays(s, Pick) ==> Faithful(Next(s, Pick))
  {
    PickEffect(s);
    NothingChosen(s.m, FreeCores(s.m, 0));
    var t, c := Next(s, Pick), s.hold.cpu;
    if NothingToRun(s.m) {
      assert Executes(t, c);
    }
    forall d: nat | Executes(t, d) && d != c
      ensures Executes(s, d) && t.context[d] == s.context[d] && t.m.current[d] == s.m.current[d]
    {
    }
  }

  lemma FinishFaithful(s: State, curPml4: nat)
    requires Inv(s) && Enabled(s, Finish(curPml4))
    ensures var t, step := Next(s, Finish(curPml4)), Finish(curPml4);
      (Strays(s, step) ==> !Faithful(t)) && (Faithful(s) && !Strays(s, step) ==> Faithful(t))
  {
    var t, c := Next(s, Finish(curPml4)), s.hold.cpu;
    LoadSwitches(s.m, c, s.hold.next, curPml4);
    assert Executes(t, c);
    forall d: nat | Executes(t, d) && d != c
      ensures Executes(s, d) && t.context[d] == s.context[d] && t.m.current[d] == s.m.current[d]
    {
    }
  }

  /** A step leaves every CPU running its current vCPU exactly if it does not end a pass unswitched on
      another. */
  lemma StepFaithful(s: State, step: Step)
    requires Inv(s) && Enabled(s, step)
    ensures Strays(s, step) ==> !Faithful(Next(s, step))
    ensures Faithful(s) && !Strays(s, step) ==> Faithful(Next(s, step))
  {
    if step.Pick? {
      PickFaithful(s);
    } else if step.Finish? {
      FinishFaithful(s, step.curPml4);
    } else {
      OtherFaithful(s, step);
    }
  }

  lemma OtherFaithful(s: State, step: Step)
    requires Inv(s) && Enabled(s, step) && !step.Pick? && !step.Finish?
    ensures Faithful(s) ==> Faithful(Next(s, step))
  {
    if IsPass(s, step) {
      PassContext(s, step);
    }
    var t := Next(s, step);
    forall d: nat | Faithful(s) && Executes(t, d)
      ensures t.context[d] == t.m.current[d]
    {
      assert Executes(s, d) || t.context[d] == t.m.current[d];
    }
  }

  /** In every run, every CPU runs its current vCPU throughout if and only if no pass ends without a
      switch on a CPU that runs another vCPU than its idle one. */
  lemma FaithfulIff(states: seq<State>, steps: seq<Step>)
    requires Run(states, steps)
    ensures (forall k :: 0 <= k < |states| ==> Faithful(states[k]))
       <==> (forall k :: 0 <= k < |steps| ==> !Strays(states[k], steps[k]))
  {
    if forall k :: 0 <= k < |states| ==> Faithful(states[k]) {
      forall k | 0 <= k < |steps|
        ensures !Strays(states[k], steps[k])
      {
        RunsKeep(states, steps, k);
        StepFaithful(states[k], steps[k]);
        assert Faithful(states[k + 1]);
      }
    }
    if forall k :: 0 <= k < |steps| ==> !Strays(states[k], steps[k]) {
      forall k: nat | k < |states|
        ensures Faithful(states[k])
      {
        StaysFaithful(states, steps, k);
      }
    }
  }

  lemma {:induction false} StaysFaithful(states: seq<State>, steps: seq<Step>, k: nat)
    requires Run(states, steps) && k < |states|
    requires forall j :: 0 <= j < k ==> !Strays(states[j], steps[j])
    ensures Faithful(states[k])
  {
    if k > 0 {
      StaysFaithful(states, steps, k - 1);
      RunsKeep(states, steps, k - 1);
      StepFaithful(states[k - 1], steps[k - 1]);
    }
  }

  /** Up to the first pass that ends so, what a CPU runs is its idle vCPU or a vCPU that is neither
      Ready nor Halted nor Terminated, and no other CPU runs it. */
  lemma RunsAlone(states: seq<State>, steps: seq<Step>, k: nat, c: nat)
    requires Run(states, steps) && k < |states| && Executes(states[k], c)
    requires forall j :: 0 <= j < k ==> !Strays(states[j], steps[j])
    ensures Faithful(states[k]) && |states[k].m.idle| == |states[k].m.current|
    ensures var s := states[k];
      && (s.context[c] == s.m.idle[c] || Owned(s, s.context[c]))
      && forall d: nat :: Executes(s, d) && d != c ==> s.context[d] != s.context[c]
  {
    StaysFaithful(states, steps, k);
    RunsKeep(states, steps, k);
    assert CpuOk(states[k], c) && Distinct(states[k]);
    assert forall d: nat :: Executes(states[k], d) ==> Claims(states[k], d);
  }

  // -- CPUs that run one vCPU -----------------------------------------------------------------------

  // No two CPUs run one vCPU.
  ghost predicate Apart(s: State) {
    |s.context| == |s.m.current| &&
    forall c: nat, d: nat :: Executes(s, c) && Executes(s, d) && c != d ==> s.context[c] != s.context[d]
  }

  // The CPU that the step lets run again, and the vCPU it then runs: the one loaded by a pass or by crash
  // recovery, or the one that a pass with nothing to choose goes on with.
  ghost function Resumes(s: State, step: Step): Option<(nat, nat)>
    requires Enabled(s, step)
  {
    match step
    case Pick => if NothingToRun(s.m) then Some((s.hold.cpu, s.context[s.hold.cpu])) else None
    case Finish(_) => Some((s.hold.cpu, s.hold.next))
    case RecoverTo(c, v) => Some((c, v))
    case RecoverIdle(c) => Some((c, s.m.idle[c]))
    case _ => None
  }

  // The step lets a CPU run a vCPU that CPU `d` runs.
  ghost predicate Collides(s: State, step: Step, d: nat)
    requires Enabled(s, step)
  {
    Resumes(s, step).Some? && Executes(s, d) && s.context[d] == Resumes(s, step).value.1
  }

  // What a step does to the contexts.
  lemma ContextStep(s: State, step: Step)
    requires Inv(s) && Enabled(s, step)
    ensures var t := Next(s, step);
      && |t.context| == |t.m.current| == |s.context|
      && (Resumes(s, step) == None ==> t.context == s.context && forall d: nat :: Executes(t, d) ==> Executes(s, d))
      && (Resumes(s, step).Some? ==>
            var (c, v) := Resumes(s, step).value;
            && c < |s.context| && t.context == s.context[c := v] && !Executes(s, c)
            && forall d: nat :: Executes(t, d) <==> Executes(s, d) || d == c)
  {
    if IsPass(s, step) {
      PassContext(s, step);
    } else if step.Pick? {
      PickEffect(s);
      NothingChosen(s.m, FreeCores(s.m, 0));
    }
  }

  lemma StepApart(s: State, step: Step)
    requires Inv(s) && Enabled(s, step)
    ensures (exists d: nat :: Collides(s, step, d)) ==> !Apart(Next(s, step))
    ensures Apart(s) && (forall d: nat :: !Collides(s, step, d)) ==> Apart(Next(s, step))
  {
    ContextStep(s, step);
    var t := Next(s, step);
    if d: nat :| Collides(s, step, d) {
      var (c, v) := Resumes(s, step).value;
      assert Executes(t, c) && Executes(t, d) && t.context[c] == t.context[d];
    } else if Apart(s) {
      forall d: nat, e: nat | Executes(t, d) && Executes(t, e) && d != e
        ensures t.context[d] != t.context[e]
      {
        assert !Collides(s, step, d) && !Collides(s, step, e);
      }
    }
  }

  /** In every run, no two CPUs ever run one vCPU if and only if no CPU starts or goes on running one, by a
      load, by crash recovery or at the end of a pass that chose nothing, while another CPU runs it. */
  lemma ApartIff(states: seq<State>, steps: seq<Step>)
    requires Run(states, steps)
    ensures (forall k :: 0 <= k < |states| ==> Apart(states[k]))
       <==> (forall k, d: nat :: 0 <= k < |steps| ==> !Collides(states[k], steps[k], d))
  {
    if forall k :: 0 <= k < |states| ==> Apart(states[k]) {
      forall k, d: nat | 0 <= k < |steps|
        ensures !Collides(states[k], steps[k], d)
      {
        RunsKeep(states, steps, k);
        StepApart(states[k], steps[k]);
        assert Apart(states[k + 1]);
      }
    }
    if forall k, d: nat :: 0 <= k < |steps| ==> !Collides(states[k], steps[k], d) {
      forall k: nat | k < |states|
        ensures Apart(states[k])
      {
        StayApart(states, steps, k);
      }
    }
  }

  lemma {:induction false} StayApart(states: seq<State>, steps: seq<Step>, k: nat)
    requires Run(states, steps) && k < |states|
    requires forall j, d: nat :: 0 <= j < k ==> !Collides(states[j], steps[j], d)
    ensures Apart(states[k])
  {
    if k > 0 {
      StayApart(states, steps, k - 1);
      RunsKeep(states, steps, k - 1);
      StepApart(states[k - 1], steps[k - 1]);
    } else {
      BootApart(states[0]);
    }
  }

  lemma BootApart(s: State)
    requires Booted(s)
    ensures Apart(s)
  {
  }

  // -- How it comes about ---------------------------------------------------------------------------

  // The vCPU that the pass in progress has saved, or has chosen.
  function InHand(s: State): nat
    requires !s.hold.Free? && s.hold.cpu < |s.m.current|
  {
    if s.hold.Picked? then s.hold.next else s.m.current[s.hold.cpu]
  }

  // The pass in progress has saved or chosen `v`, no idle vCPU, and CPU `d` runs it as its current one.
  ghost predicate InTwoHands(s: State, d: nat, v: nat) {
    && !s.hold.Free? && s.hold.cpu < |s.m.current| && v == InHand(s)
    && Executes(s, d) && s.m.current[d] == v && v !in s.m.idle
  }

  // At step `j` crash recovery took `v` to CPU `d`, and the pass in progress at state `k` had then already
  // saved or chosen it.
  ghost predicate TakenSince(states: seq<State>, steps: seq<Step>, k: nat, d: nat, v: nat, j: nat)
    requires Run(states, steps) && k < |states|
  {
    j < k && steps[j] == RecoverTo(d, v) && forall i :: j <= i <= k ==> states[i].hold == states[k].hold
  }

  // What a pass saves no other CPU has, and what it chooses no CPU has.
  lemma AloneAtFirst(s: State, step: Step, d: nat, v: nat)
    requires Inv(s) && Enabled(s, step) && (IsPass(s, step) || step.Pick?)
    ensures !InTwoHands(Next(s, step), d, v)
  {
    assert d < |s.m.current| ==> CpuOk(s, d);
    assert Executes(s, d) ==> Claims(s, d);
    if step.Pick? {
      PickEffect(s);
    } else {
      PassContext(s, step);
      assert Claims(s, step.c) && Distinct(s);
    }
  }

  // The step before: recovery, or the vCPU was already there.
  lemma TakenStep(s: State, step: Step, d: nat, v: nat)
    requires Inv(s) && Enabled(s, step) && InTwoHands(Next(s, step), d, v)
    ensures Next(s, step).hold == s.hold && (step == RecoverTo(d, v) || InTwoHands(s, d, v))
  {
    if IsPass(s, step) || step.Pick? {
      AloneAtFirst(s, step, d, v);
    }
  }

  lemma TakenBefore(states: seq<State>, steps: seq<Step>, k: nat, d: nat, v: nat)
    requires Run(states, steps) && k < |states| && InTwoHands(states[k], d, v)
    ensures k > 0 && states[k].hold == states[k - 1].hold
    ensures steps[k - 1] == RecoverTo(d, v) || InTwoHands(states[k - 1], d, v)
  {
    if k > 0 {
      RunsKeep(states, steps, k - 1);
      TakenStep(states[k - 1], steps[k - 1], d, v);
    }
  }

  lemma {:induction false} TakenMeanwhile(states: seq<State>, steps: seq<Step>, k: nat, d: nat, v: nat) returns (j: nat)
    requires Run(states, steps) && k < |states| && InTwoHands(states[k], d, v)
    ensures TakenSince(states, steps, k, d, v, j)
  {
    TakenBefore(states, steps, k, d, v);
    if steps[k - 1] == RecoverTo(d, v) {
      j := k - 1;
    } else {
      j := TakenMeanwhile(states, steps, k - 1, d, v);
      SinceLonger(states, steps, k, d, v, j);
    }
  }

  lemma SinceLonger(states: seq<State>, steps: seq<Step>, k: nat, d: nat, v: nat, j: nat)
    requires Run(states, steps) && 0 < k < |states| && TakenSince(states, steps, k - 1, d, v, j)
    requires states[k].hold == states[k - 1].hold
    ensures TakenSince(states, steps, k, d, v, j)
  {
  }

  /** In every run, a CPU starts or goes on running a vCPU that CPU `d` runs only in three cases: `d` runs
      a vCPU that is not its current one; the CPU itself entered the pass like that and chose nothing; or
      crash recovery took the vCPU to `d` after the pass had chosen it, or after the pass had saved it. */
  lemma CollisionCases(states: seq<State>, steps: seq<Step>, k: nat, d: nat)
    requires Run(states, steps) && k < |steps| && Collides(states[k], steps[k], d)
    ensures var s, step := states[k], steps[k];
      || s.context[d] != s.m.current[d]
      || (step.Pick? && s.context[s.hold.cpu] != s.m.current[s.hold.cpu])
      || ((step.Pick? || step.Finish?) && exists j: nat :: TakenSince(states, steps, k, d, s.context[d], j))
  {
    var s, step := states[k], steps[k];
    RunsKeep(states, steps, k);
    Colliding(s, step, d);
    if InTwoHands(s, d, s.context[d]) {
      var j := TakenMeanwhile(states, steps, k, d, s.context[d]);
    }
  }

  lemma Colliding(s: State, step: Step, d: nat)
    requires Inv(s) && Enabled(s, step) && Collides(s, step, d)
    ensures || s.context[d] != s.m.current[d]
            || (step.Pick? && s.context[s.hold.cpu] != s.m.current[s.hold.cpu])
            || ((step.Pick? || step.Finish?) && InTwoHands(s, d, s.context[d]))
  {
    var v := s.context[d];
    NotIdle(s, step, d);
    assert CpuOk(s, d) && Claims(s, d);
    assert v in s.m.vcpus ==> VcpuOk(s, v);
  }

  lemma NotIdle(s: State, step: Step, d: nat)
    requires Inv(s) && Enabled(s, step) && Collides(s, step, d)
    ensures s.context[d] !in s.m.idle && !step.RecoverIdle?
  {
    ContextStep(s, step);
    assert ContextsOk(s) && IdlesOk(s.m);
  }

  /** Between the choice and the load of `v`, crash recovery resumes `v` on another CPU: the pass then
      rejects `v`, but both CPUs run it. */
  lemma RejectedYetRun(s: State, c: nat, v: nat, curPml4: nat)
    requires Inv(s) && s.hold.Picked? && s.hold.next == v && c != s.hold.cpu && Enabled(s, RecoverTo(c, v))
    ensures var t := Next(s, RecoverTo(c, v));
      Enabled(t, Finish(curPml4)) && Strays(t, Finish(curPml4)) && !Apart(Next(t, Finish(curPml4)))
  {
    var t := Next(s, RecoverTo(c, v));
    var u := Next(t, Finish(curPml4));
    assert Executes(u, c) && Executes(u, s.hold.cpu);
    assert u.context[c] == v == u.context[s.hold.cpu];
  }

  /** Between the save of `v` and the choice, crash recovery resumes `v` on another CPU: if the gang of `v`
      is the one to choose from, the pass finds nothing, and both CPUs run `v`. */
  lemma SavedYetRun(s: State, c: nat, v: nat)
    requires Inv(s) && s.hold.Choosing? && c != s.hold.cpu && Enabled(s, RecoverTo(c, v))
    requires s.context[s.hold.cpu] == v && IsBest(s.m, s.m.vcpus[v].gang) && IsGangOf(s.m.gangs, s.m.vcpus[v].gang, v)
    ensures var t := Next(s, RecoverTo(c, v)); Enabled(t, Pick) && Strays(t, Pick) && !Apart(Next(t, Pick))
  {
    var t := Next(s, RecoverTo(c, v));
    assert VcpuOk(s, v) && CpuOk(s, s.hold.cpu) && ContextsOk(s);
    StepKeeps(s, RecoverTo(c, v));
    BestIsOne(s.m, s.m.vcpus[v].gang);
    assert forall i: nat :: IsBest(t.m, i) <==> IsBest(s.m, i);
    assert NothingToRun(t.m);
    NothingChosen(t.m, FreeCores(t.m, 0));
    var u := Next(t, Pick);
    assert Executes(u, c) && Executes(u, s.hold.cpu);
    assert u.context[c] == v == u.context[s.hold.cpu];
  }
}
