/** The frame canary over every run of the scheduler: each load that is accepted uses up a stamp of its
    own, the last one set for that vCPU, and resumes the registers saved with it. */
module SchedulerStamps {
  import opened Basics
  import opened SchedulerModel
  import opened SchedulerSteps
  import opened SchedulerRuns

  // The frame saved with stamp `k`, with the answer written to its rax since, if any.
  function Saved(h: History, k: nat): Frame
    requires k in h.stamps
  {
    var f := h.stamps[k].frame;
    if k in h.answers then f.(rax := h.answers[k]) else f
  }

  // A ring-3 frame with the selectors user code runs with.
  predicate Standard(f: Frame) {
    f.cs == 0x1B && (f.ss == 0x23 || f.ss == 0x2B)
  }

  predicate Used(h: History, k: nat) {
    exists i :: 0 <= i < |h.loads| && h.loads[i].stamp == Some(k)
  }

  // Stamp `k` is the last one of vCPU `v`, unused, and `f` is its frame.
  ghost predicate StampOk(h: History, v: nat, k: nat, f: Frame) {
    && k < h.serial && k in h.stamps && h.stamps[k].vcpu == v && !Used(h, k)
    && (h.stamps[k].frame.cs % 4 != 0 ==> f == Saved(h, k))
    && forall j :: j in h.stamps && h.stamps[j].vcpu == v ==> j <= k
  }

  ghost predicate StampsOk(s: State) {
    forall v {:trigger s.m.vcpus[v].stamp} :: v in s.m.vcpus && s.m.vcpus[v].stamp.Some? ==>
      StampOk(s.h, v, s.m.vcpus[v].stamp.value, s.m.vcpus[v].frame)
  }

  // The load used up a stamp of its vCPU and resumed the frame saved with it, or it was rejected.
  ghost predicate LoadOk(h: History, e: LoadEvent) {
    && (e.accepted ==> e.stamp.Some?)
    && (e.stamp.Some? ==> e.stamp.value in h.stamps && h.stamps[e.stamp.value].vcpu == e.vcpu)
    && (e.stamp.Some? && Standard(h.stamps[e.stamp.value].frame) ==> e.frame == Saved(h, e.stamp.value))
  }

  ghost predicate HistoryOk(h: History) {
    && (forall k :: k in h.stamps <==> 0 <= k < h.serial) && (forall k :: k in h.answers ==> k in h.stamps)
    && (forall i {:trigger LoadOk(h, h.loads[i])} :: 0 <= i < |h.loads| ==> LoadOk(h, h.loads[i]))
    && forall i, j :: 0 <= i < j < |h.loads| ==> h.loads[i].stamp == None || h.loads[i].stamp != h.loads[j].stamp
  }

  ghost predicate StampInv(s: State) {
    HistoryOk(s.h) && StampsOk(s)
  }

  // -- Steps -----------------------------------------------------------------------------------

  // No stamp is set and no frame changes, but a stamp may be dropped.
  lemma Unstamped(s: State, t: State)
    requires StampInv(s) && t.h == s.h
    requires forall v :: v in t.m.vcpus && t.m.vcpus[v].stamp.Some? ==>
      v in s.m.vcpus && t.m.vcpus[v].stamp == s.m.vcpus[v].stamp && t.m.vcpus[v].frame == s.m.vcpus[v].frame
    ensures StampInv(t)
  {
  }

  lemma StampedHistory(h: History, v: nat, frame: Frame)
    requires HistoryOk(h)
    ensures HistoryOk(Stamped(h, v, frame))
    ensures Saved(Stamped(h, v, frame), h.serial) == frame && !Used(Stamped(h, v, frame), h.serial)
  {
    var n := Stamped(h, v, frame);
    forall i | 0 <= i < |h.loads|
      ensures LoadOk(n, n.loads[i]) && n.loads[i].stamp != Some(h.serial)
    {
      assert LoadOk(h, h.loads[i]);
    }
  }

  // vCPU `v` is stamped afresh; the others stay.
  lemma StampSet(s: State, t: State, v: nat, frame: Frame)
    requires StampInv(s) && t.h == Stamped(s.h, v, frame)
    requires v in t.m.vcpus && t.m.vcpus[v].stamp == Some(s.h.serial)
    requires frame.cs % 4 != 0 ==> t.m.vcpus[v].frame == frame
    requires forall w :: w in t.m.vcpus && w != v ==>
      w in s.m.vcpus && t.m.vcpus[w].stamp == s.m.vcpus[w].stamp && t.m.vcpus[w].frame == s.m.vcpus[w].frame
    ensures StampInv(t)
  {
    StampedHistory(s.h, v, frame);
    forall w | w in t.m.vcpus && t.m.vcpus[w].stamp.Some?
      ensures StampOk(t.h, w, t.m.vcpus[w].stamp.value, t.m.vcpus[w].frame)
    {
      if w != v {
        var k := s.m.vcpus[w].stamp.value;
        assert StampOk(s.h, w, k, s.m.vcpus[w].frame);
      }
    }
  }

  // vCPU `v` gives up its stamp to a load.
  lemma StampUsed(s: State, t: State, v: nat, e: LoadEvent)
    requires StampInv(s) && v in s.m.vcpus && t.h == s.h.(loads := s.h.loads + [e])
    requires e.vcpu == v && e.stamp == s.m.vcpus[v].stamp && (e.accepted ==> e.stamp.Some?)
    requires e.frame == s.m.vcpus[v].frame || !Standard(s.m.vcpus[v].frame)
    requires forall w :: w in t.m.vcpus && t.m.vcpus[w].stamp.Some? ==>
      w in s.m.vcpus && w != v && t.m.vcpus[w].stamp == s.m.vcpus[w].stamp && t.m.vcpus[w].frame == s.m.vcpus[w].frame
    ensures StampInv(t)
  {
    if e.stamp.Some? {
      assert StampOk(s.h, v, e.stamp.value, s.m.vcpus[v].frame);
    }
    forall i | 0 <= i < |t.h.loads|
      ensures LoadOk(t.h, t.h.loads[i])
    {
      if i < |s.h.loads| {
        assert LoadOk(s.h, s.h.loads[i]);
      }
    }
    forall w | w in t.m.vcpus && t.m.vcpus[w].stamp.Some?
      ensures StampOk(t.h, w, t.m.vcpus[w].stamp.value, t.m.vcpus[w].frame)
    {
      assert StampOk(s.h, w, s.m.vcpus[w].stamp.value, s.m.vcpus[w].frame);
    }
  }

  lemma AnswerStamps(s: State, v: nat, result: nat)
    requires StampInv(s) && Enabled(s, Answer(v, result))
    ensures StampInv(Next(s, Answer(v, result)))
  {
    var t := Next(s, Answer(v, result));
    if s.m.vcpus[v].stamp.Some? {
      var k := s.m.vcpus[v].stamp.value;
      assert StampOk(s.h, v, k, s.m.vcpus[v].frame);
      forall i | 0 <= i < |t.h.loads|
        ensures LoadOk(t.h, t.h.loads[i])
      {
        assert LoadOk(s.h, s.h.loads[i]);
      }
      forall w | w in t.m.vcpus && t.m.vcpus[w].stamp.Some?
        ensures StampOk(t.h, w, t.m.vcpus[w].stamp.value, t.m.vcpus[w].frame)
      {
        assert StampOk(s.h, w, s.m.vcpus[w].stamp.value, s.m.vcpus[w].frame);
      }
    } else {
      Unstamped(s, t);
    }
  }

  lemma SavingStamps(s: State, h: State, c: nat, frame: Frame, kernelRsp: nat)
    requires StampInv(s) && Poised(s, h, c)
    ensures Shaped(h.m) && StampInv(Saving(h, c, frame, kernelRsp))
  {
    SavingEffect(h, c, frame, kernelRsp);
    var t := Saving(h, c, frame, kernelRsp);
    if Saves(h.m, c) {
      StampSet(s, t, s.m.current[c], frame);
    } else {
      Unstamped(s, t);
    }
  }

  lemma PassStamps(s: State, step: Step)
    requires Inv(s) && StampInv(s) && Enabled(s, step) && IsPass(s, step)
    ensures StampInv(Next(s, step)) && Next(s, step).h.loads == s.h.loads
  {
    PassPoised(s, step);
    var h := PassFrom(s, step);
    CleanedSame(s, h, step.c);
    CleanedPoised(s, h, step.c);
    Unstamped(s, Cleaned(s));
    SavingStamps(Cleaned(s), Cleaned(h), step.c, step.frame, step.kernelRsp);
    SavingEffect(Cleaned(h), step.c, step.frame, step.kernelRsp);
  }

  lemma FinishStamps(s: State, curPml4: nat)
    requires Inv(s) && StampInv(s) && Enabled(s, Finish(curPml4))
    ensures StampInv(Next(s, Finish(curPml4)))
  {
    var v := s.hold.next;
    var loaded := Load(s.m, s.hold.cpu, v, curPml4);
    var e := LoadEvent(v, s.m.vcpus[v].stamp, loaded.frame.value, loaded.switched);
    StampUsed(s, Next(s, Finish(curPml4)), v, e);
  }

  lemma RecoverStamps(s: State, c: nat, v: nat)
    requires Inv(s) && StampInv(s) && Enabled(s, RecoverTo(c, v))
    ensures StampInv(Next(s, RecoverTo(c, v)))
  {
    assert VcpuOk(s, v);
    StampUsed(s, Next(s, RecoverTo(c, v)), v, LoadEvent(v, s.m.vcpus[v].stamp, s.m.vcpus[v].frame, true));
  }

  lemma PickStamps(s: State)
    requires Inv(s) && StampInv(s) && Enabled(s, Pick)
    ensures StampInv(Next(s, Pick))
  {
    PickEffect(s);
    Unstamped(s, Next(s, Pick));
  }

  lemma StepStamps(s: State, step: Step)
    requires Inv(s) && StampInv(s) && Enabled(s, step)
    ensures StampInv(Next(s, step))
  {
    if IsPass(s, step) {
      PassStamps(s, step);
    } else {
      match step {
        case Pick => PickStamps(s);
        case Finish(curPml4) => FinishStamps(s, curPml4);
        case Init(v, frame) => StampSet(s, Next(s, step), v, frame);
        case RecoverTo(c, v) => RecoverStamps(s, c, v);
        case Answer(v, result) => AnswerStamps(s, v, result);
        case _ => Unstamped(s, Next(s, step));
      }
    }
  }

  // -- Runs --------------------------------------------------------------------------------------

  lemma BootStamps(s: State)
    requires Booted(s)
    ensures StampInv(s)
  {
  }

  lemma StampStep(states: seq<State>, steps: seq<Step>, k: nat)
    requires Run(states, steps) && k < |steps| && StampInv(states[k])
    ensures StampInv(states[k + 1])
  {
    RunsKeep(states, steps, k);
    StepStamps(states[k], steps[k]);
  }

  lemma {:induction false} RunsStamp(states: seq<State>, steps: seq<Step>, k: nat)
    requires Run(states, steps) && k < |states|
    ensures StampInv(states[k])
  {
    if k == 0 {
      BootStamps(states[0]);
    } else {
      RunsStamp(states, steps, k - 1);
      StampStep(states, steps, k - 1);
    }
  }

  /** In every run, crash recovery between any two steps of a pass included, every load that is accepted
      used up a stamp that was set for its vCPU, and a load of a ring-3 frame with standard selectors
      resumed the registers saved with its stamp, but for an answer written to rax since. */
  lemma EachLoadHasItsSave(states: seq<State>, steps: seq<Step>, k: nat, i: nat)
    requires Run(states, steps) && k < |states| && i < |states[k].h.loads|
    ensures LoadOk(states[k].h, states[k].h.loads[i])
  {
    RunsStamp(states, steps, k);
  }

  /** In every run, no two loads used up one stamp. */
  lemma NoStampTwice(states: seq<State>, steps: seq<Step>, k: nat, i: nat, j: nat)
    requires Run(states, steps) && k < |states| && i < j < |states[k].h.loads|
    ensures var loads := states[k].h.loads; loads[i].stamp == loads[j].stamp ==> loads[i].stamp == None
  {
    RunsStamp(states, steps, k);
  }

  // The load uses up the last stamp of its vCPU, or it finds the canary clear and is rejected.
  ghost predicate UsesLast(h: History, e: LoadEvent) {
    if e.stamp.Some? then
      && !Used(h, e.stamp.value) && e.stamp.value in h.stamps && h.stamps[e.stamp.value].vcpu == e.vcpu
      && forall j :: j in h.stamps && h.stamps[j].vcpu == e.vcpu ==> j <= e.stamp.value
    else !e.accepted
  }

  /** In every run, a step adds at most one load, and that uses up its vCPU's last stamp or is rejected. */
  lemma LoadUsesLastStamp(states: seq<State>, steps: seq<Step>, k: nat)
    requires Run(states, steps) && k < |steps|
    ensures var h, n := states[k].h, states[k + 1].h;
      n.loads == h.loads || exists e :: n.loads == h.loads + [e] && UsesLast(h, e)
  {
    var s, step := states[k], steps[k];
    RunsKeep(states, steps, k);
    RunsStamp(states, steps, k);
    if IsPass(s, step) {
      PassStamps(s, step);
    } else if step.Pick? {
      PickEffect(s);
    } else if step.Finish? {
      var loaded := Load(s.m, s.hold.cpu, s.hold.next, step.curPml4);
      var e := LoadEvent(s.hold.next, s.m.vcpus[s.hold.next].stamp, loaded.frame.value, loaded.switched);
      assert states[k + 1].h.loads == s.h.loads + [e] && UsesLast(s.h, e);
    } else if step.RecoverTo? {
      assert VcpuOk(s, step.v);
      var e := LoadEvent(step.v, s.m.vcpus[step.v].stamp, s.m.vcpus[step.v].frame, true);
      assert states[k + 1].h.loads == s.h.loads + [e] && UsesLast(s.h, e);
    }
  }
}
