/** Safety over every run of the scheduler: no vCPU is the current one of two CPUs, and none that is
    current is Ready. What each CPU really returns to is the matter of SchedulerContexts. */
module SchedulerRuns {
  import opened Basics
  import opened SchedulerModel
  import opened SchedulerSteps

  // -- Invariant ---------------------------------------------------------------------------

  // The mark of a vCPU that is a CPU's current one: its canary is clear.
  ghost predicate Owned(s: State, v: nat) {
    && v in s.m.vcpus && s.m.vcpus[v].kind != IdleKind && s.m.vcpus[v].stamp == None && v !in s.pending
    && s.m.vcpus[v].state != Ready && s.m.vcpus[v].state != Halted && s.m.vcpus[v].state != Terminated
  }

  ghost predicate CpuOk(s: State, c: nat)
    requires |s.m.current| == |s.m.idle|
  {
    && (Claims(s, c) && s.m.current[c] != s.m.idle[c] ==> Owned(s, s.m.current[c]))
    && (c < |s.m.current| && s.m.current[c] != s.m.idle[c] ==> s.m.count >= 1)
    && (c < |s.m.current| && c in s.marking ==> c in s.recovering && s.m.current[c] != s.m.idle[c])
  }

  ghost predicate CpusOk(s: State) {
    |s.m.current| == |s.m.idle| && forall c: nat {:trigger CpuOk(s, c)} :: c < |s.m.current| ==> CpuOk(s, c)
  }

  ghost predicate Distinct(s: State) {
    forall c: nat, d: nat :: Claims(s, c) && Claims(s, d) && c != d ==> s.m.current[c] != s.m.current[d]
  }

  ghost predicate IdlesOk(m: Machine) {
    && (forall c :: 0 <= c < |m.idle| ==> m.idle[c] in m.vcpus && m.vcpus[m.idle[c]].kind == IdleKind)
    && forall c, d :: 0 <= c < d < |m.idle| ==> m.idle[c] != m.idle[d]
  }

  // No CPU returns to another CPU's idle vCPU.
  ghost predicate ContextsOk(s: State) {
    |s.context| == |s.m.current| == |s.m.idle| &&
    forall c :: 0 <= c < |s.context| ==> s.context[c] == s.m.idle[c] || s.context[c] !in s.m.idle
  }

  ghost predicate VcpuOk(s: State, v: nat)
    requires v in s.m.vcpus
  {
    var x := s.m.vcpus[v];
    && ((x.state == Ready || x.state == Halted) && v !in s.pending ==> x.stamp.Some?)
    && (v in s.pending ==> IsDriver(x.kind) && x.stamp == None && x.frame.rsp == 0 && x.state != Terminated)
    && (v in s.starting ==> IsDriver(x.kind))
    && (x.kind == IdleKind ==> x.state == Idle)
  }

  ghost predicate VcpusOk(s: State) {
    forall v {:trigger VcpuOk(s, v)} :: v in s.m.vcpus ==> VcpuOk(s, v)
  }

  predicate SetsOk(s: State) {
    && s.pending <= s.m.vcpus.Keys && s.starting <= s.m.vcpus.Keys && s.pending !! s.starting
    && (s.recovering != {} ==> s.m.count >= 1)
  }

  // Gang `i` is the gang of the one vCPU `v`.
  predicate IsGangOf(gangs: Gangs, i: nat, v: nat) {
    i < |gangs| && gangs[i].Some? && gangs[i].value.slots == Single(v) && gangs[i].value.vcpuCount == 1
  }

  // vCPU `v` may sit in gang `i`: it knows its gang and has been started.
  ghost predicate SlotOk(s: State, i: nat, v: nat) {
    && v in s.m.vcpus && s.m.vcpus[v].kind != IdleKind && s.m.vcpus[v].gang == i
    && v !in s.pending && v !in s.starting
  }

  ghost predicate GangOk(s: State, i: nat) {
    1 <= i < s.m.count && exists v: nat :: IsGangOf(s.m.gangs, i, v) && SlotOk(s, i, v)
  }

  ghost predicate GangsOk(s: State) {
    forall i: nat {:trigger GangOk(s, i)} :: i < |s.m.gangs| && s.m.gangs[i].Some? ==> GangOk(s, i)
  }

  ghost predicate HoldOk(s: State) {
    && (!s.hold.Free? ==> s.hold.cpu < |s.m.current| && s.hold.cpu !in s.recovering && s.m.count >= 1)
    && (s.hold.Picked? ==>
          && s.hold.next in s.m.vcpus && s.hold.next !in s.pending
          && s.m.vcpus[s.hold.next].kind != IdleKind && s.m.vcpus[s.hold.next].state != Terminated)
  }

  ghost predicate Inv(s: State) {
    && Shaped(s.m) && CpusOk(s) && Distinct(s) && IdlesOk(s.m) && ContextsOk(s)
    && VcpusOk(s) && SetsOk(s) && GangsOk(s) && HoldOk(s)
  }

  // -- Changes to one vCPU ------------------------------------------------------------------------

  // From `s` to `t` only vCPU `v` changes, and whether it is pending or starting.
  ghost predicate Only(s: State, t: State, v: nat) {
    && v in t.m.vcpus && t.m.vcpus.Keys == s.m.vcpus.Keys + {v}
    && (forall w :: w in s.m.vcpus && w != v ==> t.m.vcpus[w] == s.m.vcpus[w])
    && (forall w :: w != v ==> (w in t.pending <==> w in s.pending) && (w in t.starting <==> w in s.starting))
    && t.m.count >= s.m.count && t.m.idle == s.m.idle
  }

  lemma OthersOk(s: State, t: State, v: nat)
    requires Only(s, t, v) && VcpusOk(s) && VcpuOk(t, v)
    ensures VcpusOk(t)
  {
    forall w | w in t.m.vcpus
      ensures VcpuOk(t, w)
    {
      if w != v {
        assert VcpuOk(s, w);
      }
    }
  }

  // The gangs have the same vCPUs.
  predicate SameVcpus(g: Gang, h: Gang) {
    g.slots == h.slots && g.vcpuCount == h.vcpuCount
  }

  // Gangs keep their vCPUs or are gone.
  ghost predicate SlotsOrNone(after: Gangs, before: Gangs) {
    |after| == |before| && forall i :: 0 <= i < |after| && after[i].Some? ==>
      before[i].Some? && SameVcpus(after[i].value, before[i].value)
  }

  lemma GangsKept(s: State, t: State, v: nat)
    requires Only(s, t, v) && GangsOk(s) && SlotsOrNone(t.m.gangs, s.m.gangs)
    requires forall i: nat :: IsGangOf(t.m.gangs, i, v) && SlotOk(s, i, v) ==> SlotOk(t, i, v)
    ensures GangsOk(t)
  {
    forall i: nat | i < |t.m.gangs| && t.m.gangs[i].Some?
      ensures GangOk(t, i)
    {
      assert GangOk(s, i);
      var w: nat :| IsGangOf(s.m.gangs, i, w) && SlotOk(s, i, w);
      assert IsGangOf(t.m.gangs, i, w) && SlotOk(t, i, w);
    }
  }

  // Each CPU that still runs what it ran keeps its claim.
  lemma CpusKept(s: State, t: State, v: nat)
    requires Only(s, t, v) && CpusOk(s) && t.m.current == s.m.current && t.hold == s.hold
    requires s.recovering <= t.recovering && t.marking <= s.marking
    requires Owned(s, v) ==> Owned(t, v) || forall c: nat :: Claims(t, c) ==> t.m.current[c] != v
    ensures CpusOk(t)
  {
    forall c: nat | c < |t.m.current|
      ensures CpuOk(t, c)
    {
      assert CpuOk(s, c);
    }
  }

  // A step that leaves gangs, CPUs and the lock alone.
  lemma Quiet(s: State, t: State, v: nat)
    requires Inv(s) && Only(s, t, v) && VcpuOk(t, v) && SetsOk(t)
    requires t.m == s.m.(vcpus := t.m.vcpus)
    requires t.context == s.context && t.hold == s.hold && t.recovering == s.recovering && t.marking == s.marking
    requires v in s.m.vcpus ==> t.m.vcpus[v].kind == s.m.vcpus[v].kind && t.m.vcpus[v].gang == s.m.vcpus[v].gang
    requires Owned(s, v) ==> Owned(t, v)
    requires v in s.m.vcpus && v !in s.pending ==>
      v !in t.pending && (v in t.starting ==> v in s.starting)
      && (t.m.vcpus[v].state == Terminated ==> s.m.vcpus[v].state == Terminated)
    ensures Inv(t)
  {
    OthersOk(s, t, v);
    GangsKept(s, t, v);
    CpusKept(s, t, v);
  }

  // Waking, allocating, initialising and answering touch one vCPU.
  lemma QuietKeeps(s: State, step: Step)
    requires Inv(s) && Enabled(s, step) && (step.Wake? || step.Alloc? || step.Init? || step.Answer?)
    ensures Inv(Next(s, step))
  {
    if step.v in s.m.vcpus {
      assert VcpuOk(s, step.v);
    }
    if !step.Wake? || IsHalted(s.m, step.v) {
      Quiet(s, Next(s, step), step.v);
    }
  }

  lemma RegisterKeeps(s: State, v: nat)
    requires Inv(s) && Enabled(s, Register(v))
    ensures Inv(Next(s, Register(v)))
  {
    var t := Next(s, Register(v));
    if s.m.count < MAX_GANGS {
      var id := if s.m.count == 0 then 1 else s.m.count;
      assert VcpuOk(s, v);
      OthersOk(s, t, v);
      CpusKept(s, t, v);
      forall i: nat | i < |t.m.gangs| && t.m.gangs[i].Some?
        ensures GangOk(t, i)
      {
        if i == id {
          assert IsGangOf(t.m.gangs, i, v) && SlotOk(t, i, v);
        } else {
          assert GangOk(s, i);
          var w: nat :| IsGangOf(s.m.gangs, i, w) && SlotOk(s, i, w);
          assert IsGangOf(t.m.gangs, i, w) && SlotOk(t, i, w);
        }
      }
    }
  }

  // Leaving the gangs drops the gang of the vCPU and no other.
  lemma LeftGangs(m: Machine, v: nat, pml4: nat)
    requires forall i: nat :: i < |m.gangs| && m.gangs[i].Some? ==> exists w: nat :: IsGangOf(m.gangs, i, w)
    ensures var after := Marked(m, v, pml4).gangs;
      |after| == |m.gangs| &&
      forall i: nat :: i < |after| ==> after[i] == if IsGangOf(m.gangs, i, v) then None else m.gangs[i]
  {
    forall i: nat | i < |m.gangs| && m.gangs[i].Some?
      ensures Leave(m.gangs[i], v) == if IsGangOf(m.gangs, i, v) then None else m.gangs[i]
    {
      var w: nat :| IsGangOf(m.gangs, i, w);
      var g := m.gangs[i].value;
      if w == v {
        assert Empty(Without(Single(v), v));
      } else {
        assert Single(w) != Single(v);
        assert Without(Single(w), v) == Single(w);
        assert Without(Single(w), v)[0] == Some(w);
        HoldsNone(Single(w), v);
        assert g.vcpuCount == Minus(g.vcpuCount, 0);
      }
    }
  }

  lemma {:induction false} HoldsNone(slots: seq<Option<nat>>, v: nat)
    requires forall i :: 0 <= i < |slots| ==> slots[i] != Some(v)
    ensures Holding(slots, v) == 0
  {
    if slots != [] {
      HoldsNone(slots[1..], v);
    }
  }

  lemma GangOwners(s: State)
    requires GangsOk(s)
    ensures forall i: nat :: i < |s.m.gangs| && s.m.gangs[i].Some? ==> exists w: nat :: IsGangOf(s.m.gangs, i, w)
  {
    forall i: nat | i < |s.m.gangs| && s.m.gangs[i].Some?
      ensures exists w: nat :: IsGangOf(s.m.gangs, i, w)
    {
      assert GangOk(s, i);
    }
  }

  lemma CrashKeeps(s: State, c: nat, known: bool)
    requires Inv(s) && Enabled(s, Crash(c, known))
    ensures Inv(Next(s, Crash(c, known)))
  {
    var t := Next(s, Crash(c, known));
    var v := s.m.current[c];
    assert CpuOk(s, c) && VcpuOk(s, v) && Claims(s, c);
    OthersOk(s, t, v);
    GangsKept(s, t, v);
    forall d: nat | d < |t.m.current|
      ensures CpuOk(t, d)
    {
      assert CpuOk(s, d);
    }
  }

  lemma MarkKeeps(s: State, c: nat, pml4: nat)
    requires Inv(s) && Enabled(s, Mark(c, pml4))
    ensures Inv(Next(s, Mark(c, pml4)))
  {
    var t := Next(s, Mark(c, pml4));
    var v := s.m.current[c];
    assert CpuOk(s, c) && Claims(s, c);
    assert Owned(s, v) && VcpuOk(s, v);
    OthersOk(s, t, v);
    GangOwners(s);
    LeftGangs(s.m, v, pml4);
    GangsKept(s, t, v);
    forall d: nat | Claims(t, d)
      ensures t.m.current[d] != v
    {
      assert Claims(s, d);
    }
    CpusKept(s, t, v);
  }

  // -- Changes of a CPU's current vCPU --------------------------------------------------------------

  // From `s` to `t` CPU `c` alone may start or stop executing.
  ghost predicate OnlyCpu(s: State, t: State, c: nat) {
    && c < |s.m.current| == |t.m.current|
    && t.marking == s.marking && c !in s.marking
    && (forall d :: d != c ==> (d in s.recovering <==> d in t.recovering))
    && forall d: nat :: d != c && Claims(t, d) ==> Claims(s, d) && t.m.current[d] == s.m.current[d]
  }

  // CPU `c` gives up its current vCPU and takes `v`, whose canary it has just cleared.
  lemma Takes(s: State, t: State, c: nat, v: nat)
    requires Inv(s) && Only(s, t, v) && OnlyCpu(s, t, c) && Owned(t, v)
    requires t.m.current == s.m.current[c := v] && t.m.count >= 1
    requires forall d: nat :: Claims(s, d) && d != c ==> s.m.current[d] != v
    ensures CpusOk(t) && Distinct(t)
  {
    forall d: nat | d < |t.m.current|
      ensures CpuOk(t, d)
    {
      assert CpuOk(s, d);
    }
  }

  // CPU `c` gives up its current vCPU for its idle vCPU, or stays inside the pass.
  lemma GivesUp(s: State, t: State, c: nat, v: nat)
    requires Inv(s) && Only(s, t, v) && OnlyCpu(s, t, c)
    requires Owned(s, v) ==> Owned(t, v) || forall d: nat :: Claims(s, d) && d != c ==> s.m.current[d] != v
    requires t.m.current == s.m.current[c := s.m.idle[c]] || (t.m.current == s.m.current && !Claims(t, c))
    ensures CpusOk(t) && Distinct(t)
  {
    forall d: nat | d < |t.m.current|
      ensures CpuOk(t, d)
    {
      assert CpuOk(s, d);
    }
    forall d: nat, e: nat | Claims(t, d) && Claims(t, e) && d != e
      ensures t.m.current[d] != t.m.current[e]
    {
      assert d != c ==> CpuOk(s, d);
      assert e != c ==> CpuOk(s, e);
    }
  }

  lemma RecoverToKeeps(s: State, c: nat, v: nat)
    requires Inv(s) && Enabled(s, RecoverTo(c, v))
    ensures Inv(Next(s, RecoverTo(c, v)))
  {
    var t := Next(s, RecoverTo(c, v));
    assert VcpuOk(s, v);
    forall d: nat | Claims(s, d) && d != c
      ensures s.m.current[d] != v
    {
      assert CpuOk(s, d);
    }
    Takes(s, t, c, v);
    OthersOk(s, t, v);
    GangsKept(s, t, v);
  }

  lemma RecoverIdleKeeps(s: State, c: nat)
    requires Inv(s) && Enabled(s, RecoverIdle(c))
    ensures Inv(Next(s, RecoverIdle(c)))
  {
    var t := Next(s, RecoverIdle(c));
    var v := s.m.idle[c];
    assert VcpuOk(s, v);
    GivesUp(s, t, c, v);
    OthersOk(s, t, v);
    GangsKept(s, t, v);
  }

  lemma FinishCpus(s: State, curPml4: nat)
    requires Inv(s) && Enabled(s, Finish(curPml4))
    ensures var t := Next(s, Finish(curPml4)); CpusOk(t) && Distinct(t)
  {
    var t := Next(s, Finish(curPml4));
    var c, v := s.hold.cpu, s.hold.next;
    assert CpuOk(s, c);
    if t.m.current[c] == v {
      forall d: nat | Claims(s, d) && d != c
        ensures s.m.current[d] != v
      {
        assert CpuOk(s, d);
      }
      Takes(s, t, c, v);
    } else {
      GivesUp(s, t, c, v);
    }
  }

  lemma FinishKeeps(s: State, curPml4: nat)
    requires Inv(s) && Enabled(s, Finish(curPml4))
    ensures Inv(Next(s, Finish(curPml4)))
  {
    var t := Next(s, Finish(curPml4));
    var v := s.hold.next;
    assert VcpuOk(s, v);
    FinishCpus(s, curPml4);
    OthersOk(s, t, v);
    GangsKept(s, t, v);
  }

  // -- The clean-up -----------------------------------------------------------------------------------

  lemma {:induction false} CleanSlotsNothing(vcpus: Vcpus, slots: seq<Option<nat>>)
    requires forall j :: 0 <= j < |slots| ==> !IsTerminated(vcpus, slots[j])
    ensures CleanSlots(vcpus, slots) == (vcpus, slots, 0)
  {
    if slots != [] {
      assert !IsTerminated(vcpus, slots[0]);
      CleanSlotsNothing(vcpus, slots[1..]);
      assert [slots[0]] + slots[1..] == slots;
    }
  }

  // A gang of one is dropped with its vCPU if that is terminated, and left alone otherwise.
  lemma CleanSingle(vcpus: Vcpus, g: Gang, v: nat)
    requires g.slots == Single(v)
    ensures CleanGang(vcpus, Some(g)) == if IsTerminated(vcpus, Some(v)) then (vcpus - {v}, None) else (vcpus, Some(g))
  {
    if IsTerminated(vcpus, Some(v)) {
      CleanSlotsNothing(vcpus - {v}, Single(v)[1..]);
      assert Empty([None] + Single(v)[1..]);
    } else {
      CleanSlotsNothing(vcpus, Single(v));
      assert Single(v)[0] == Some(v);
    }
  }

  // Every gang is the gang of a vCPU that knows it.
  ghost predicate Tidy(vcpus: Vcpus, gangs: Gangs) {
    forall k: nat {:trigger IsTidy(vcpus, gangs, k)} :: k < |gangs| && gangs[k].Some? ==> IsTidy(vcpus, gangs, k)
  }

  ghost predicate IsTidy(vcpus: Vcpus, gangs: Gangs, k: nat) {
    exists v: nat :: IsGangOf(gangs, k, v) && v in vcpus && vcpus[v].gang == k
  }

  // The clean-up from gang `i` on frees vCPU `v`.
  predicate Frees(vcpus: Vcpus, gangs: Gangs, i: nat, count: nat, v: nat) {
    IsTerminated(vcpus, Some(v)) && i <= vcpus[v].gang < count && IsGangOf(gangs, vcpus[v].gang, v)
  }

  predicate DeadGang(vcpus: Vcpus, gangs: Gangs, k: nat) {
    k < |gangs| && gangs[k].Some? && |gangs[k].value.slots| > 0 && IsTerminated(vcpus, gangs[k].value.slots[0])
  }

  // What the clean-up from gang `i` on leaves.
  ghost predicate CleanedTo(vcpus: Vcpus, gangs: Gangs, i: nat, count: nat, left: Vcpus, after: Gangs) {
    && (forall v :: v in left <==> v in vcpus && !Frees(vcpus, gangs, i, count, v))
    && (forall v :: v in left ==> left[v] == vcpus[v])
    && |after| == |gangs|
    && forall k: nat :: k < |gangs| ==>
         after[k] == if i <= k < count && DeadGang(vcpus, gangs, k) then None else gangs[k]
  }

  /** The clean-up frees exactly the terminated vCPUs that sit in a gang, and drops exactly their
      gangs. */
  lemma {:induction false} CleanEffect(vcpus: Vcpus, gangs: Gangs, i: nat, count: nat)
    requires count <= |gangs| && Tidy(vcpus, gangs)
    ensures var (left, after) := CleanFrom(vcpus, gangs, i, count);
      CleanedTo(vcpus, gangs, i, count, left, after) && Tidy(left, after)
    decreases count - i
  {
    if i < count {
      if gangs[i] == None {
        assert gangs[i := None] == gangs;
        CleanEffect(vcpus, gangs, i + 1, count);
      } else {
        assert IsTidy(vcpus, gangs, i);
        var v: nat :| IsGangOf(gangs, i, v) && v in vcpus && vcpus[v].gang == i;
        CleanSingle(vcpus, gangs[i].value, v);
        if IsTerminated(vcpus, Some(v)) {
          DropOne(vcpus, gangs, i, v);
          CleanEffect(vcpus - {v}, gangs[i := None], i + 1, count);
          var (left, after) := CleanFrom(vcpus, gangs, i, count);
          DropThenRest(vcpus, gangs, i, count, v, left, after);
        } else {
          assert gangs[i := gangs[i]] == gangs;
          CleanEffect(vcpus, gangs, i + 1, count);
        }
      }
    }
  }

  lemma DropOne(vcpus: Vcpus, gangs: Gangs, i: nat, v: nat)
    requires Tidy(vcpus, gangs) && IsGangOf(gangs, i, v) && v in vcpus && vcpus[v].gang == i
    ensures Tidy(vcpus - {v}, gangs[i := None])
  {
    var vcpus', gangs' := vcpus - {v}, gangs[i := None];
    forall k: nat | k < |gangs'| && gangs'[k].Some?
      ensures IsTidy(vcpus', gangs', k)
    {
      assert IsTidy(vcpus, gangs, k);
      var w: nat :| IsGangOf(gangs, k, w) && w in vcpus && vcpus[w].gang == k;
      assert IsGangOf(gangs', k, w);
    }
  }

  lemma DropThenRest(vcpus: Vcpus, gangs: Gangs, i: nat, count: nat, v: nat, left: Vcpus, after: Gangs)
    requires i < count <= |gangs| && Tidy(vcpus, gangs)
    requires IsGangOf(gangs, i, v) && IsTerminated(vcpus, Some(v)) && vcpus[v].gang == i
    requires CleanedTo(vcpus - {v}, gangs[i := None], i + 1, count, left, after)
    ensures CleanedTo(vcpus, gangs, i, count, left, after)
  {
    var vcpus', gangs' := vcpus - {v}, gangs[i := None];
    forall w
      ensures Frees(vcpus, gangs, i, count, w) <==> w == v || Frees(vcpus', gangs', i + 1, count, w)
    {
      assert IsGangOf(gangs, i, w) ==> Single(w)[0] == Single(v)[0];
    }
    forall k: nat | i < k < count && gangs[k].Some?
      ensures DeadGang(vcpus, gangs, k) <==> DeadGang(vcpus', gangs', k)
    {
      assert IsTidy(vcpus, gangs, k);
    }
  }

  function Cleaned(s: State): State
    requires s.m.count <= |s.m.gangs|
  {
    s.(m := CleanUp(s.m))
  }

  // In an invariant state the clean-up frees `v` exactly if it is terminated and its gang is its own.
  ghost predicate FreedIn(s: State, v: nat) {
    IsTerminated(s.m.vcpus, Some(v)) && IsGangOf(s.m.gangs, s.m.vcpus[v].gang, v)
  }

  lemma GangsTidy(s: State)
    requires GangsOk(s)
    ensures Tidy(s.m.vcpus, s.m.gangs)
  {
    forall k: nat | k < |s.m.gangs| && s.m.gangs[k].Some?
      ensures IsTidy(s.m.vcpus, s.m.gangs, k)
    {
      assert GangOk(s, k);
    }
  }

  lemma FreedIs(s: State, v: nat)
    requires GangsOk(s)
    ensures Frees(s.m.vcpus, s.m.gangs, 1, s.m.count, v) <==> FreedIn(s, v)
    ensures FreedIn(s, v) ==> v !in s.pending && v !in s.starting && s.m.vcpus[v].kind != IdleKind
  {
    if FreedIn(s, v) {
      var k := s.m.vcpus[v].gang;
      assert GangOk(s, k);
      var w: nat :| IsGangOf(s.m.gangs, k, w) && SlotOk(s, k, w);
      assert Single(w)[0] == Single(v)[0];
    }
  }

  lemma CleanedGangs(s: State)
    requires Inv(s)
    ensures GangsOk(Cleaned(s)) && |Cleaned(s).m.gangs| == |s.m.gangs|
  {
    var t := Cleaned(s);
    GangsTidy(s);
    CleanEffect(s.m.vcpus, s.m.gangs, 1, s.m.count);
    forall k: nat | k < |t.m.gangs| && t.m.gangs[k].Some?
      ensures GangOk(t, k)
    {
      assert GangOk(s, k);
      var w: nat :| IsGangOf(s.m.gangs, k, w) && SlotOk(s, k, w);
      assert Single(w)[0] == Some(w);
      assert IsGangOf(t.m.gangs, k, w) && SlotOk(t, k, w);
    }
  }

  lemma CleanedKeeps(s: State)
    requires Inv(s) && s.hold == Free
    ensures Inv(Cleaned(s))
  {
    var t := Cleaned(s);
    GangsTidy(s);
    CleanEffect(s.m.vcpus, s.m.gangs, 1, s.m.count);
    CleanedGangs(s);
    forall v | v in s.m.vcpus && v !in t.m.vcpus
      ensures FreedIn(s, v) && v !in s.pending && v !in s.starting && s.m.vcpus[v].kind != IdleKind
    {
      FreedIs(s, v);
    }
    forall c: nat | c < |t.m.current|
      ensures CpuOk(t, c)
    {
      assert CpuOk(s, c);
    }
    forall v | v in t.m.vcpus
      ensures VcpuOk(t, v)
    {
      assert VcpuOk(s, v);
    }
  }

  // -- Scheduling passes -------------------------------------------------------------------------

  // Gangs keep their slots.
  ghost predicate SameSlots(after: Gangs, before: Gangs) {
    |after| == |before| && forall i :: 0 <= i < |after| ==>
      (after[i].Some? <==> before[i].Some?) && (after[i].Some? ==> SameVcpus(after[i].value, before[i].value))
  }

  /** The vCPU chosen is Ready and sits in a gang, and no slot changes. */
  lemma ChosenIsInGang(m: Machine)
    requires Shaped(m) && Choose(m).Some?
    ensures var (chosen, next) := Choose(m).value;
      && SameSlots(chosen.gangs, m.gangs) && chosen == m.(gangs := chosen.gangs)
      && next in m.vcpus && m.vcpus[next].state == Ready
      && exists i: nat :: i < |m.gangs| && m.gangs[i].Some? && Some(next) in m.gangs[i].value.slots
  {
    var (chosen, next) := Choose(m).value;
    var i := BestGang(m.gangs, 1, m.count, None, U64_MAX).value;
    var slots := m.gangs[i].value.slots;
    PickVcpuFound(m.vcpus, slots);
    assert Some(next) in m.gangs[i].value.slots;
  }

  // What the save makes of the current vCPU.
  ghost predicate SavedAs(x: Vcpu, y: Vcpu, serial: nat, frame: Frame) {
    && y.kind == x.kind && y.gang == x.gang && y.stamp == Some(serial) && y.frame == frame
    && (x.state == Halted ==> y.state == Halted) && (x.state != Halted ==> y.state == Ready || y.state == x.state)
  }

  // What the first step of a pass does to the vCPUs.
  ghost predicate SavedIn(s: State, t: State, c: nat, frame: Frame)
    requires c < |s.m.current| == |s.m.idle|
  {
    var v := s.m.current[c];
    if Saves(s.m, c) then
      && v in t.m.vcpus && SavedAs(s.m.vcpus[v], t.m.vcpus[v], s.h.serial, frame)
      && t.m.vcpus == s.m.vcpus[v := t.m.vcpus[v]]
    else t.m.vcpus == s.m.vcpus
  }

  // A Ready vCPU that sits in a gang.
  ghost predicate ReadyInGang(m: Machine, v: nat) {
    && v in m.vcpus && m.vcpus[v].state == Ready
    && exists i: nat :: i < |m.gangs| && m.gangs[i].Some? && Some(v) in m.gangs[i].value.slots
  }

  ghost predicate Rest(s: State, t: State) {
    && t.m.idle == s.m.idle && t.m.count == s.m.count && t.m.online == s.m.online && SameSlots(t.m.gangs, s.m.gangs)
    && t.context == s.context && t.pending == s.pending && t.starting == s.starting
    && t.recovering == s.recovering && t.marking == s.marking
  }

  lemma SaveEffect(s: State, c: nat, frame: Frame, kernelRsp: nat)
    requires Shaped(s.m) && c < |s.m.current|
    ensures var saved := Save(s.m, c, frame, kernelRsp, s.h.serial);
      && SameSlots(saved.gangs, s.m.gangs) && SavedIn(s, s.(m := saved), c, SavedFrame(frame, kernelRsp))
      && saved == s.m.(gangs := saved.gangs, vcpus := saved.vcpus)
  {
  }

  lemma SavingEffect(s: State, c: nat, frame: Frame, kernelRsp: nat)
    requires Shaped(s.m) && c < |s.m.current|
    ensures var t := Saving(s, c, frame, kernelRsp);
      && SavedIn(s, t, c, SavedFrame(frame, kernelRsp)) && Rest(s, t) && t.hold == Choosing(c)
      && t.m.current == s.m.current && t.queued == s.queued
      && t.h == if Saves(s.m, c) then Stamped(s.h, s.m.current[c], frame) else s.h
  {
    SaveEffect(s, c, frame, kernelRsp);
  }

  // The state a pass starts from: `h` is `s`, or `s` with the current vCPU of `c` halted.
  ghost predicate Poised(s: State, h: State, c: nat) {
    && Inv(s) && s.hold == Free && c < |s.m.current| && c !in s.recovering && s.m.count >= 1
    && h == s.(m := s.m.(vcpus := h.m.vcpus, gangs := h.m.gangs)) && SameSlots(h.m.gangs, s.m.gangs)
    && var v := s.m.current[c];
       h.m.vcpus == s.m.vcpus ||
       (v != s.m.idle[c] && v in s.m.vcpus && h.m.vcpus == s.m.vcpus[v := s.m.vcpus[v].(state := Halted)])
  }

  lemma SameFreed(s: State, h: State, c: nat)
    requires Poised(s, h, c)
    ensures forall v :: Frees(h.m.vcpus, h.m.gangs, 1, h.m.count, v) <==> FreedIn(s, v)
    ensures forall v :: Frees(s.m.vcpus, s.m.gangs, 1, s.m.count, v) <==> FreedIn(s, v)
    ensures forall k: nat :: DeadGang(h.m.vcpus, h.m.gangs, k) <==> DeadGang(s.m.vcpus, s.m.gangs, k)
  {
    assert CpuOk(s, c) && Claims(s, c);
    forall v
      ensures Frees(h.m.vcpus, h.m.gangs, 1, h.m.count, v) <==> FreedIn(s, v)
      ensures Frees(s.m.vcpus, s.m.gangs, 1, s.m.count, v) <==> FreedIn(s, v)
    {
      FreedIs(s, v);
    }
  }

  // The clean-up comes to the same before and after the halt.
  lemma CleanedSame(s: State, h: State, c: nat)
    requires Poised(s, h, c)
    ensures Shaped(h.m) && SameSlots(Cleaned(h).m.gangs, Cleaned(s).m.gangs)
    ensures forall v :: v in Cleaned(s).m.vcpus <==> v in s.m.vcpus && !FreedIn(s, v)
    ensures forall v :: v in Cleaned(s).m.vcpus ==> Cleaned(s).m.vcpus[v] == s.m.vcpus[v]
    ensures forall v :: v in Cleaned(h).m.vcpus <==> v in Cleaned(s).m.vcpus
    ensures forall v :: v in Cleaned(h).m.vcpus ==> v in h.m.vcpus && Cleaned(h).m.vcpus[v] == h.m.vcpus[v]
  {
    GangsTidy(s);
    PoisedTidy(s, h, c);
    CleanEffect(s.m.vcpus, s.m.gangs, 1, s.m.count);
    CleanEffect(h.m.vcpus, h.m.gangs, 1, h.m.count);
    SameFreed(s, h, c);
  }

  lemma CleanedPoised(s: State, h: State, c: nat)
    requires Poised(s, h, c)
    ensures Shaped(h.m) && Poised(Cleaned(s), Cleaned(h), c)
  {
    CleanedSame(s, h, c);
    CleanedKeeps(s);
    assert CpuOk(s, c) && Claims(s, c);
    var v := s.m.current[c];
    if h.m.vcpus == s.m.vcpus {
      assert Cleaned(h).m.vcpus == Cleaned(s).m.vcpus;
    } else {
      LeftOut(s.m.vcpus, Cleaned(s).m.vcpus, v, h.m.vcpus[v], Cleaned(h).m.vcpus);
    }
  }

  lemma PoisedTidy(s: State, h: State, c: nat)
    requires Poised(s, h, c)
    ensures Tidy(h.m.vcpus, h.m.gangs)
  {
    forall k: nat | k < |h.m.gangs| && h.m.gangs[k].Some?
      ensures IsTidy(h.m.vcpus, h.m.gangs, k)
    {
      assert GangOk(s, k);
      var w: nat :| IsGangOf(s.m.gangs, k, w) && SlotOk(s, k, w);
      assert IsGangOf(h.m.gangs, k, w);
    }
  }

  // The same vCPUs left out of a map and of the map with one more entry changed.
  lemma LeftOut(all: Vcpus, left: Vcpus, v: nat, x: Vcpu, left': Vcpus)
    requires (forall w :: w in left ==> w in all && left[w] == all[w]) && v in left
    requires forall w :: w in left' <==> w in left
    requires forall w :: w in left' ==> left'[w] == all[v := x][w]
    ensures left' == left[v := x]
  {
  }

  lemma PassVcpu(s: State, h: State, c: nat, frame: Frame, kernelRsp: nat)
    requires Poised(s, h, c)
    ensures Shaped(h.m)
    ensures var t, v := Saving(h, c, frame, kernelRsp), s.m.current[c];
      && v in s.m.vcpus && Only(s, t, v) && VcpuOk(t, v)
      && t.m.vcpus[v].kind == s.m.vcpus[v].kind && t.m.vcpus[v].gang == s.m.vcpus[v].gang
  {
    SavingEffect(h, c, frame, kernelRsp);
    assert CpuOk(s, c) && VcpuOk(s, s.m.idle[c]) && Claims(s, c);
    assert s.m.current[c] in s.m.vcpus && VcpuOk(s, s.m.current[c]);
  }

  lemma PassCpus(s: State, h: State, c: nat, frame: Frame, kernelRsp: nat)
    requires Poised(s, h, c)
    ensures Shaped(h.m)
    ensures var t := Saving(h, c, frame, kernelRsp); CpusOk(t) && Distinct(t)
  {
    SavingEffect(h, c, frame, kernelRsp);
    PassVcpu(s, h, c, frame, kernelRsp);
    assert Claims(s, c) && CpuOk(s, c);
    GivesUp(s, Saving(h, c, frame, kernelRsp), c, s.m.current[c]);
  }

  lemma SavingKeeps(s: State, h: State, c: nat, frame: Frame, kernelRsp: nat)
    requires Poised(s, h, c)
    ensures Shaped(h.m) && Inv(Saving(h, c, frame, kernelRsp))
  {
    SavingEffect(h, c, frame, kernelRsp);
    PassVcpu(s, h, c, frame, kernelRsp);
    PassCpus(s, h, c, frame, kernelRsp);
    var t, v := Saving(h, c, frame, kernelRsp), s.m.current[c];
    OthersOk(s, t, v);
    GangsKept(s, t, v);
  }

  lemma PassKeeps(s: State, h: State, c: nat, frame: Frame, kernelRsp: nat)
    requires Poised(s, h, c)
    ensures Shaped(h.m) && Inv(Begin(h, c, frame, kernelRsp))
  {
    CleanedPoised(s, h, c);
    SavingKeeps(Cleaned(s), Cleaned(h), c, frame, kernelRsp);
  }

  lemma BlockPoised(s: State, step: Step)
    requires Inv(s) && step.Block? && Enabled(s, step) && s.m.current[step.c] != s.m.idle[step.c]
    ensures Poised(s, Blocking(s, step.c), step.c) && s.m.current[step.c] in s.m.vcpus
  {
    assert CpuOk(s, step.c) && Claims(s, step.c);
  }

  // A step that is a scheduling pass, and the state it starts the pass from.
  predicate IsPass(s: State, step: Step)
    requires Enabled(s, step)
  {
    (step.Tick? && s.m.count >= 1) || (step.Block? && s.m.current[step.c] != s.m.idle[step.c])
  }

  function PassFrom(s: State, step: Step): State
    requires Enabled(s, step) && IsPass(s, step)
  {
    if step.Block? then Blocking(s, step.c) else s
  }

  lemma PassPoised(s: State, step: Step)
    requires Inv(s) && Enabled(s, step) && IsPass(s, step)
    ensures Poised(s, PassFrom(s, step), step.c) && Shaped(PassFrom(s, step).m)
    ensures Next(s, step) == Begin(PassFrom(s, step), step.c, step.frame, step.kernelRsp)
  {
    if step.Block? {
      BlockPoised(s, step);
    }
  }

  // -- The choice ----------------------------------------------------------------------------------

  lemma PickEffect(s: State)
    requires Inv(s) && Enabled(s, Pick)
    ensures var t := Next(s, Pick);
      && t.m.vcpus == s.m.vcpus && Rest(s, t) && t.h == s.h
      && if Choose(s.m) == None
         then t.hold == Free && t.m.current == s.m.current[s.hold.cpu := s.m.idle[s.hold.cpu]]
         else t.hold.Picked? && t.hold.cpu == s.hold.cpu && t.m.current == s.m.current && ReadyInGang(t.m, t.hold.next)
  {
    if Choose(s.m).Some? {
      ChosenIsInGang(s.m);
      var (chosen, next) := Choose(s.m).value;
      var i: nat :| i < |s.m.gangs| && s.m.gangs[i].Some? && Some(next) in s.m.gangs[i].value.slots;
      assert chosen.gangs[i].Some? && Some(next) in chosen.gangs[i].value.slots;
    }
  }

  // The vCPU chosen may be loaded.
  lemma PickedMayLoad(t: State)
    requires GangsOk(t) && t.hold.Picked? && ReadyInGang(t.m, t.hold.next)
    ensures t.hold.next !in t.pending && t.m.vcpus[t.hold.next].kind != IdleKind
  {
    var next := t.hold.next;
    var i: nat :| i < |t.m.gangs| && t.m.gangs[i].Some? && Some(next) in t.m.gangs[i].value.slots;
    assert GangOk(t, i);
    var w: nat :| IsGangOf(t.m.gangs, i, w) && SlotOk(t, i, w);
    assert next == w;
  }

  lemma PickKeeps(s: State)
    requires Inv(s) && Enabled(s, Pick)
    ensures Inv(Next(s, Pick))
  {
    PickEffect(s);
    var t, c := Next(s, Pick), s.hold.cpu;
    var v := s.m.idle[c];
    assert CpuOk(s, c) && VcpuOk(s, v);
    GivesUp(s, t, c, v);
    OthersOk(s, t, v);
    GangsKept(s, t, v);
    if t.hold.Picked? {
      PickedMayLoad(t);
    }
  }

  /** How many cores are counted as free does not matter to a choice among gangs of one, so the count may
      be taken while other CPUs recover. */
  lemma FreeCoresDoNotMatter(s: State, free: nat)
    requires Shaped(s.m) && GangsOk(s)
    ensures ChooseWith(s.m, free) == Choose(s.m)
  {
    var best := BestGang(s.m.gangs, 1, s.m.count, None, U64_MAX);
    if best.Some? && best.value < |s.m.gangs| && s.m.gangs[best.value].Some? {
      assert GangOk(s, best.value);
    }
  }

  lemma StepKeeps(s: State, step: Step)
    requires Inv(s) && Enabled(s, step)
    ensures Inv(Next(s, step))
  {
    match step {
      case Finish(curPml4) => FinishKeeps(s, curPml4);
      case Register(v) => RegisterKeeps(s, v);
      case Crash(c, known) => CrashKeeps(s, c, known);
      case Mark(c, pml4) => MarkKeeps(s, c, pml4);
      case Pick => PickKeeps(s);
      case RecoverTo(c, v) => RecoverToKeeps(s, c, v);
      case RecoverIdle(c) => RecoverIdleKeeps(s, c);
      case Tick(_, _, _) => PassStepKeeps(s, step);
      case Block(_, _, _) => PassStepKeeps(s, step);
      case _ => QuietKeeps(s, step);
    }
  }

  lemma PassStepKeeps(s: State, step: Step)
    requires Inv(s) && Enabled(s, step) && (step.Tick? || step.Block?)
    ensures Inv(Next(s, step))
  {
    if IsPass(s, step) {
      PassPoised(s, step);
      PassKeeps(s, PassFrom(s, step), step.c, step.frame, step.kernelRsp);
    }
  }

  // -- Runs --------------------------------------------------------------------------------------

  // After boot every CPU runs its own idle vCPU and there is no gang.
  ghost predicate Booted(s: State) {
    && Shaped(s.m) && s.m.count == 0 && IdlesOk(s.m) && s.m.current == s.m.idle == s.context && s.hold == Free
    && (forall v :: v in s.m.vcpus ==> v in s.m.idle)
    && (forall v :: v in s.m.vcpus ==>
          s.m.vcpus[v].kind == IdleKind && s.m.vcpus[v].state == Idle && s.m.vcpus[v].stamp == None)
    && (forall i :: 0 <= i < |s.m.gangs| ==> s.m.gangs[i] == None)
    && s.recovering == {} && s.marking == {} && s.pending == {} && s.starting == {} && s.queued == {}
    && s.h == History(0, map[], map[], [])
  }

  ghost predicate Run(states: seq<State>, steps: seq<Step>) {
    && |states| == |steps| + 1 && Booted(states[0])
    && forall k {:trigger steps[k]} :: 0 <= k < |steps| ==>
         Enabled(states[k], steps[k]) && states[k + 1] == Next(states[k], steps[k])
  }

  lemma {:induction false} RunsKeep(states: seq<State>, steps: seq<Step>, k: nat)
    requires Run(states, steps) && k < |states|
    ensures Inv(states[k])
  {
    if k > 0 {
      RunsKeep(states, steps, k - 1);
      StepKeeps(states[k - 1], steps[k - 1]);
    }
  }

  /** In every run, no vCPU is the current one of two CPUs, when none of the two is inside a pass or
      handling a crash; crash recovery on one CPU may come between any two steps of a pass on another. */
  lemma NeverCurrentTwice(states: seq<State>, steps: seq<Step>, k: nat, c: nat, d: nat)
    requires Run(states, steps) && k < |states| && c != d && Executes(states[k], c) && Executes(states[k], d)
    ensures states[k].m.current[c] != states[k].m.current[d]
  {
    RunsKeep(states, steps, k);
    assert Distinct(states[k]);
  }

  /** In every run, a CPU's current vCPU is allocated, neither Ready nor Halted nor Terminated, and its
      canary is clear. */
  lemma CurrentIsNotReady(states: seq<State>, steps: seq<Step>, k: nat, c: nat)
    requires Run(states, steps) && k < |states| && Executes(states[k], c)
    requires c < |states[k].m.idle| && states[k].m.current[c] != states[k].m.idle[c]
    ensures Owned(states[k], states[k].m.current[c])
  {
    RunsKeep(states, steps, k);
    assert CpuOk(states[k], c);
  }
}
