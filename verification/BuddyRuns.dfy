/** The buddy allocator of kernel/src/mm/phys.rs under concurrency. A step is what one thread
    does while it holds a list lock; between its steps a thread carries one block in flight.
    Callers free only blocks they hold. */
module BuddyRuns {
  import opened Basics
  import opened BuddyBlocks
  import opened BuddyZone

  // What a thread is doing between two critical sections.
  datatype Task =
    | Resting
    | Splitting(block: Block, order: nat)  // alloc_order after its pop, before its last cut
    | Merging(block: Block)                // coalesce, about to look at this block's buddy

  datatype State = State(
    lists: Lists, freePages: int, refcounts: seq<nat>,
    tasks: seq<Task>,      // one per thread
    held: seq<Block>,      // blocks callers hold
    shared: seq<Block>)    // pages a free left alone because their count was not 1

  datatype Step =
    | Pop(t: nat, from: nat, order: nat)
    | Cut(t: nat)
    | Hand(t: nat)
    | Free(t: nat, i: nat)
    | Merge(t: nat)
    | Divide(i: nat)       // a caller frees part of a block it holds

  function Drop<T>(s: seq<T>, i: nat): seq<T>
    requires i < |s|
  {
    s[..i] + s[i + 1..]
  }

  predicate Enabled(s: State, step: Step) {
    && |s.lists| == MAX_ORDER + 1
    && match step
       case Pop(t, from, order) =>
         t < |s.tasks| && s.tasks[t].Resting? && order <= from <= MAX_ORDER && s.lists[from] != []
       case Cut(t) =>
         t < |s.tasks| && s.tasks[t].Splitting? && s.tasks[t].order < s.tasks[t].block.order <= MAX_ORDER
       case Hand(t) =>
         t < |s.tasks| && s.tasks[t].Splitting? && s.tasks[t].order == s.tasks[t].block.order
       case Free(t, i) =>
         t < |s.tasks| && s.tasks[t].Resting? && i < |s.held|
       case Merge(t) =>
         t < |s.tasks| && s.tasks[t].Merging? && s.tasks[t].block.order <= MAX_ORDER
       case Divide(i) =>
         i < |s.held| && s.held[i].order > 0
  }

  function Index(s: seq<nat>, x: nat): (i: nat)
    requires x in s
    ensures i < |s| && s[i] == x
  {
    if s[0] == x then 0 else 1 + Index(s[1..], x)
  }

  function Next(c: Config, s: State, step: Step): State
    requires Enabled(s, step)
  {
    match step
    case Pop(t, from, order) =>
      s.(lists := Without(s.lists, from, 0), freePages := s.freePages - Pow2(from),
         tasks := s.tasks[t := Splitting(Block(s.lists[from][0], from), order)])
    case Cut(t) =>
      var Splitting(b, order) := s.tasks[t];
      var half := b.order - 1;
      s.(lists := Push(s.lists, Block(b.pn, half)), freePages := s.freePages + Pow2(half),
         tasks := s.tasks[t := Splitting(Block(b.pn + Pow2(half), half), order)])
    case Hand(t) =>
      var b := s.tasks[t].block;
      s.(refcounts := if b.order == 0 && b.pn < |s.refcounts| then s.refcounts[b.pn := 1] else s.refcounts,
         tasks := s.tasks[t := Resting], held := [b] + s.held)
    case Free(t, i) =>
      var b := s.held[i];
      var refs := if b.order == 0 then Unref(s.refcounts, b.pn) else s.refcounts;
      if !Accepts(c, b)
      then s
      else if PassesGate(s.refcounts, b)
      then s.(refcounts := refs, held := Drop(s.held, i), tasks := s.tasks[t := Merging(b)])
      else s.(refcounts := refs, held := Drop(s.held, i), shared := [b] + s.shared)
    case Merge(t) =>
      var b := s.tasks[t].block;
      var buddy := FlipBit(b.pn, b.order);
      if b.order < MAX_ORDER && buddy in s.lists[b.order]
      then s.(lists := Without(s.lists, b.order, Index(s.lists[b.order], buddy)),
              freePages := s.freePages - Pow2(b.order),
              tasks := s.tasks[t := Merging(Block(if b.pn < buddy then b.pn else buddy, b.order + 1))])
      else s.(lists := Push(s.lists, b), freePages := s.freePages + Pow2(b.order), tasks := s.tasks[t := Resting])
    case Divide(i) =>
      var b := s.held[i];
      s.(held := [Block(b.pn, b.order - 1), Block(b.pn + Pow2(b.order - 1), b.order - 1)] + Drop(s.held, i))
  }

  // -- Invariant ---------------------------------------------------------

  function InFlight(tasks: seq<Task>): seq<Block> {
    if tasks == [] then [] else
    (match tasks[0] case Resting => [] case Splitting(b, _) => [b] case Merging(b) => [b]) + InFlight(tasks[1..])
  }

  // How many blocks of any kind contain page `p`.
  function Total(s: State, p: nat): nat {
    Cover(s.lists, p) + CoverBlocks(InFlight(s.tasks), p) + CoverBlocks(s.held, p) + CoverBlocks(s.shared, p)
  }

  predicate WellFormedBlock(b: Block) {
    b.order <= MAX_ORDER && AlignedTo(b.pn, b.order)
  }

  predicate WellFormedTask(task: Task) {
    match task
    case Resting => true
    case Splitting(b, order) => WellFormedBlock(b) && order <= b.order
    case Merging(b) => WellFormedBlock(b)
  }

  ghost predicate Shape(s: State) {
    && |s.lists| == MAX_ORDER + 1 && AllAligned(s.lists) && s.freePages == Weight(s.lists)
    && (forall t :: 0 <= t < |s.tasks| ==> WellFormedTask(s.tasks[t]))
    && (forall i :: 0 <= i < |s.held| ==> WellFormedBlock(s.held[i]))
  }

  ghost predicate Inv(c: Config, s: State) {
    && Shape(s)
    && forall p: nat :: Total(s, p) <= 1 && (Total(s, p) == 1 ==> c.base <= p < c.top && !Reserved(c, p))
  }

  lemma {:induction false} CoverBlocksDrop(bs: seq<Block>, i: nat, p: nat)
    requires i < |bs|
    ensures CoverBlocks(bs, p) == One(bs[i], p) + CoverBlocks(Drop(bs, i), p)
  {
    if i == 0 {
      assert Drop(bs, 0) == bs[1..];
    } else {
      CoverBlocksDrop(bs[1..], i - 1, p);
      assert Drop(bs, i)[1..] == Drop(bs[1..], i - 1);
    }
  }

  function Carried(task: Task, p: nat): nat {
    match task case Resting => 0 case Splitting(b, _) => One(b, p) case Merging(b) => One(b, p)
  }

  lemma {:induction false} InFlightUpdate(tasks: seq<Task>, t: nat, task: Task, p: nat)
    requires t < |tasks|
    ensures CoverBlocks(InFlight(tasks[t := task]), p) + Carried(tasks[t], p)
         == CoverBlocks(InFlight(tasks), p) + Carried(task, p)
  {
    InFlightFirst(tasks, p);
    InFlightFirst(tasks[t := task], p);
    if t == 0 {
      assert tasks[t := task][1..] == tasks[1..];
    } else {
      InFlightUpdate(tasks[1..], t - 1, task, p);
      assert tasks[t := task][1..] == tasks[1..][t - 1 := task];
    }
  }

  lemma InFlightFirst(tasks: seq<Task>, p: nat)
    requires tasks != []
    ensures CoverBlocks(InFlight(tasks), p) == Carried(tasks[0], p) + CoverBlocks(InFlight(tasks[1..]), p)
  {
    var rest := InFlight(tasks[1..]);
    match tasks[0]
    case Resting => assert InFlight(tasks) == rest;
    case Splitting(b, _) => assert InFlight(tasks) == [b] + rest && InFlight(tasks)[1..] == rest;
    case Merging(b) => assert InFlight(tasks) == [b] + rest && InFlight(tasks)[1..] == rest;
  }

  // -- Every step conserves every page -------------------------------------

  lemma PopConserves(c: Config, s: State, step: Step)
    requires Shape(s) && Enabled(s, step) && (step.Pop? || step.Cut?)
    ensures Shape(Next(c, s, step)) && forall p: nat :: Total(Next(c, s, step), p) == Total(s, p)
  {
    var n := Next(c, s, step);
    match step
    case Pop(t, from, order) =>
      WithoutCounts(s.lists, from, 0);
      forall p: nat ensures Total(n, p) == Total(s, p) {
        InFlightUpdate(s.tasks, t, n.tasks[t], p);
      }
    case Cut(t) =>
      var Splitting(b, order) := s.tasks[t];
      AlignedHalves(b.pn, b.order - 1);
      PushCounts(s.lists, Block(b.pn, b.order - 1));
      forall p: nat ensures Total(n, p) == Total(s, p) {
        InFlightUpdate(s.tasks, t, n.tasks[t], p);
        HalvesCover(b.pn, b.order - 1, p);
      }
  }

  lemma HandConserves(c: Config, s: State, step: Step)
    requires Shape(s) && Enabled(s, step) && step.Hand?
    ensures Shape(Next(c, s, step)) && forall p: nat :: Total(Next(c, s, step), p) == Total(s, p)
  {
    var n := Next(c, s, step);
    forall p: nat ensures Total(n, p) == Total(s, p) {
      InFlightUpdate(s.tasks, step.t, Resting, p);
      assert n.held[1..] == s.held;
    }
  }

  lemma FreeConserves(c: Config, s: State, step: Step)
    requires Shape(s) && Enabled(s, step) && step.Free?
    ensures Shape(Next(c, s, step)) && forall p: nat :: Total(Next(c, s, step), p) == Total(s, p)
  {
    var n := Next(c, s, step);
    var b := s.held[step.i];
    if Accepts(c, b) {
      assert n.held == Drop(s.held, step.i);
      forall p: nat ensures Total(n, p) == Total(s, p) {
        CoverBlocksDrop(s.held, step.i, p);
        if PassesGate(s.refcounts, b) {
          InFlightUpdate(s.tasks, step.t, Merging(b), p);
        } else {
          assert n.shared[1..] == s.shared;
        }
      }
    }
  }

  lemma DivideConserves(c: Config, s: State, step: Step)
    requires Shape(s) && Enabled(s, step) && step.Divide?
    ensures Shape(Next(c, s, step)) && forall p: nat :: Total(Next(c, s, step), p) == Total(s, p)
  {
    var n := Next(c, s, step);
    var b := s.held[step.i];
    var half := b.order - 1;
    var low, high := Block(b.pn, half), Block(b.pn + Pow2(half), half);
    var rest := Drop(s.held, step.i);
    AlignedHalves(b.pn, half);
    assert n.held == [low] + ([high] + rest);
    forall p: nat ensures Total(n, p) == Total(s, p) {
      CoverBlocksDrop(s.held, step.i, p);
      HalvesCover(b.pn, half, p);
      assert n.held[1..] == [high] + rest && ([high] + rest)[1..] == rest;
      assert CoverBlocks(n.held, p) == One(low, p) + One(high, p) + CoverBlocks(rest, p);
    }
  }

  // The buddy is free: the two become one block in flight.
  lemma AbsorbConserves(c: Config, s: State, step: Step)
    requires Shape(s) && Enabled(s, step) && step.Merge?
    requires var b := s.tasks[step.t].block; b.order < MAX_ORDER && FlipBit(b.pn, b.order) in s.lists[b.order]
    ensures Shape(Next(c, s, step)) && forall p: nat :: Total(Next(c, s, step), p) == Total(s, p)
  {
    var n, b := Next(c, s, step), s.tasks[step.t].block;
    var buddy := FlipBit(b.pn, b.order);
    BuddyCompletes(b.pn, b.order);
    WithoutCounts(s.lists, b.order, Index(s.lists[b.order], buddy));
    forall p: nat ensures Total(n, p) == Total(s, p) {
      InFlightUpdate(s.tasks, step.t, n.tasks[step.t], p);
      HalvesCover(if b.pn < buddy then b.pn else buddy, b.order, p);
    }
  }

  lemma MergeConserves(c: Config, s: State, step: Step)
    requires Shape(s) && Enabled(s, step) && step.Merge?
    ensures Shape(Next(c, s, step)) && forall p: nat :: Total(Next(c, s, step), p) == Total(s, p)
  {
    var b := s.tasks[step.t].block;
    if b.order < MAX_ORDER && FlipBit(b.pn, b.order) in s.lists[b.order] {
      AbsorbConserves(c, s, step);
    } else {
      var n := Next(c, s, step);
      PushCounts(s.lists, b);
      forall p: nat ensures Total(n, p) == Total(s, p) {
        InFlightUpdate(s.tasks, step.t, Resting, p);
      }
    }
  }

  lemma StepConserves(c: Config, s: State, step: Step)
    requires Inv(c, s) && Enabled(s, step)
    ensures Inv(c, Next(c, s, step)) && forall p: nat :: Total(Next(c, s, step), p) == Total(s, p)
  {
    match step
    case Pop(_, _, _) => PopConserves(c, s, step);
    case Cut(_) => PopConserves(c, s, step);
    case Hand(_) => HandConserves(c, s, step);
    case Free(_, _) => FreeConserves(c, s, step);
    case Divide(_) => DivideConserves(c, s, step);
    case Merge(_) => MergeConserves(c, s, step);
  }

  ghost predicate Run(c: Config, states: seq<State>, steps: seq<Step>) {
    && |states| == |steps| + 1
    && forall i {:trigger steps[i]} :: 0 <= i < |steps| ==>
         Enabled(states[i], steps[i]) && states[i + 1] == Next(c, states[i], steps[i])
  }

  // Safety over every interleaving: the invariant holds throughout, and every page is in as
  // many blocks (free, in flight, held or shared) as it was at the start.
  lemma {:induction false} RunsAreSafe(c: Config, states: seq<State>, steps: seq<Step>)
    requires Run(c, states, steps) && Inv(c, states[0])
    ensures forall i :: 0 <= i < |states| ==> Inv(c, states[i])
    ensures forall i, p: nat :: 0 <= i < |states| ==> Total(states[i], p) == Total(states[0], p)
  {
    if |steps| > 0 {
      var n := |steps| - 1;
      var before := states[..n + 1];
      assert forall i :: 0 <= i < |before| ==> before[i] == states[i];
      RunsAreSafe(c, before, steps[..n]);
      assert Inv(c, before[n]);
      StepConserves(c, states[n], steps[n]);
      forall i, p: nat | 0 <= i < |states|
        ensures Inv(c, states[i]) && Total(states[i], p) == Total(states[0], p)
      {
        if i <= n {
          assert states[i] == before[i];
        } else {
          assert Total(before[n], p) == Total(before[0], p);
        }
      }
    }
  }

  // -- What the invariant means to callers ----------------------------------

  // A page of a held block is on no free list, in no other held block and in no block in
  // flight, and its block will be accepted when it is freed.
  lemma HeldIsExclusive(c: Config, s: State, i: nat, p: nat)
    requires Inv(c, s) && i < |s.held| && Has(s.held[i], p)
    ensures Accepts(c, s.held[i])
    ensures p !in Pages(s.lists)
    ensures forall j :: 0 <= j < |s.held| && j != i ==> !Has(s.held[j], p)
    ensures forall t :: 0 <= t < |s.tasks| ==> Carried(s.tasks[t], p) == 0
  {
    CoverBlocksDrop(s.held, i, p);
    assert Total(s, p) == 1;
    PagesFromIn(s.lists, 0, p);
    var b := s.held[i];
    CoverBlocksDrop(s.held, i, b.pn);
    var last := b.pn + Pow2(b.order) - 1;
    CoverBlocksDrop(s.held, i, last);
    assert Total(s, b.pn) >= 1 && Total(s, last) >= 1;
    forall j | 0 <= j < |s.held| && j != i
      ensures !Has(s.held[j], p)
    {
      var k := if j < i then j else j - 1;
      assert Drop(s.held, i)[k] == s.held[j];
      CoverBlocksDrop(Drop(s.held, i), k, p);
    }
    forall t | 0 <= t < |s.tasks|
      ensures Carried(s.tasks[t], p) == 0
    {
      InFlightUpdate(s.tasks, t, Resting, p);
    }
  }

  // The counter equals the number of free pages at every point of every run.
  lemma CounterIsExact(c: Config, s: State)
    requires Inv(c, s)
    ensures s.freePages == |Pages(s.lists)|
  {
    forall p: nat
      ensures Cover(s.lists, p) <= 1
    {
      assert Total(s, p) <= 1;
    }
    FreePagesCounted(s.lists);
  }

  // Once no thread is inside the allocator, a page that is neither held nor shared is free
  // if it ever was: nothing is lost between the lists.
  lemma QuiescentPageIsFree(c: Config, states: seq<State>, steps: seq<Step>, p: nat)
    requires Run(c, states, steps) && Inv(c, states[0]) && p in Pages(states[0].lists)
    requires var s := states[|steps|];
             && (forall t :: 0 <= t < |s.tasks| ==> s.tasks[t].Resting?)
             && CoverBlocks(s.held, p) == 0 && CoverBlocks(s.shared, p) == 0
    ensures p in Pages(states[|steps|].lists)
  {
    var s := states[|steps|];
    RunsAreSafe(c, states, steps);
    PagesFromIn(states[0].lists, 0, p);
    PagesFromIn(s.lists, 0, p);
    AllResting(s.tasks);
    assert Total(s, p) == Total(states[0], p);
  }

  lemma {:induction false} AllResting(tasks: seq<Task>)
    requires forall t :: 0 <= t < |tasks| ==> tasks[t].Resting?
    ensures InFlight(tasks) == []
  {
    if tasks != [] {
      AllResting(tasks[1..]);
    }
  }
}
