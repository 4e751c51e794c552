/** A run of the buddy allocator, from two free pages of count 1, that ends with two pages on no list
    and held by nobody: pages freed singly keep count 0, and an allocation of more than one page does
    not set it back. */
module BuddyKeptBack {
  import opened Basics
  import opened BuddyBlocks
  import opened BuddyZone
  import opened BuddyRuns

  datatype Trace = Trace(states: seq<State>, steps: seq<Step>)

  // The trace is a run from `first` that has reached `s`.
  ghost predicate Reaches(c: Config, r: Trace, first: State, s: State) {
    Run(c, r.states, r.steps) && r.states[0] == first && r.states[|r.steps|] == s
  }

  lemma Extend(c: Config, r: Trace, first: State, s: State, step: Step) returns (r': Trace, t: State)
    requires Reaches(c, r, first, s) && Enabled(s, step)
    ensures Reaches(c, r', first, t) && t == Next(c, s, step)
  {
    t := Next(c, s, step);
    r' := Trace(r.states + [t], r.steps + [step]);
    forall k | 0 <= k < |r'.steps|
      ensures Enabled(r'.states[k], r'.steps[k]) && r'.states[k + 1] == Next(c, r'.states[k], r'.steps[k])
    {
      assert k < |r.steps| ==> r'.states[k] == r.states[k] && r'.states[k + 1] == r.states[k + 1];
    }
  }

  // One thread; the lists of orders 0 and 1 are as given and the others empty, and the two pages from
  // `pn` on have the given counts.
  ghost predicate At(
    s: State, pn: nat, singles: seq<nat>, pairs: seq<nat>, task: Task, held: seq<Block>, counts: (nat, nat))
  {
    && |s.lists| == MAX_ORDER + 1 && s.lists[0] == singles && s.lists[1] == pairs
    && (forall k :: 2 <= k <= MAX_ORDER ==> s.lists[k] == [])
    && s.tasks == [task] && s.held == held
    && pn + 1 < |s.refcounts| && (s.refcounts[pn], s.refcounts[pn + 1]) == counts
  }

  // The pages `pn` and `pn + 1` are buddies that may be allocated and have a reference count.
  predicate TwoPages(c: Config, pn: nat) {
    && pn % 2 == 0 && c.base <= pn && pn + 2 <= c.top && !Reserved(c, pn) && !Reserved(c, pn + 1)
    && pn + 2 <= REFCOUNT_MAX_PAGES
  }

  // Both pages are allocated singly.
  lemma AllocatedSingly(c: Config, r: Trace, first: State, s: State, pn: nat) returns (r': Trace, t: State)
    requires Reaches(c, r, first, s) && At(s, pn, [], [pn], Resting, [], (1, 1))
    ensures Reaches(c, r', first, t) && At(t, pn, [], [], Resting, [Block(pn, 0), Block(pn + 1, 0)], (1, 1))
  {
    r', t := Extend(c, r, first, s, Pop(0, 1, 0));
    assert At(t, pn, [], [], Splitting(Block(pn, 1), 0), [], (1, 1));
    r', t := Extend(c, r', first, t, Cut(0));
    assert At(t, pn, [pn], [], Splitting(Block(pn + 1, 0), 0), [], (1, 1));
    r', t := Extend(c, r', first, t, Hand(0));
    assert At(t, pn, [pn], [], Resting, [Block(pn + 1, 0)], (1, 1));
    r', t := Extend(c, r', first, t, Pop(0, 0, 0));
    assert At(t, pn, [], [], Splitting(Block(pn, 0), 0), [Block(pn + 1, 0)], (1, 1));
    r', t := Extend(c, r', first, t, Hand(0));
  }

  // The first is freed, then the second, and they merge.
  lemma FreedFirst(c: Config, r: Trace, first: State, s: State, pn: nat) returns (r': Trace, t: State)
    requires Reaches(c, r, first, s) && TwoPages(c, pn)
    requires At(s, pn, [], [], Resting, [Block(pn, 0), Block(pn + 1, 0)], (1, 1))
    ensures Reaches(c, r', first, t) && At(t, pn, [pn], [], Resting, [Block(pn + 1, 0)], (0, 1))
  {
    r', t := Extend(c, r, first, s, Free(0, 0));
    assert At(t, pn, [], [], Merging(Block(pn, 0)), [Block(pn + 1, 0)], (0, 1));
    r', t := Extend(c, r', first, t, Merge(0));
  }

  lemma FreedSecond(c: Config, r: Trace, first: State, s: State, pn: nat) returns (r': Trace, t: State)
    requires Reaches(c, r, first, s) && TwoPages(c, pn)
    requires At(s, pn, [pn], [], Resting, [Block(pn + 1, 0)], (0, 1))
    ensures Reaches(c, r', first, t) && At(t, pn, [], [pn], Resting, [], (0, 0))
  {
    r', t := Extend(c, r, first, s, Free(0, 0));
    assert At(t, pn, [pn], [], Merging(Block(pn + 1, 0)), [], (0, 0));
    r', t := Extend(c, r', first, t, Merge(0));
    assert At(t, pn, [], [], Merging(Block(pn, 1)), [], (0, 0));
    r', t := Extend(c, r', first, t, Merge(0));
  }

  // Both are allocated as one block and freed page by page, as free_pages does.
  lemma AllocatedTogether(c: Config, r: Trace, first: State, s: State, pn: nat) returns (r': Trace, t: State)
    requires Reaches(c, r, first, s) && At(s, pn, [], [pn], Resting, [], (0, 0))
    ensures Reaches(c, r', first, t) && At(t, pn, [], [], Resting, [Block(pn, 1)], (0, 0))
  {
    r', t := Extend(c, r, first, s, Pop(0, 1, 1));
    assert At(t, pn, [], [], Splitting(Block(pn, 1), 1), [], (0, 0));
    r', t := Extend(c, r', first, t, Hand(0));
  }

  lemma FreedTogether(c: Config, r: Trace, first: State, s: State, pn: nat) returns (r': Trace, t: State)
    requires Reaches(c, r, first, s) && TwoPages(c, pn) && At(s, pn, [], [], Resting, [Block(pn, 1)], (0, 0))
    ensures Reaches(c, r', first, t) && At(t, pn, [], [], Resting, [], (0xFFFF, 0xFFFF))
  {
    r', t := Extend(c, r, first, s, Divide(0));
    assert At(t, pn, [], [], Resting, [Block(pn, 0), Block(pn + 1, 0)], (0, 0));
    r', t := Extend(c, r', first, t, Free(0, 0));
    assert At(t, pn, [], [], Resting, [Block(pn + 1, 0)], (0xFFFF, 0));
    r', t := Extend(c, r', first, t, Free(0, 0));
  }

  // The blocks kept back so far are single pages that have a reference count.
  predicate KeptTracked(s: State, n: nat) {
    |s.refcounts| == n && forall b :: b in s.shared ==> b.order == 0 && b.pn < n
  }

  /** In every run only single pages below the end of the count array are kept back. */
  lemma {:induction false} OnlyTrackedKept(c: Config, states: seq<State>, steps: seq<Step>, k: nat)
    requires Run(c, states, steps) && k < |states| && states[0].shared == []
    ensures KeptTracked(states[k], |states[0].refcounts|)
  {
    if k > 0 {
      OnlyTrackedKept(c, states, steps, k - 1);
      assert Enabled(states[k - 1], steps[k - 1]);
    }
  }

  // One free block of two pages, with every count 1.
  function Start(pn: nat): State {
    var lists: Lists := seq(MAX_ORDER + 1, _ => []);
    State(lists[1 := [pn]], 2, seq(REFCOUNT_MAX_PAGES, _ => 1), [Resting], [], [])
  }

  lemma StartIsFine(c: Config, pn: nat)
    requires TwoPages(c, pn)
    ensures Inv(c, Start(pn)) && At(Start(pn), pn, [], [pn], Resting, [], (1, 1))
  {
    var none: Lists := seq(MAX_ORDER + 1, _ => []);
    EmptyLists(none);
    PushCounts(none, Block(pn, 1));
    assert [pn] + none[1] == [pn];
    assert Push(none, Block(pn, 1)) == Start(pn).lists;
    AllResting([Resting]);
  }

  /** From a state with two free buddies, every count 1 and nothing held, a run of single allocations and
      frees and one allocation and free of two pages ends with nothing held, no thread inside the
      allocator, and both pages on no list. free_pages frees the two in two chunks. */
  lemma PagesAreLost(c: Config, pn: nat) returns (states: seq<State>, steps: seq<Step>)
    requires TwoPages(c, pn)
    ensures Run(c, states, steps) && Inv(c, states[0]) && Chunks(pn, 2) == [Block(pn, 0), Block(pn + 1, 0)]
    ensures states[0].lists[1] == [pn] && |states[0].refcounts| == REFCOUNT_MAX_PAGES
    ensures forall q :: q in states[0].refcounts ==> q == 1
    ensures var t := states[|steps|];
      && t.tasks == [Resting] && t.held == []
      && |t.lists| == MAX_ORDER + 1 && forall k :: 0 <= k <= MAX_ORDER ==> t.lists[k] == []
  {
    TwoAlignedPagesAreSplit(pn);
    StartIsFine(c, pn);
    var s := Start(pn);
    var r, t := Trace([s], []), s;
    r, t := AllocatedSingly(c, r, s, t, pn);
    r, t := FreedFirst(c, r, s, t, pn);
    r, t := FreedSecond(c, r, s, t, pn);
    r, t := AllocatedTogether(c, r, s, t, pn);
    r, t := FreedTogether(c, r, s, t, pn);
    states, steps := r.states, r.steps;
  }
}
