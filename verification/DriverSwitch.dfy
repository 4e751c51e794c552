/** switch_frame_to_next_driver of kernel/src/gdf.rs, run with nothing else touching the queue: it
    takes ids off the ready queue until it meets a driver it can load, and puts the others back. */
module DriverSwitch {
  import opened Basics
  import opened ReadyQueues

  const MAX_CHECK: nat := 64
  const BUFFER: nat := 64

  // Which ids are driver vCPUs, and which of those can be loaded now: present, Ready and with a
  // valid frame.
  datatype Vcpus = Vcpus(driver: nat -> bool, loadable: nat -> bool)

  function Others(v: Vcpus, s: seq<nat>): seq<nat> {
    if s == [] then []
    else if v.driver(s[0]) then Others(v, s[1..])
    else [s[0]] + Others(v, s[1..])
  }

  lemma {:induction false} OthersConcat(v: Vcpus, a: seq<nat>, b: seq<nat>)
    ensures Others(v, a + b) == Others(v, a) + Others(v, b)
  {
    if a == [] {
      assert a + b == b;
    } else {
      assert (a + b)[1..] == a[1..] + b;
      OthersConcat(v, a[1..], b);
    }
  }

  predicate NoDrivers(v: Vcpus, s: seq<nat>) {
    forall id :: id in s ==> !v.driver(id)
  }

  predicate NoneLoadable(v: Vcpus, s: seq<nat>) {
    forall id :: id in s ==> !(v.driver(id) && v.loadable(id))
  }

  lemma {:induction false} OthersOfOthers(v: Vcpus, s: seq<nat>)
    requires NoDrivers(v, s)
    ensures Others(v, s) == s
  {
    if s != [] {
      OthersOfOthers(v, s[1..]);
    }
  }

  /** The queue `after` holds what is left of `before` once its first `m` ids were taken off: the
      rest in order, then the non-drivers among the `m`, in some order. */
  ghost predicate PutBack(v: Vcpus, before: seq<nat>, m: nat, after: seq<nat>, back: seq<nat>) {
    && m <= |before| && after == before[m..] + back
    && NoDrivers(v, back) && multiset(back) == multiset(Others(v, before[..m]))
  }

  // Puts the first `n` ids of the buffer back.
  method PushBack(q: ReadyQueue, temp: array<nat>, n: nat)
    requires q.Valid() && n <= temp.Length && |q.Contents()| + n <= CAPACITY && temp != q.buf
    modifies q, q.buf
    ensures q.Valid() && q.buf == old(q.buf) && q.dropped == old(q.dropped)
    ensures q.Contents() == old(q.Contents()) + old(temp[..n])
  {
    for i := 0 to n
      invariant q.Valid() && q.buf == old(q.buf) && q.dropped == old(q.dropped)
      invariant temp[..] == old(temp[..]) && q.Contents() == old(q.Contents()) + temp[..i]
    {
      var ok := q.Push(temp[i]);
      assert temp[..i + 1] == temp[..i] + [temp[i]];
    }
  }

  // How far the loop has come: the first `m` ids are off, `back` and `held` are theirs.
  ghost predicate Scanning(v: Vcpus, before: seq<nat>, m: nat, queue: seq<nat>, back: seq<nat>, held: seq<nat>) {
    && m <= |before| && queue == before[m..] + back
    && NoDrivers(v, back) && NoDrivers(v, held)
    && multiset(back) + multiset(held) == multiset(Others(v, before[..m]))
  }

  lemma OthersBound(v: Vcpus, s: seq<nat>)
    ensures |Others(v, s)| <= |s|
  {
  }

  // The queue and the ids held fit the ring together.
  lemma ScanningFits(v: Vcpus, before: seq<nat>, m: nat, queue: seq<nat>, back: seq<nat>, held: seq<nat>)
    requires Scanning(v, before, m, queue, back, held)
    ensures |queue| + |held| <= |before|
  {
    OthersBound(v, before[..m]);
    assert |multiset(back) + multiset(held)| == |back| + |held|;
    assert |multiset(Others(v, before[..m]))| == |Others(v, before[..m])|;
  }

  // Taking the next id off: a new one from `before`, or one of those put back.
  lemma ScanningPops(v: Vcpus, before: seq<nat>, m: nat, queue: seq<nat>, back: seq<nat>, held: seq<nat>)
    requires Scanning(v, before, m, queue, back, held) && queue != []
    ensures m < |before| ==> queue[0] == before[m]
    ensures m < |before| && v.driver(queue[0]) ==> Scanning(v, before, m + 1, queue[1..], back, held)
    ensures m < |before| && !v.driver(queue[0]) ==> Scanning(v, before, m + 1, queue[1..], back, held + [queue[0]])
    ensures m == |before| ==>
      back != [] && !v.driver(queue[0]) && Scanning(v, before, m, queue[1..], back[1..], held + [queue[0]])
  {
    if m < |before| {
      PopsNew(v, before, m, queue, back, held);
    } else {
      PopsOld(v, before, m, queue, back, held);
    }
  }

  lemma PopsNew(v: Vcpus, before: seq<nat>, m: nat, queue: seq<nat>, back: seq<nat>, held: seq<nat>)
    requires Scanning(v, before, m, queue, back, held) && m < |before|
    ensures Scanning(v, before, m + 1, queue[1..], back, if v.driver(queue[0]) then held else held + [queue[0]])
  {
    var id := queue[0];
    assert before[..m + 1] == before[..m] + [id];
    OthersConcat(v, before[..m], [id]);
    assert before[m..][1..] == before[m + 1..];
    assert multiset(held + [id]) == multiset(held) + multiset{id};
  }

  lemma PopsOld(v: Vcpus, before: seq<nat>, m: nat, queue: seq<nat>, back: seq<nat>, held: seq<nat>)
    requires Scanning(v, before, m, queue, back, held) && m == |before| && queue != []
    ensures back == queue && !v.driver(queue[0]) && Scanning(v, before, m, queue[1..], back[1..], held + [queue[0]])
  {
    var id := queue[0];
    assert back == [id] + back[1..];
    assert multiset(back) == multiset{id} + multiset(back[1..]);
    assert multiset(held + [id]) == multiset(held) + multiset{id};
  }

  lemma ScanningPushes(v: Vcpus, before: seq<nat>, m: nat, queue: seq<nat>, back: seq<nat>, held: seq<nat>, id: nat)
    requires Scanning(v, before, m, queue, back, held + [id])
    ensures Scanning(v, before, m, queue + [id], back + [id], held)
    ensures |queue| < |before|
  {
    ScanningFits(v, before, m, queue, back, held + [id]);
    assert queue + [id] == before[m..] + (back + [id]);
    assert multiset(back + [id]) == multiset(back) + multiset{id};
    assert multiset(held + [id]) == multiset(held) + multiset{id};
    assert id in held + [id] && forall x :: x in held ==> x in held + [id];
  }

  // Not a driver: keep it in the buffer, or put it back at once when the buffer is full.
  method Hold(
      q: ReadyQueue, temp: array<nat>, n: nat, id: nat, ghost v: Vcpus, ghost before: seq<nat>, ghost m: nat,
      ghost back: seq<nat>)
    returns (n': nat, ghost back': seq<nat>)
    requires q.Valid() && temp != q.buf && n <= temp.Length == BUFFER && |before| <= CAPACITY
    requires Scanning(v, before, m, q.Contents(), back, temp[..n] + [id])
    modifies q, q.buf, temp
    ensures q.Valid() && q.buf == old(q.buf) && q.dropped == old(q.dropped) && n' <= BUFFER
    ensures Scanning(v, before, m, q.Contents(), back', temp[..n'])
  {
    back' := back;
    if n < BUFFER {
      ghost var was := temp[..n];
      temp[n] := id;
      n' := n + 1;
      assert temp[..n'] == was + [id];
    } else {
      n' := n;
      ScanningPushes(v, before, m, q.Contents(), back, temp[..n], id);
      var ok := q.Push(id);
      back' := back + [id];
    }
  }

  // Puts everything held back on the queue, where there is room for it.
  method Release(
      q: ReadyQueue, temp: array<nat>, n: nat, ghost v: Vcpus, ghost before: seq<nat>, ghost m: nat,
      ghost back: seq<nat>)
    returns (ghost back': seq<nat>)
    requires q.Valid() && temp != q.buf && n <= temp.Length && |before| <= CAPACITY
    requires Scanning(v, before, m, q.Contents(), back, temp[..n])
    modifies q, q.buf
    ensures q.Valid() && q.buf == old(q.buf) && q.dropped == old(q.dropped)
    ensures Scanning(v, before, m, q.Contents(), back', []) && PutBack(v, before, m, q.Contents(), back')
  {
    ScanningFits(v, before, m, q.Contents(), back, temp[..n]);
    back' := back + temp[..n];
    PushBack(q, temp, n);
  }

  // The loop's invariant after taking off `m` ids.
  ghost predicate InScan(q: ReadyQueue, v: Vcpus, temp: array<nat>, n: nat, before: seq<nat>, m: nat, back: seq<nat>)
    reads q, q.buf, temp
  {
    && q.Valid() && temp != q.buf && n <= temp.Length == BUFFER && |before| <= CAPACITY
    && Scanning(v, before, m, q.Contents(), back, temp[..n])
  }

  // One turn of the loop: the id taken off, and whether it is a driver to load.
  method Turn(
      q: ReadyQueue, v: Vcpus, temp: array<nat>, n: nat, ghost before: seq<nat>, ghost m: nat, ghost back: seq<nat>)
    returns (next: Option<nat>, load: bool, n': nat, ghost m': nat, ghost back': seq<nat>)
    requires InScan(q, v, temp, n, before, m, back)
    modifies q, q.buf, temp
    ensures q.buf == old(q.buf) && q.dropped == old(q.dropped)
    ensures InScan(q, v, temp, n', before, m', back')
    ensures next.None? ==> m == |before| == m'
    ensures next.Some? ==> m' == Least(m + 1, |before|)
    ensures next.Some? && m < |before| ==> next.value == before[m]
    ensures load ==> next.Some? && m < |before| && v.driver(before[m]) && v.loadable(before[m])
    ensures load ==> PutBack(v, before, m', q.Contents(), back')
    ensures !load && next.Some? && m < |before| ==> !(v.driver(before[m]) && v.loadable(before[m]))
  {
    ghost var queue := q.Contents();
    n', m', back', load := n, m, back, false;
    next := q.Pop();
    if next == None {
      return;
    }
    ScanningPops(v, before, m, queue, back, temp[..n]);
    if v.driver(next.value) {
      m' := m + 1;
      back' := Release(q, temp, n, v, before, m', back);
      n' := 0;
      load := v.loadable(next.value);
    } else {
      if m < |before| { m' := m + 1; } else { back' := back[1..]; }
      n', back' := Hold(q, temp, n, next.value, v, before, m', back');
    }
  }

  lemma NoneLoadableGrows(v: Vcpus, before: seq<nat>, m: nat)
    requires m < |before| && NoneLoadable(v, before[..m]) && !(v.driver(before[m]) && v.loadable(before[m]))
    ensures NoneLoadable(v, before[..m + 1])
  {
    assert before[..m + 1] == before[..m] + [before[m]];
  }

  method SwitchToNextDriver(q: ReadyQueue, v: Vcpus) returns (r: Option<nat>, ghost m: nat, ghost back: seq<nat>)
    requires q.Valid()
    modifies q, q.buf
    ensures q.Valid() && q.dropped == old(q.dropped)
    ensures PutBack(v, old(q.Contents()), m, q.Contents(), back)
    ensures r.Some? ==> Chosen(v, old(q.Contents()), m, r.value)
    ensures r.None? ==> Searched(v, old(q.Contents()), m, MAX_CHECK)
  {
    var temp := new nat[BUFFER](_ => 0);
    var n: nat;
    assert temp[..0] == [];
    ghost var before := q.Contents();
    r, n, m, back := Scan(q, v, temp, before);
    if r == None {
      back := Release(q, temp, n, v, before, m, back);
    }
  }

  // The loop. Without a driver to load, the ids still in the buffer are to be put back.
  method Scan(q: ReadyQueue, v: Vcpus, temp: array<nat>, ghost before: seq<nat>)
    returns (r: Option<nat>, n: nat, ghost m: nat, ghost back: seq<nat>)
    requires InScan(q, v, temp, 0, before, 0, [])
    modifies q, q.buf, temp
    ensures q.Valid() && q.buf == old(q.buf) && q.dropped == old(q.dropped)
    ensures r.Some? ==> Chosen(v, before, m, r.value) && PutBack(v, before, m, q.Contents(), back)
    ensures r.None? ==> InScan(q, v, temp, n, before, m, back) && Searched(v, before, m, MAX_CHECK)
  {
    n, m, back := 0, 0, [];
    var checked: nat := 0;
    while checked < MAX_CHECK
      invariant InScan(q, v, temp, n, before, m, back) && q.buf == old(q.buf) && q.dropped == old(q.dropped)
      invariant checked <= MAX_CHECK && Searched(v, before, m, checked)
    {
      var next, load;
      ghost var at := m;
      next, load, n, m, back := Turn(q, v, temp, n, before, m, back);
      if next == None {
        return None, n, m, back;
      }
      if load {
        return next, n, m, back;
      }
      SearchGrows(v, before, at, checked);
      checked := checked + 1;
    }
    r := None;
  }

  // The first `m` ids have been looked at in `checked` turns and none of them can be loaded.
  predicate Searched(v: Vcpus, before: seq<nat>, m: nat, checked: nat) {
    m == Least(checked, |before|) && NoneLoadable(v, before[..m])
  }

  lemma SearchGrows(v: Vcpus, before: seq<nat>, m: nat, checked: nat)
    requires Searched(v, before, m, checked)
    requires m < |before| ==> !(v.driver(before[m]) && v.loadable(before[m]))
    ensures Searched(v, before, Least(m + 1, |before|), checked + 1)
  {
    if m < |before| {
      NoneLoadableGrows(v, before, m);
    }
  }

  function Least(a: nat, b: nat): nat {
    if a < b then a else b
  }

  // The id at place `m - 1`, within the first 64, is the first loadable driver of the queue.
  predicate Chosen(v: Vcpus, before: seq<nat>, m: nat, id: nat) {
    && 1 <= m <= |before| && m <= MAX_CHECK && before[m - 1] == id
    && v.driver(id) && v.loadable(id) && NoneLoadable(v, before[..m - 1])
  }

  /** The switch keeps the multiset of non-drivers, and what it takes off the queue for good are
      drivers alone. */
  lemma OnlyDriversLeave(v: Vcpus, before: seq<nat>, m: nat, after: seq<nat>, back: seq<nat>)
    requires PutBack(v, before, m, after, back)
    ensures multiset(Others(v, after)) == multiset(Others(v, before))
    ensures forall id :: multiset(after)[id] <= multiset(before)[id]
    ensures forall id :: multiset(after)[id] < multiset(before)[id] ==> v.driver(id)
  {
    assert before == before[..m] + before[m..];
    OthersConcat(v, before[..m], before[m..]);
    OthersConcat(v, before[m..], back);
    OthersOfOthers(v, back);
    assert multiset(before) == multiset(before[..m]) + multiset(before[m..]);
    forall id: nat
      ensures multiset(after)[id] <= multiset(before)[id]
      ensures !v.driver(id) ==> multiset(after)[id] == multiset(before)[id]
    {
      OthersCount(v, before[..m], id);
    }
  }

  lemma {:induction false} OthersCount(v: Vcpus, s: seq<nat>, id: nat)
    ensures multiset(Others(v, s))[id] == if v.driver(id) then 0 else multiset(s)[id]
  {
    if s != [] {
      OthersCount(v, s[1..], id);
      assert s == [s[0]] + s[1..];
      assert multiset(s) == multiset{s[0]} + multiset(s[1..]);
    }
  }
}
