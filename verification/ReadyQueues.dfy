/** The per-CPU ready queue of kernel/src/percpu.rs: a ring of 256 slots whose head and tail are free
    running 64-bit counters. It is a first-in first-out queue, also when a counter wraps. */
module ReadyQueues {
  import opened Basics

  const CAPACITY: nat := 256
  const WORD: nat := 0x1_0000_0000_0000_0000

  // wrapping_add(1) and wrapping_sub on 64 bits
  function Bump(x: nat): nat {
    if x + 1 == WORD then 0 else x + 1
  }

  function Distance(tail: nat, head: nat): nat
    requires tail < WORD && head < WORD
  {
    if head <= tail then tail - head else tail - head + WORD
  }

  // The slot of the `i`-th entry after `head`.
  function Slot(head: nat, i: nat): (k: nat)
    ensures k < CAPACITY
  {
    (head + i) % CAPACITY
  }

  // The first `n` entries of the ring after `head`.
  function Ring(buf: seq<nat>, head: nat, n: nat): (q: seq<nat>)
    requires |buf| == CAPACITY
    ensures |q| == n && forall i :: 0 <= i < n ==> q[i] == buf[Slot(head, i)]
  {
    seq(n, i requires 0 <= i < n => buf[Slot(head, i)])
  }

  lemma RingGrows(buf: seq<nat>, head: nat, n: nat, id: nat)
    requires |buf| == CAPACITY && n < CAPACITY
    ensures Ring(buf[Slot(head, n) := id], head, n + 1) == Ring(buf, head, n) + [id]
  {
    assert forall i :: 0 <= i < n ==> Slot(head, i) != Slot(head, n);
  }

  lemma RingShrinks(buf: seq<nat>, head: nat, n: nat)
    requires |buf| == CAPACITY && head < WORD && n > 0
    ensures Ring(buf, Bump(head), n - 1) == Ring(buf, head, n)[1..]
  {
    assert forall i :: 0 <= i < n - 1 ==> Slot(Bump(head), i) == Slot(head, i + 1);
  }

  class ReadyQueue {
    var buf: array<nat>
    var head: nat
    var tail: nat
    var dropped: nat

    ghost predicate Valid()
      reads this
    {
      buf.Length == CAPACITY && head < WORD && tail < WORD && Distance(tail, head) <= CAPACITY
    }

    ghost function Contents(): (q: seq<nat>)
      requires Valid()
      reads this, buf
      ensures |q| <= CAPACITY
    {
      Ring(buf[..], head, Distance(tail, head))
    }

    constructor ()
      ensures Valid() && Contents() == [] && dropped == 0 && fresh(buf)
    {
      buf := new nat[CAPACITY](_ => 0);
      head, tail, dropped := 0, 0, 0;
    }

    method Push(id: nat) returns (ok: bool)
      requires Valid()
      modifies this, buf
      ensures Valid() && buf == old(buf)
      ensures ok <==> |old(Contents())| < CAPACITY
      ensures ok ==> Contents() == old(Contents()) + [id] && dropped == old(dropped)
      ensures !ok ==> Contents() == old(Contents()) && dropped == old(dropped) + 1
    {
      if Distance(tail, head) >= CAPACITY {
        dropped := dropped + 1;
        return false;
      }
      RingGrows(buf[..], head, Distance(tail, head), id);
      buf[tail % CAPACITY] := id;
      tail := Bump(tail);
      return true;
    }

    method Pop() returns (r: Option<nat>)
      requires Valid()
      modifies `head
      ensures Valid() && buf == old(buf)
      ensures old(Contents()) == [] ==> r == None && Contents() == []
      ensures old(Contents()) != [] ==> r == Some(old(Contents())[0]) && Contents() == old(Contents())[1..]
    {
      if head == tail {
        return None;
      }
      r := Some(buf[head % CAPACITY]);
      RingShrinks(buf[..], head, Distance(tail, head));
      head := Bump(head);
    }

    method Peek() returns (r: Option<nat>)
      requires Valid()
      ensures r == if Contents() == [] then None else Some(Contents()[0])
    {
      if head == tail {
        return None;
      }
      return Some(buf[head % CAPACITY]);
    }
  }
}
