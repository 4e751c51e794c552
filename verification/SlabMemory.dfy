/** The memory behind one slab cache of kernel/src/mm/heap.rs: the free list threaded through the
    objects of each slab, and the doubly linked lists of slabs. Each operation is proved to do to
    these links what the functions of SlabRuns do to plain sequences. A slab pointer is the slab's
    base address, with 0 for null; a free object's first word is the index of the next one. */
module SlabMemory {
  import opened Basics
  import opened SlabRuns
  import BuddyBlocks

  const NULL: nat := 0

  // -- Slab sizes --------------------------------------------------------------------

  function SlabBytes(order: nat): nat {
    BuddyBlocks.Pow2(order) * 4096
  }

  lemma QuotientFits(avail: nat, size: nat)
    requires 1 <= size <= avail
    ensures 1 <= avail / size <= avail && avail / size * size <= avail < (avail / size + 1) * size
    ensures avail <= 15 * size + size - 1 ==> avail / size <= 15
  {
    var q := avail / size;
    assert avail == q * size + avail % size;
    assert q >= 16 ==> q * size >= 16 * size;
  }

  // cache_params: the least order whose slab holds an object, and how many it holds. The fallback
  // order 4 does not hold an object of more than 65496 bytes.
  method CacheParams(objSize: nat) returns (order: nat, objs: nat)
    requires objSize >= 1
    ensures order <= 4
    ensures objSize <= 65496 <==> HEADER + objs * objSize <= SlabBytes(order)
    ensures objSize <= 65496 ==> objs >= 1 && SlabBytes(order) < HEADER + (objs + 1) * objSize
    ensures forall k: nat :: k < order ==> SlabBytes(k) < HEADER + objSize
  {
    order := 0;
    assert SlabBytes(0) == 4096 && SlabBytes(4) == 65536;
    while order <= 4
      invariant order <= 5
      invariant forall k: nat :: k < order ==> SlabBytes(k) < HEADER + objSize
    {
      BuddyBlocks.Pow2Monotone(order, 4);
      var avail := SlabBytes(order) - HEADER;
      if avail >= objSize {
        QuotientFits(avail, objSize);
        objs := (avail / objSize) % 0x1_0000;  // as u16
        if objs >= 1 {
          return;
        }
      }
      order := order + 1;
    }
    return 4, 1;
  }

  // -- Doubly linked lists -----------------------------------------------------------

  function At(list: seq<nat>, i: int): nat {
    if 0 <= i < |list| then list[i] else NULL
  }

  ghost predicate LinkAt(list: seq<nat>, i: nat, next: map<nat, nat>, prev: map<nat, nat>) {
    i < |list| && list[i] in next && list[i] in prev
    && next[list[i]] == At(list, i + 1) && prev[list[i]] == At(list, i - 1)
  }

  ghost predicate Linked(list: seq<nat>, head: nat, next: map<nat, nat>, prev: map<nat, nat>) {
    && head == At(list, 0) && NULL !in list && NoDup(list)
    && forall i: nat {:trigger LinkAt(list, i, next, prev)} :: i < |list| ==> LinkAt(list, i, next, prev)
  }

  // Links outside `touched` are as before.
  ghost predicate SameLinks(
      touched: seq<nat>, next: map<nat, nat>, prev: map<nat, nat>, next': map<nat, nat>, prev': map<nat, nat>)
  {
    forall x :: x !in touched ==>
      (x in next ==> x in next' && next'[x] == next[x]) && (x in prev ==> x in prev' && prev'[x] == prev[x])
  }

  ghost predicate Separate(a: seq<nat>, b: seq<nat>) {
    forall x :: x in a ==> x !in b
  }

  lemma OtherListKept(
      list: seq<nat>, head: nat, touched: seq<nat>, next: map<nat, nat>, prev: map<nat, nat>, next': map<nat, nat>,
      prev': map<nat, nat>)
    requires Linked(list, head, next, prev) && Separate(list, touched)
    requires SameLinks(touched, next, prev, next', prev')
    ensures Linked(list, head, next', prev')
  {
    forall i: nat | i < |list|
      ensures LinkAt(list, i, next', prev')
    {
      assert LinkAt(list, i, next, prev) && list[i] in list;
    }
  }

  lemma {:induction false} WithoutSplits(list: seq<nat>, k: nat)
    requires NoDup(list) && k < |list|
    ensures Without(list, list[k]) == list[..k] + list[k + 1..]
  {
    if k == 0 {
      assert list[..0] + list[1..] == list[1..];
    } else {
      TailOf(list);
      WithoutSplits(list[1..], k - 1);
      assert list[1..][..k - 1] == list[1..k] && list[1..][k..] == list[k + 1..];
      assert list[..k] == [list[0]] + list[1..k];
    }
  }

  // -- The free list inside a slab ---------------------------------------------------

  ghost predicate Threaded(b: nat, free: seq<nat>, head: Option<nat>, word: map<Obj, Option<nat>>)
    decreases |free|
  {
    if free == [] then head == None
    else head == Some(free[0]) && Obj(b, free[0]) in word && Threaded(b, free[1..], word[Obj(b, free[0])], word)
  }

  lemma {:induction false} ThreadKept(
      b: nat, free: seq<nat>, head: Option<nat>, word: map<Obj, Option<nat>>, word': map<Obj, Option<nat>>)
    requires Threaded(b, free, head, word)
    requires forall i :: i in free && Obj(b, i) in word ==> Obj(b, i) in word' && word'[Obj(b, i)] == word[Obj(b, i)]
    ensures Threaded(b, free, head, word')
  {
    if free != [] {
      ThreadKept(b, free[1..], word[Obj(b, free[0])], word, word');
    }
  }

  // The words that Slab::init writes.
  ghost predicate InitWords(b: nat, upto: nat, total: nat, word: map<Obj, Option<nat>>) {
    forall i: nat :: i < upto ==>
      Obj(b, i) in word && word[Obj(b, i)] == if i + 1 < total then Some(i + 1) else None
  }

  lemma {:induction false} InitThreads(b: nat, c: Cache, k: nat, word: map<Obj, Option<nat>>)
    requires InitWords(b, c.total, c.total, word) && k <= c.total
    ensures Threaded(b, AllFree(c)[k..], if k < c.total then Some(k) else None, word)
    decreases c.total - k
  {
    if k < c.total {
      InitThreads(b, c, k + 1, word);
      assert AllFree(c)[k..][1..] == AllFree(c)[k + 1..];
    }
  }

  // Slab `b` has exactly the free list `free`, and its counter agrees.
  ghost predicate Stocked(
      b: nat, free: seq<nat>, freeHead: map<nat, Option<nat>>, freeObjs: map<nat, nat>, word: map<Obj, Option<nat>>)
  {
    && b in freeHead && b in freeObjs && freeObjs[b] == |free| && NoDup(free)
    && Threaded(b, free, freeHead[b], word)
  }

  ghost predicate AllStocked(
      slabs: map<nat, seq<nat>>, freeHead: map<nat, Option<nat>>, freeObjs: map<nat, nat>, word: map<Obj, Option<nat>>)
  {
    forall b {:trigger Stocked(b, slabs[b], freeHead, freeObjs, word)} :: b in slabs ==>
      Stocked(b, slabs[b], freeHead, freeObjs, word)
  }

  // A change to slab `b` alone leaves the free lists of the others.
  lemma OthersStocked(
    slabs: map<nat, seq<nat>>, b: nat, slabs': map<nat, seq<nat>>,
    freeHead: map<nat, Option<nat>>, freeObjs: map<nat, nat>, word: map<Obj, Option<nat>>,
    freeHead': map<nat, Option<nat>>, freeObjs': map<nat, nat>, word': map<Obj, Option<nat>>)
    requires AllStocked(slabs, freeHead, freeObjs, word)
    requires forall x :: x in slabs' && x != b ==> x in slabs && slabs'[x] == slabs[x]
    requires b in slabs' ==> Stocked(b, slabs'[b], freeHead', freeObjs', word')
    requires forall x :: x in freeHead && x != b ==> x in freeHead' && freeHead'[x] == freeHead[x]
    requires forall x :: x in freeObjs && x != b ==> x in freeObjs' && freeObjs'[x] == freeObjs[x]
    requires forall o: Obj :: o in word && o.base != b ==> o in word' && word'[o] == word[o]
    ensures AllStocked(slabs', freeHead', freeObjs', word')
  {
    forall x | x in slabs'
      ensures Stocked(x, slabs'[x], freeHead', freeObjs', word')
    {
      if x != b {
        assert Stocked(x, slabs[x], freeHead, freeObjs, word);
        ThreadKept(x, slabs[x], freeHead[x], word, word');
      }
    }
  }

  class KmemCache {
    const c: Cache
    var partial: nat
    var full: nat
    var spare: nat  // the list the source calls free
    var next: map<nat, nat>
    var prev: map<nat, nat>
    var freeHead: map<nat, Option<nat>>
    var freeObjs: map<nat, nat>
    var word: map<Obj, Option<nat>>

    // -- Slab::init, alloc_obj, free_obj ------------------------------------------------

    ghost predicate HasFree(b: nat, free: seq<nat>)
      reads this
    {
      Stocked(b, free, freeHead, freeObjs, word)
    }

    method InitSlab(b: nat)
      requires WellSized(c)
      modifies `word, `freeHead, `freeObjs, `next, `prev
      ensures HasFree(b, AllFree(c))
      ensures forall o: Obj :: o in old(word) && o.base != b ==> o in word && word[o] == old(word[o])
      ensures freeHead == old(freeHead)[b := Some(0)] && freeObjs == old(freeObjs)[b := c.total]
      ensures next == old(next)[b := NULL] && prev == old(prev)[b := NULL]
    {
      for i := 0 to c.total
        modifies `word
        invariant InitWords(b, i, c.total, word)
        invariant forall o: Obj :: o in old(word) && o.base != b ==> o in word && word[o] == old(word[o])
      {
        word := word[Obj(b, i) := if i + 1 < c.total then Some(i + 1) else None];
      }
      freeHead, freeObjs := freeHead[b := Some(0)], freeObjs[b := c.total];
      next, prev := next[b := NULL], prev[b := NULL];
      InitThreads(b, c, 0, word);
      assert AllFree(c)[0..] == AllFree(c);
    }

    // The head of the slab's free list, or none when the slab has no free object.
    method AllocObj(b: nat, ghost free: seq<nat>) returns (r: Option<nat>)
      requires HasFree(b, free)
      modifies `freeHead, `freeObjs
      ensures free == [] ==> r == None && freeHead == old(freeHead) && freeObjs == old(freeObjs)
      ensures free != [] ==> r == Some(free[0]) && HasFree(b, free[1..])
      ensures forall x :: x in old(freeHead) && x != b ==> x in freeHead && freeHead[x] == old(freeHead[x])
      ensures forall x :: x in old(freeObjs) && x != b ==> x in freeObjs && freeObjs[x] == old(freeObjs[x])
    {
      if freeObjs[b] == 0 {
        return None;
      }
      r := freeHead[b];
      TailOf(free);
      freeHead := freeHead[b := word[Obj(b, r.value)]];
      freeObjs := freeObjs[b := freeObjs[b] - 1];
    }

    method FreeObj(b: nat, i: nat, ghost free: seq<nat>)
      requires HasFree(b, free) && i !in free
      modifies `freeHead, `freeObjs, `word
      ensures HasFree(b, [i] + free)
      ensures word == old(word)[Obj(b, i) := old(freeHead[b])]
      ensures freeHead == old(freeHead)[b := Some(i)] && freeObjs == old(freeObjs)[b := old(freeObjs[b]) + 1]
    {
      word := word[Obj(b, i) := freeHead[b]];
      freeHead := freeHead[b := Some(i)];
      freeObjs := freeObjs[b := freeObjs[b] + 1];
      PushOne(free, i);
      ThreadKept(b, free, old(freeHead[b]), old(word), word);
      assert ([i] + free)[1..] == free;
    }

    // -- List operations ------------------------------------------------------------------

    // push_partial_ptr, push_full_ptr
    method PushFront(head: nat, b: nat, ghost list: seq<nat>) returns (h: nat)
      requires Linked(list, head, next, prev) && b !in list && b != NULL
      modifies `next, `prev
      ensures Linked([b] + list, h, next, prev)
      ensures SameLinks([b] + list, old(next), old(prev), next, prev)
    {
      ghost var grown := [b] + list;
      assert list != [] ==> LinkAt(list, 0, next, prev);
      next, prev := next[b := head], prev[b := NULL];
      if head != NULL {
        prev := prev[head := b];
      }
      h := b;
      PushOne(list, b);
      forall i: nat | i < |grown|
        ensures LinkAt(grown, i, next, prev)
      {
        if i > 0 {
          assert LinkAt(list, i - 1, old(next), old(prev));
          assert grown[i] == list[i - 1];
        }
      }
      assert head in grown || head == NULL;
    }

    // remove_partial_ptr, remove_full_ptr and the splice in remove_from_any_list
    method Splice(head: nat, b: nat, ghost list: seq<nat>) returns (h: nat)
      requires Linked(list, head, next, prev) && b in list
      modifies `next, `prev
      ensures Linked(Without(list, b), h, next, prev)
      ensures SameLinks(list, old(next), old(prev), next, prev)
      ensures b in next && b in prev && next[b] == NULL == prev[b]
    {
      ghost var k :| 0 <= k < |list| && list[k] == b;
      assert LinkAt(list, k, next, prev);
      var before, after := prev[b], next[b];
      h := head;
      if before != NULL {
        next := next[before := after];
      } else {
        h := after;
      }
      if after != NULL {
        prev := prev[after := before];
      }
      next, prev := next[b := NULL], prev[b := NULL];
      Spliced(list, k, head, old(next), old(prev), next, prev);
    }
  
    // find_slab_ptr: walk partial, then full.
    method FindSlab(addr: nat, ghost s: State) returns (r: Option<nat>)
      requires Holds(s)
      ensures r == Find(c, s.partial + s.full, addr)
    {
      r := FindIn(partial, addr, s.partial);
      FindConcat(c, s.partial, s.full, addr);
      if r == None {
        r := FindIn(full, addr, s.full);
      }
    }

    method FindIn(head: nat, addr: nat, ghost list: seq<nat>) returns (r: Option<nat>)
      requires Linked(list, head, next, prev)
      ensures r == Find(c, list, addr)
    {
      var cur := head;
      ghost var i := 0;
      while cur != NULL
        invariant 0 <= i <= |list| && cur == At(list, i)
        invariant Find(c, list, addr) == Find(c, list[i..], addr)
        decreases |list| - i
      {
        assert LinkAt(list, i, next, prev) && list[i..][0] == cur && list[i..][1..] == list[i + 1..];
        if Contains(c, cur, addr) {
          return Some(cur);
        }
        cur := next[cur];
        i := i + 1;
      }
      return None;
    }

    // remove_from_any_list, for one of its two lists: walk it and splice the slab out if met.
    method RemoveIfOn(head: nat, b: nat, ghost list: seq<nat>) returns (h: nat, found: bool)
      requires Linked(list, head, next, prev) && b != NULL
      modifies `next, `prev
      ensures found <==> b in list
      ensures Linked(Without(list, b), h, next, prev)
      ensures SameLinks(list, old(next), old(prev), next, prev)
      ensures !found ==> h == head && next == old(next) && prev == old(prev)
    {
      var cur := head;
      ghost var i := 0;
      while cur != NULL
        invariant 0 <= i <= |list| && cur == At(list, i) && b !in list[..i]
        invariant next == old(next) && prev == old(prev)
        decreases |list| - i
      {
        assert LinkAt(list, i, next, prev);
        if cur == b {
          h := Splice(head, b, list);
          return h, true;
        }
        cur := next[cur];
        i := i + 1;
      }
      return head, false;
    }

    // -- The cache ------------------------------------------------------------------------

    ghost predicate Lists(p: seq<nat>, f: seq<nat>, sp: seq<nat>)
      reads this
    {
      && Linked(p, partial, next, prev) && Linked(f, full, next, prev) && Linked(sp, spare, next, prev)
      && Separate(p, f) && Separate(p, sp) && Separate(f, sp)
    }

    // The memory holds the abstract cache `s`.
    ghost predicate Holds(s: State)
      reads this
    {
      && Lists(s.partial, s.full, s.spare)
      && (forall b :: b in s.partial || b in s.full || b in s.spare ==> b in s.slabs)
      && NULL !in s.slabs
      && AllStocked(s.slabs, freeHead, freeObjs, word)
    }

    method PushFull(b: nat, ghost p: seq<nat>, ghost f: seq<nat>, ghost sp: seq<nat>)
      requires Lists(p, f, sp) && b != NULL && b !in p && b !in f && b !in sp
      modifies `full, `next, `prev
      ensures Lists(p, [b] + f, sp)
    {
      full := PushFront(full, b, f);
      OtherListKept(p, partial, [b] + f, old(next), old(prev), next, prev);
      OtherListKept(sp, spare, [b] + f, old(next), old(prev), next, prev);
    }

    method PushPartial(b: nat, ghost p: seq<nat>, ghost f: seq<nat>, ghost sp: seq<nat>)
      requires Lists(p, f, sp) && b != NULL && b !in p && b !in f && b !in sp
      modifies `partial, `next, `prev
      ensures Lists([b] + p, f, sp)
    {
      partial := PushFront(partial, b, p);
      OtherListKept(f, full, [b] + p, old(next), old(prev), next, prev);
      OtherListKept(sp, spare, [b] + p, old(next), old(prev), next, prev);
    }

    method RemovePartial(b: nat, ghost p: seq<nat>, ghost f: seq<nat>, ghost sp: seq<nat>)
      requires Lists(p, f, sp) && b in p
      modifies `partial, `next, `prev
      ensures Lists(Without(p, b), f, sp)
    {
      partial := Splice(partial, b, p);
      WithoutOne(p, b);
      OtherListKept(f, full, p, old(next), old(prev), next, prev);
      OtherListKept(sp, spare, p, old(next), old(prev), next, prev);
    }

    method RemoveFull(b: nat, ghost p: seq<nat>, ghost f: seq<nat>, ghost sp: seq<nat>)
      requires Lists(p, f, sp) && b in f
      modifies `full, `next, `prev
      ensures Lists(p, Without(f, b), sp)
    {
      full := Splice(full, b, f);
      WithoutOne(f, b);
      OtherListKept(p, partial, f, old(next), old(prev), next, prev);
      OtherListKept(sp, spare, f, old(next), old(prev), next, prev);
    }

    method RemoveFromAny(b: nat, ghost p: seq<nat>, ghost f: seq<nat>, ghost sp: seq<nat>)
      requires Lists(p, f, sp) && b != NULL
      modifies `partial, `full, `next, `prev
      ensures Lists(Without(p, b), if b in p then f else Without(f, b), sp)
    {
      var found;
      WithoutOne(p, b);
      WithoutOne(f, b);
      partial, found := RemoveIfOn(partial, b, p);
      OtherListKept(f, full, p, old(next), old(prev), next, prev);
      OtherListKept(sp, spare, p, old(next), old(prev), next, prev);
      if !found {
        ghost var next', prev' := next, prev;
        full, found := RemoveIfOn(full, b, f);
        OtherListKept(p, partial, f, next', prev', next, prev);
        OtherListKept(sp, spare, f, next', prev', next, prev);
      }
    }

    method PopSpare(ghost p: seq<nat>, ghost f: seq<nat>, ghost sp: seq<nat>) returns (b: nat)
      requires Lists(p, f, sp) && sp != []
      modifies `spare, `next, `prev
      ensures b == sp[0] && Lists(p, f, sp[1..])
    {
      b := spare;
      spare := Splice(spare, b, sp);
      TailOf(sp);
      OtherListKept(p, partial, sp, old(next), old(prev), next, prev);
      OtherListKept(f, full, sp, old(next), old(prev), next, prev);
    }

    // The locked part of alloc; run again by the slow path before it installs its own slab.
    method AllocLocked(ghost s: State) returns (r: Option<Obj>)
      requires Holds(s)
      requires forall b :: b in s.partial || b in s.spare ==> s.slabs[b] != []
      modifies this
      ensures Take(s) == None ==> r == None && Holds(s)
      ensures Take(s) != None ==> r == Some(Take(s).value.1) && Holds(Take(s).value.0)
    {
      if partial != NULL {
        var b := partial;
        var i := AllocFrom(b, s);
        if freeObjs[b] == 0 {
          RemovePartial(b, s.partial, s.full, s.spare);
          PushFull(b, s.partial[1..], s.full, s.spare);
        }
        return Some(Obj(b, i));
      }
      if spare != NULL {
        var b := PopSpare(s.partial, s.full, s.spare);
        var i := AllocFrom(b, s);
        if freeObjs[b] == 0 {
          PushFull(b, s.partial, s.full, s.spare[1..]);
        } else {
          PushPartial(b, s.partial, s.full, s.spare[1..]);
        }
        return Some(Obj(b, i));
      }
      return None;
    }

    method AllocFrom(b: nat, ghost s: State) returns (i: nat)
      requires AllStocked(s.slabs, freeHead, freeObjs, word) && b in s.slabs && s.slabs[b] != []
      modifies `freeHead, `freeObjs
      ensures i == s.slabs[b][0]
      ensures AllStocked(s.slabs[b := s.slabs[b][1..]], freeHead, freeObjs, word)
      ensures b in freeObjs && freeObjs[b] == |s.slabs[b]| - 1
    {
      var slabs' := s.slabs[b := s.slabs[b][1..]];
      var r := AllocObj(b, s.slabs[b]);
      i := r.value;
      OthersStocked(s.slabs, b, slabs', old(freeHead), old(freeObjs), old(word), freeHead, freeObjs, word);
    }
  
    // The slow path of alloc before it takes the lock again: thread a new slab and take its first object.
    method MakeSlab(b: nat, ghost s: State) returns (i: nat)
      requires Holds(s) && WellSized(c) && b != NULL && b !in s.slabs
      modifies this
      ensures i == AllFree(c)[0] && Holds(s.(slabs := s.slabs[b := AllFree(c)[1..]]))
    {
      InitSlab(b);
      OtherListKept(s.partial, partial, [b], old(next), old(prev), next, prev);
      OtherListKept(s.full, full, [b], old(next), old(prev), next, prev);
      OtherListKept(s.spare, spare, [b], old(next), old(prev), next, prev);
      ghost var made := s.(slabs := s.slabs[b := AllFree(c)]);
      OthersStocked(s.slabs, b, made.slabs, old(freeHead), old(freeObjs), old(word), freeHead, freeObjs, word);
      i := AllocFrom(b, made);
      assert made.slabs[b := AllFree(c)[1..]] == s.slabs[b := AllFree(c)[1..]];
    }

    // The slow path of alloc under the lock again: use a slab that has appeared, or list the new one.
    // The flag says that the new slab was not used and its pages go back.
    method InstallLocked(b: nat, i: nat, ghost s: State) returns (r: Obj, redundant: bool)
      requires Inv(c, s) && Holds(s) && WellSized(c) && Enabled(c, s, Install(b)) && s.carried[b] == i
      modifies this
      ensures Holds(Next(c, s, Install(b)))
      ensures Next(c, s, Install(b)).live == s.live + {r}
      ensures redundant <==> b !in Next(c, s, Install(b)).slabs
    {
      assert SlabOk(c, s, b) && Stocked(b, s.slabs[b], freeHead, freeObjs, word);
      forall x | x in s.partial || x in s.spare
        ensures s.slabs[x] != []
      {
        assert SlabOk(c, s, x);
      }
      var isFull := freeObjs[b] == 0;
      var found := AllocLocked(s);
      if found.Some? {
        TakeTouches(s);
        return found.value, true;
      }
      if isFull {
        PushFull(b, s.partial, s.full, s.spare);
      } else {
        PushPartial(b, s.partial, s.full, s.spare);
      }
      return Obj(b, i), false;
    }

    // The locked part of free; the result is a slab whose pages go back.
    method FreeLocked(o: Obj, ghost s: State) returns (reclaim: Option<nat>)
      requires Inv(c, s) && Holds(s) && WellSized(c) && o in s.live
      modifies this
      ensures Holds(Put(c, s, o))
      ensures reclaim == if o.base in Put(c, s, o).slabs then None else Some(o.base)
    {
      var found := FindSlab(Addr(c, o), s);
      LiveIsFound(c, s, o);
      var b := found.value;
      assert SlabOk(c, s, b) && Stocked(b, s.slabs[b], freeHead, freeObjs, word);
      var wasFull := freeObjs[b] == 0;
      FreeObj(b, o.idx, s.slabs[b]);
      OthersStocked(s.slabs, b, s.slabs[b := [o.idx] + s.slabs[b]],
                    old(freeHead), old(freeObjs), old(word), freeHead, freeObjs, word);
      var nowEmpty := freeObjs[b] == c.total;
      WithoutOne(s.partial, b);
      WithoutOne(s.full, b);
      if wasFull && !nowEmpty {
        RemoveFull(b, s.partial, s.full, s.spare);
        PushPartial(b, s.partial, Without(s.full, b), s.spare);
      }
      if nowEmpty {
        RemoveFromAny(b, s.partial, s.full, s.spare);
        return Some(b);
      }
      return None;
    }
  }

  lemma {:induction false} FindConcat(c: Cache, a: seq<nat>, b: seq<nat>, addr: nat)
    ensures Find(c, a + b, addr) == if Find(c, a, addr).Some? then Find(c, a, addr) else Find(c, b, addr)
  {
    if a == [] {
      assert a + b == b;
    } else {
      assert (a + b)[1..] == a[1..] + b;
      FindConcat(c, a[1..], b, addr);
    }
  }

  lemma Spliced(
      list: seq<nat>, k: nat, head: nat, next: map<nat, nat>, prev: map<nat, nat>, next': map<nat, nat>,
      prev': map<nat, nat>)
    requires Linked(list, head, next, prev) && k < |list|
    requires next' == (if k > 0 then next[list[k - 1] := At(list, k + 1)] else next)[list[k] := NULL]
    requires prev' == (if k + 1 < |list| then prev[list[k + 1] := At(list, k - 1)] else prev)[list[k] := NULL]
    ensures Linked(Without(list, list[k]), if k > 0 then head else At(list, 1), next', prev')
  {
    var cut := Without(list, list[k]);
    WithoutSplits(list, k);
    WithoutOne(list, list[k]);
    forall i: nat | i < |cut|
      ensures LinkAt(cut, i, next', prev')
    {
      var j := if i < k then i else i + 1;
      assert LinkAt(list, j, next, prev);
      assert cut[i] == list[j];
    }
  }
}
