/** One slab cache of kernel/src/mm/heap.rs under concurrency: KmemCache alloc, with its slow path
    that fetches pages without the cache lock, and KmemCache free. A step is what one thread does
    while it holds the lock, or one call into the page allocator. Any number of calls may be in
    progress; each is one entry of `wanting`, `carried` or `returning`. An object is named by its
    slab's base address and its index. */
module SlabRuns {
  import opened Basics
  import opened Multiples

  const HEADER: nat := 40  // size_of::<Slab>()

  // Object size, slab size in bytes and objects per slab.
  datatype Cache = Cache(objSize: nat, bytes: nat, total: nat)

  datatype Obj = Obj(base: nat, idx: nat)

  datatype State = State(
    slabs: map<nat, seq<nat>>,  // base of each slab -> its free list of object indices
    partial: seq<nat>, full: seq<nat>, spare: seq<nat>,
    live: set<Obj>,             // handed out and not yet freed
    wanting: nat,               // calls that found no slab and are about to fetch pages
    carried: map<nat, nat>,     // new slabs not yet on a list -> the object their maker took
    returning: set<nat>)        // slabs off the lists whose pages are about to be given back

  datatype Step =
    | Alloc
    | Fetch(base: nat)
    | FetchFails
    | Install(base: nat)
    | Free(obj: Obj)
    | GiveBack(base: nat)

  predicate WellSized(c: Cache) {
    c.objSize >= 8 && c.total >= 1 && HEADER + c.total * c.objSize <= c.bytes
  }

  function Addr(c: Cache, o: Obj): nat {
    o.base + HEADER + o.idx * c.objSize
  }

  // Slab::contains
  predicate Contains(c: Cache, base: nat, addr: nat) {
    base <= addr < base + c.bytes
  }

  predicate Apart(c: Cache, a: nat, b: nat) {
    a + c.bytes <= b || b + c.bytes <= a
  }

  // The free list that Slab::init threads: every object, in order.
  function AllFree(c: Cache): (s: seq<nat>)
    ensures |s| == c.total && forall i :: 0 <= i < c.total ==> s[i] == i
  {
    seq(c.total, i => i)
  }

  // The part of alloc that runs under the lock: take the head of partial, else of free.
  function Take(s: State): Option<(State, Obj)> {
    if s.partial != [] then
      var b := s.partial[0];
      if b !in s.slabs || s.slabs[b] == [] then None else
      var rest := s.slabs[b][1..];
      var taken := s.(slabs := s.slabs[b := rest]);
      Some((if rest == [] then taken.(partial := s.partial[1..], full := [b] + s.full) else taken,
            Obj(b, s.slabs[b][0])))
    else if s.spare != [] then
      var b := s.spare[0];
      if b !in s.slabs || s.slabs[b] == [] then None else
      var rest := s.slabs[b][1..];
      var taken := s.(slabs := s.slabs[b := rest], spare := s.spare[1..]);
      Some((if rest == [] then taken.(full := [b] + s.full) else taken.(partial := [b] + s.partial),
            Obj(b, s.slabs[b][0])))
    else None
  }

  // find_slab_ptr: the first slab of the list that contains the address.
  function Find(c: Cache, bases: seq<nat>, addr: nat): Option<nat> {
    if bases == [] then None
    else if Contains(c, bases[0], addr) then Some(bases[0])
    else Find(c, bases[1..], addr)
  }

  function Without(s: seq<nat>, x: nat): (r: seq<nat>)
    ensures x !in s ==> r == s
  {
    if s == [] then [] else if s[0] == x then s[1..] else [s[0]] + Without(s[1..], x)
  }

  // The part of free that runs under the lock.
  function Put(c: Cache, s: State, o: Obj): State {
    match Find(c, s.partial + s.full, Addr(c, o))
    case None => s
    case Some(b) => if b in s.slabs then PutIn(c, s, b, o) else s
  }

  function PutIn(c: Cache, s: State, b: nat, o: Obj): State
    requires b in s.slabs
  {
    var free := [o.idx] + s.slabs[b];
    var put := s.(slabs := s.slabs[b := free], live := s.live - {o});
    if |free| == c.total then
      put.(slabs := s.slabs - {b}, partial := Without(s.partial, b), full := Without(s.full, b),
           returning := s.returning + {b})
    else if s.slabs[b] == [] then
      put.(full := Without(s.full, b), partial := [b] + s.partial)
    else put
  }

  predicate Enabled(c: Cache, s: State, step: Step) {
    match step
    case Alloc => true
    case Fetch(base) =>
      // The page allocator hands out only pages that nobody owns.
      && s.wanting > 0
      && (forall b :: b in s.slabs ==> Apart(c, base, b))
      && forall b :: b in s.returning ==> Apart(c, base, b)
    case FetchFails => s.wanting > 0
    case Install(base) => base in s.carried && base in s.slabs
    case Free(o) => o in s.live
    case GiveBack(base) => base in s.returning
  }

  function Hand(s: State, o: Obj): State {
    s.(live := s.live + {o})
  }

  function Next(c: Cache, s: State, step: Step): State
    requires Enabled(c, s, step) && c.total >= 1
  {
    match step
    case Alloc =>
      (match Take(s)
       case Some((taken, o)) => Hand(taken, o)
       case None => s.(wanting := s.wanting + 1))
    case Fetch(base) =>
      s.(slabs := s.slabs[base := AllFree(c)[1..]], carried := s.carried[base := AllFree(c)[0]],
         wanting := s.wanting - 1)
    case FetchFails => s.(wanting := s.wanting - 1)
    case Install(b) =>
      var put := s.(carried := s.carried - {b});
      (match Take(s)
       case Some((taken, o)) =>
         Hand(taken.(carried := s.carried - {b}, slabs := taken.slabs - {b}, returning := s.returning + {b}), o)
       case None =>
         Hand(if s.slabs[b] == [] then put.(full := [b] + s.full) else put.(partial := [b] + s.partial),
              Obj(b, s.carried[b])))
    case Free(o) => Put(c, s, o)
    case GiveBack(b) => s.(returning := s.returning - {b})
  }

  // -- Invariant ------------------------------------------------------------------

  predicate NoDup<T(==)>(s: seq<T>) {
    forall i, j :: 0 <= i < j < |s| ==> s[i] != s[j]
  }

  // Object `i` of slab `b` is in a caller's hands, or in those of the thread that made the slab.
  predicate Out(s: State, b: nat, i: nat) {
    Obj(b, i) in s.live || (b in s.carried && s.carried[b] == i)
  }

  // The free list holds each object that is not out, once.
  ghost predicate FreeListOk(c: Cache, s: State, b: nat)
    requires b in s.slabs
  {
    && NoDup(s.slabs[b])
    && (forall i :: i in s.slabs[b] ==> i < c.total)
    && forall i: nat :: i < c.total ==> (i in s.slabs[b] <==> !Out(s, b, i))
  }

  // A full slab has no free object, a partial one some free and some used; a slab is on one list,
  // or on none while its maker carries it.
  ghost predicate PlaceOk(c: Cache, s: State, b: nat)
    requires b in s.slabs
  {
    && (b in s.full <==> b !in s.carried && s.slabs[b] == [])
    && (b in s.partial <==> b !in s.carried && 0 < |s.slabs[b]| < c.total)
    && |s.slabs[b]| < c.total
  }

  predicate ListsOk(s: State) {
    && NoDup(s.partial) && NoDup(s.full) && s.spare == []
    && (forall b :: b in s.partial ==> b in s.slabs)
    && (forall b :: b in s.full ==> b in s.slabs)
  }

  predicate OutOk(c: Cache, s: State) {
    && (forall b :: b in s.carried ==> b in s.slabs && s.carried[b] < c.total)
    && (forall o :: o in s.live ==> o.base in s.slabs && o.base !in s.carried && o.idx < c.total)
  }

  ghost predicate SlabOk(c: Cache, s: State, b: nat)
    requires b in s.slabs
  {
    FreeListOk(c, s, b) && PlaceOk(c, s, b)
  }

  ghost predicate Inv(c: Cache, s: State) {
    && (forall b :: b in s.slabs ==> SlabOk(c, s, b))
    && (forall a, b :: a in s.slabs && b in s.slabs && a != b ==> Apart(c, a, b))
    && (forall a, b :: a in s.slabs && b in s.returning ==> Apart(c, a, b))
    && ListsOk(s)
    && OutOk(c, s)
  }

  // -- One step -------------------------------------------------------------------

  lemma TailOf(f: seq<nat>)
    requires NoDup(f) && f != []
    ensures NoDup(f[1..]) && forall i :: i in f[1..] <==> i in f && i != f[0]
  {
    assert f == [f[0]] + f[1..];
    forall i | i in f && i != f[0]
      ensures i in f[1..]
    {
      var k :| 0 <= k < |f| && f[k] == i;
      assert f[1..][k - 1] == i;
    }
  }

  lemma PushOne(f: seq<nat>, x: nat)
    requires NoDup(f) && x !in f
    ensures NoDup([x] + f) && forall i :: i in [x] + f <==> i in f || i == x
  {
    var g := [x] + f;
    forall i, j | 0 <= i < j < |g|
      ensures g[i] != g[j]
    {
      assert g[j] == f[j - 1];
    }
  }

  lemma {:induction false} WithoutOne(f: seq<nat>, x: nat)
    requires NoDup(f)
    ensures NoDup(Without(f, x)) && forall i :: i in Without(f, x) <==> i in f && i != x
  {
    if f != [] {
      TailOf(f);
      if f[0] != x {
        WithoutOne(f[1..], x);
        PushOne(Without(f[1..], x), f[0]);
      }
    }
  }

  // Slab `x` is untouched from `s` to `t`.
  ghost predicate SameAt(s: State, t: State, x: nat) {
    && x in s.slabs && x in t.slabs && t.slabs[x] == s.slabs[x]
    && (x in t.carried <==> x in s.carried) && (x in s.carried ==> t.carried[x] == s.carried[x])
    && (x in t.full <==> x in s.full) && (x in t.partial <==> x in s.partial)
    && forall i :: Obj(x, i) in t.live <==> Obj(x, i) in s.live
  }

  lemma SameKeeps(c: Cache, s: State, t: State, x: nat)
    requires SameAt(s, t, x) && SlabOk(c, s, x)
    ensures SlabOk(c, t, x)
  {
    assert forall i :: Out(t, x, i) == Out(s, x, i);
  }

  // A step that touches slab `b` alone keeps every other slab's condition.
  lemma OthersKeep(c: Cache, s: State, t: State, b: nat)
    requires Inv(c, s)
    requires forall x :: x in t.slabs && x != b ==> SameAt(s, t, x)
    requires b in t.slabs ==> SlabOk(c, t, b)
    ensures forall x :: x in t.slabs ==> SlabOk(c, t, x)
  {
    forall x | x in t.slabs
      ensures SlabOk(c, t, x)
    {
      if x != b {
        assert SameAt(s, t, x);
        SameKeeps(c, s, t, x);
      }
    }
  }

  lemma TakeLists(c: Cache, s: State)
    requires Inv(c, s) && Take(s).Some?
    ensures ListsOk(Take(s).value.0)
  {
    var b := s.partial[0];
    assert SlabOk(c, s, b);
    TailOf(s.partial);
    if |s.slabs[b]| == 1 {
      PushOne(s.full, b);
    }
  }

  lemma TakeFresh(c: Cache, s: State)
    requires Inv(c, s) && Take(s).Some?
    ensures var (taken, o) := Take(s).value;
      o.base in s.partial && o.idx < c.total && !Out(s, o.base, o.idx)
  {
    var b := s.partial[0];
    assert SlabOk(c, s, b);
    assert s.slabs[b][0] in s.slabs[b];
  }

  lemma TakeTouches(s: State)
    requires ListsOk(s) && Take(s).Some?
    ensures var (taken, o) := Take(s).value;
      && taken.slabs.Keys == s.slabs.Keys && taken.carried == s.carried
      && taken.returning == s.returning && taken.live == s.live
      && forall x :: x in taken.slabs && x != o.base ==> SameAt(s, Hand(taken, o), x)
  {
    TailOf(s.partial);
  }

  lemma TakeOwn(c: Cache, s: State)
    requires Inv(c, s) && Take(s).Some?
    ensures var (taken, o) := Take(s).value;
      o.base in taken.slabs && SlabOk(c, Hand(taken, o), o.base)
  {
    var (taken, o) := Take(s).value;
    var b := o.base;
    assert SlabOk(c, s, b);
    TailOf(s.partial);
    TailOf(s.slabs[b]);
    assert forall i :: Out(Hand(taken, o), b, i) <==> Out(s, b, i) || i == o.idx;
  }

  lemma HandKeeps(c: Cache, s: State, t: State, o: Obj)
    requires Inv(c, s) && ListsOk(t) && t.slabs.Keys == s.slabs.Keys
    requires t.carried == s.carried && t.returning == s.returning && t.live == s.live + {o}
    requires o.base in s.slabs && o.base !in s.carried && o.idx < c.total && SlabOk(c, t, o.base)
    requires forall x :: x in t.slabs && x != o.base ==> SameAt(s, t, x)
    ensures Inv(c, t)
  {
    OthersKeep(c, s, t, o.base);
  }

  // Taking an object: it was not out before.
  lemma TakeKeeps(c: Cache, s: State)
    requires Inv(c, s) && Take(s).Some?
    ensures var (taken, o) := Take(s).value;
      Inv(c, Hand(taken, o)) && o.base in s.partial && o.idx < c.total && !Out(s, o.base, o.idx)
  {
    var (taken, o) := Take(s).value;
    TakeLists(c, s);
    TakeFresh(c, s);
    TakeTouches(s);
    TakeOwn(c, s);
    assert SlabOk(c, s, o.base);
    HandKeeps(c, s, Hand(taken, o), o);
  }

  lemma FetchKeeps(c: Cache, s: State, base: nat)
    requires Inv(c, s) && WellSized(c) && Enabled(c, s, Fetch(base))
    ensures Inv(c, Next(c, s, Fetch(base)))
  {
    var t := Next(c, s, Fetch(base));
    assert Apart(c, base, base) == false;
    assert base !in s.slabs;
    TailOf(AllFree(c));
    assert forall i :: Out(t, base, i) <==> i == 0;
    forall i: nat | i < c.total
      ensures i in t.slabs[base] <==> !Out(t, base, i)
    {
      assert AllFree(c)[i] == i;
    }
    OthersKeep(c, s, t, base);
  }

  // Putting the new slab on a list.
  lemma ListKeeps(c: Cache, s: State, b: nat)
    requires Inv(c, s) && WellSized(c) && Enabled(c, s, Install(b)) && Take(s).None?
    ensures Inv(c, Next(c, s, Install(b)))
  {
    var t := Next(c, s, Install(b));
    assert SlabOk(c, s, b);
    PushOne(s.full, b);
    PushOne(s.partial, b);
    assert forall i :: Out(t, b, i) == Out(s, b, i);
    OthersKeep(c, s, t, b);
  }

  // Dropping the new slab, of which no object is live.
  lemma DropKeeps(c: Cache, s: State, b: nat)
    requires Inv(c, s) && b in s.carried
    ensures Inv(c, s.(carried := s.carried - {b}, slabs := s.slabs - {b}, returning := s.returning + {b}))
  {
    var t := s.(carried := s.carried - {b}, slabs := s.slabs - {b}, returning := s.returning + {b});
    assert SlabOk(c, s, b);
    OthersKeep(c, s, t, b);
  }

  lemma InstallKeeps(c: Cache, s: State, b: nat)
    requires Inv(c, s) && WellSized(c) && Enabled(c, s, Install(b))
    ensures Inv(c, Next(c, s, Install(b)))
  {
    match Take(s) {
      case None => ListKeeps(c, s, b);
      case Some((taken, o)) =>
        TakeKeeps(c, s);
        DropKeeps(c, Hand(taken, o), b);
        assert Next(c, s, Install(b)) ==
          Hand(taken, o).(carried := s.carried - {b}, slabs := taken.slabs - {b}, returning := s.returning + {b});
    }
  }

  // -- Freeing --------------------------------------------------------------------

  // An object lies in its slab after the header.
  lemma Inside(c: Cache, o: Obj)
    requires WellSized(c) && o.idx < c.total
    ensures o.base + HEADER <= Addr(c, o) && Addr(c, o) + c.objSize <= o.base + c.bytes
  {
    NextMultiple(o.idx, c.total, c.objSize);
  }

  lemma {:induction false} FindOnly(c: Cache, bases: seq<nat>, b: nat, addr: nat)
    requires b in bases && Contains(c, b, addr)
    requires forall x :: x in bases && x != b ==> Apart(c, x, b)
    ensures Find(c, bases, addr) == Some(b)
  {
    if bases[0] != b {
      assert Apart(c, bases[0], b);
      FindOnly(c, bases[1..], b, addr);
    }
  }

  // A live object is found in the slab it came from.
  lemma LiveIsFound(c: Cache, s: State, o: Obj)
    requires Inv(c, s) && WellSized(c) && o in s.live
    ensures Find(c, s.partial + s.full, Addr(c, o)) == Some(o.base)
  {
    assert SlabOk(c, s, o.base);
    Inside(c, o);
    FindOnly(c, s.partial + s.full, o.base, Addr(c, o));
  }

  lemma PutLists(c: Cache, s: State, o: Obj)
    requires Inv(c, s) && o in s.live
    ensures ListsOk(PutIn(c, s, o.base, o))
  {
    assert SlabOk(c, s, o.base);
    WithoutOne(s.partial, o.base);
    WithoutOne(s.full, o.base);
    if o.base !in s.partial {
      PushOne(s.partial, o.base);
    }
  }

  lemma PutTouches(c: Cache, s: State, o: Obj)
    requires ListsOk(s) && o.base in s.slabs
    ensures forall x :: x in PutIn(c, s, o.base, o).slabs && x != o.base ==> SameAt(s, PutIn(c, s, o.base, o), x)
  {
    WithoutOne(s.partial, o.base);
    WithoutOne(s.full, o.base);
  }

  lemma PutOwn(c: Cache, s: State, o: Obj)
    requires Inv(c, s) && o in s.live
    ensures var t := PutIn(c, s, o.base, o); o.base in t.slabs ==> SlabOk(c, t, o.base)
  {
    var b, t := o.base, PutIn(c, s, o.base, o);
    assert SlabOk(c, s, b);
    PushOne(s.slabs[b], o.idx);
    WithoutOne(s.full, b);
    assert forall i :: Out(t, b, i) <==> Out(s, b, i) && i != o.idx;
  }

  // The slab given back has no other object in use.
  lemma PutOut(c: Cache, s: State, o: Obj)
    requires Inv(c, s) && o in s.live
    ensures OutOk(c, PutIn(c, s, o.base, o))
  {
    var b, t := o.base, PutIn(c, s, o.base, o);
    assert SlabOk(c, s, b);
    if b !in t.slabs {
      PushOne(s.slabs[b], o.idx);
      AllThere([o.idx] + s.slabs[b], c.total);
      forall p | p in t.live
        ensures p.base != b
      {
        assert p.base == b && p.idx in s.slabs[b] ==> !Out(s, b, p.idx);
      }
    }
  }

  function Members(f: seq<nat>): set<nat> {
    set i | i in f
  }

  function Below(n: nat): (s: set<nat>)
    ensures |s| == n && forall i: nat :: i in s <==> i < n
  {
    if n == 0 then {} else Below(n - 1) + {n - 1}
  }

  lemma {:induction false} MembersSize(f: seq<nat>)
    requires NoDup(f)
    ensures |Members(f)| == |f|
  {
    if f != [] {
      TailOf(f);
      MembersSize(f[1..]);
      assert Members(f) == Members(f[1..]) + {f[0]};
    }
  }

  // A list of `n` distinct indices below `n` has them all.
  lemma AllThere(f: seq<nat>, n: nat)
    requires NoDup(f) && |f| == n && forall i :: i in f ==> i < n
    ensures forall i: nat :: i < n ==> i in f
  {
    MembersSize(f);
    assert Below(n) == Members(f) + (Below(n) - Members(f));
    forall i: nat | i < n
      ensures i in f
    {
      assert i in Below(n);
    }
  }

  lemma FreeKeeps(c: Cache, s: State, o: Obj)
    requires Inv(c, s) && WellSized(c) && o in s.live
    ensures Inv(c, Next(c, s, Free(o)))
  {
    LiveIsFound(c, s, o);
    PutLists(c, s, o);
    PutTouches(c, s, o);
    PutOwn(c, s, o);
    PutOut(c, s, o);
    OthersKeep(c, s, PutIn(c, s, o.base, o), o.base);
  }

  // -- Runs -----------------------------------------------------------------------

  lemma StepKeeps(c: Cache, s: State, step: Step)
    requires Inv(c, s) && WellSized(c) && Enabled(c, s, step)
    ensures Inv(c, Next(c, s, step))
  {
    match step {
      case Alloc => if Take(s).Some? { TakeKeeps(c, s); } else { SameOk(c, s, Next(c, s, step)); }
      case Fetch(base) => FetchKeeps(c, s, base);
      case FetchFails => SameOk(c, s, Next(c, s, step));
      case Install(b) => InstallKeeps(c, s, b);
      case Free(o) => FreeKeeps(c, s, o);
      case GiveBack(b) => SameOk(c, s, Next(c, s, step));
    }
  }

  lemma SameOk(c: Cache, s: State, t: State)
    requires Inv(c, s) && t == s.(wanting := t.wanting, returning := t.returning) && t.returning <= s.returning
    ensures Inv(c, t)
  {
    forall x | x in t.slabs
      ensures SlabOk(c, t, x)
    {
      SameKeeps(c, s, t, x);
    }
  }

  // A run: each state follows from the one before by an enabled step.
  ghost predicate Run(c: Cache, states: seq<State>, steps: seq<Step>) {
    && |states| == |steps| + 1
    && states[0] == State(map[], [], [], [], {}, 0, map[], {})
    && c.total >= 1
    && forall k :: 0 <= k < |steps| ==> Enabled(c, states[k], steps[k]) && states[k + 1] == Next(c, states[k], steps[k])
  }

  lemma {:induction false} RunsKeep(c: Cache, states: seq<State>, steps: seq<Step>, k: nat)
    requires WellSized(c) && Run(c, states, steps) && k < |states|
    ensures Inv(c, states[k])
  {
    if k > 0 {
      RunsKeep(c, states, steps, k - 1);
      StepKeeps(c, states[k - 1], steps[k - 1]);
    }
  }

  /** In every state of every run: each slab is on exactly the list its free count says, a slab on a
      list has an object in use, and the objects of a slab are exactly the free ones and the ones
      out. */
  lemma ListsTellTheCount(c: Cache, states: seq<State>, steps: seq<Step>, k: nat, b: nat)
    requires WellSized(c) && Run(c, states, steps) && k < |states|
    requires b in states[k].slabs && b !in states[k].carried
    ensures var s := states[k];
      && (b in s.full <==> s.slabs[b] == []) && (b in s.partial <==> s.slabs[b] != [])
      && |s.slabs[b]| < c.total
      && forall i: nat :: i < c.total ==> (i in s.slabs[b] <==> Obj(b, i) !in s.live)
  {
    RunsKeep(c, states, steps, k);
    assert SlabOk(c, states[k], b);
    assert forall i :: Out(states[k], b, i) <==> Obj(b, i) in states[k].live;
  }

  predicate Disjoint(c: Cache, o: Obj, p: Obj) {
    Addr(c, o) + c.objSize <= Addr(c, p) || Addr(c, p) + c.objSize <= Addr(c, o)
  }

  lemma ObjectsApart(c: Cache, o: Obj, p: Obj)
    requires WellSized(c) && o != p && o.idx < c.total && p.idx < c.total
    requires o.base == p.base || Apart(c, o.base, p.base)
    ensures Disjoint(c, o, p)
  {
    if o.base != p.base {
      Inside(c, o);
      Inside(c, p);
    } else if o.idx < p.idx {
      NextMultiple(o.idx, p.idx, c.objSize);
    } else {
      NextMultiple(p.idx, o.idx, c.objSize);
    }
  }

  /** In every run, two live objects never share a byte, and each lies in a slab the cache owns,
      past the slab's header, away from all pages on their way back to the page allocator. */
  lemma LiveObjectsAreDisjoint(c: Cache, states: seq<State>, steps: seq<Step>, k: nat, o: Obj, p: Obj)
    requires WellSized(c) && Run(c, states, steps) && k < |states|
    requires o in states[k].live && p in states[k].live && o != p
    ensures Disjoint(c, o, p)
    ensures o.base in states[k].slabs
    ensures o.base + HEADER <= Addr(c, o) && Addr(c, o) + c.objSize <= o.base + c.bytes
    ensures forall b :: b in states[k].returning ==> Apart(c, o.base, b)
  {
    RunsKeep(c, states, steps, k);
    Inside(c, o);
    ObjectsApart(c, o, p);
  }

  /** In every run, a step that hands out an object hands out one that was not live, and takes
      nothing away from another caller; a step that frees one takes exactly it. */
  lemma HandedOutFresh(c: Cache, states: seq<State>, steps: seq<Step>, k: nat)
    requires WellSized(c) && Run(c, states, steps) && k < |steps|
    ensures var s, t := states[k], states[k + 1];
      match steps[k]
      case Alloc =>
        if s.partial == [] then t.live == s.live && t.wanting == s.wanting + 1
        else exists o :: o !in s.live && t.live == s.live + {o}
      case Install(b) => exists o :: o !in s.live && t.live == s.live + {o}
      case Free(o) => t.live == s.live - {o}
      case _ => t.live == s.live
  {
    var s := states[k];
    RunsKeep(c, states, steps, k);
    if Take(s).Some? {
      TakeFresh(c, s);
      assert Take(s).value.1 !in s.live;
    }
    match steps[k] {
      case Alloc => NoneMeansNoPartial(c, s);
      case Install(b) => assert Obj(b, s.carried[b]) !in s.live;
      case Free(o) => LiveIsFound(c, s, o);
      case _ =>
    }
  }

  lemma NoneMeansNoPartial(c: Cache, s: State)
    requires Inv(c, s)
    ensures Take(s).None? <==> s.partial == []
  {
    if s.partial != [] {
      assert SlabOk(c, s, s.partial[0]);
    }
  }
}
