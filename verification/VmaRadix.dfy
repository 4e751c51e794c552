/** The VMA radix tree of kernel/src/mm/vma.rs: insert, lookup and remove over 1024-entry nodes.
    A node is named by its level and the key bits above its range; a ghost directory says which
    node has which name. Pointers are numbers, 0 is null. */
module VmaRadix {
  import opened Basics

  const FANOUT: nat := 1024
  const TOP: nat := 3        // level of the root: four levels of ten bits
  const PAGE_SIZE: nat := 4096

  type Nodes = map<nat, seq<nat>>

  // What names a node: its level and the key bits above its range.
  datatype Name = Name(level: nat, prefix: nat)

  // The directory: the node of each name and the name of each node.
  datatype Dir = Dir(node: map<Name, nat>, name: map<nat, Name>)

  // `supply` is what alloc_order(1) will return next; `freed` is what free_order was given.
  datatype Tree = Tree(nodes: Nodes, root: nat, supply: seq<nat>, freed: seq<nat>)

  // radix_index, on a page number.
  function Digit(pn: nat, level: nat): nat {
    if level == 0 then pn % FANOUT else Digit(pn / FANOUT, level - 1)
  }

  // The page number modulo FANOUT^n.
  function Trunc(pn: nat, n: nat): nat {
    if n == 0 then 0 else Trunc(pn / FANOUT, n - 1) * FANOUT + pn % FANOUT
  }

  // Address bits 12..51: what the tree is keyed by.
  function Key(addr: nat): nat {
    Trunc(addr / PAGE_SIZE, TOP + 1)
  }

  // Key bits above the range of a node of the given level.
  function Prefix(key: nat, level: nat): nat {
    if level == 0 then key / FANOUT
    else if level == 1 then key / FANOUT / FANOUT
    else if level == 2 then key / FANOUT / FANOUT / FANOUT
    else key / FANOUT / FANOUT / FANOUT / FANOUT
  }

  lemma {:induction false} TruncDigit(pn: nat, n: nat, level: nat)
    requires level < n
    ensures Digit(Trunc(pn, n), level) == Digit(pn, level)
  {
    var rest := Trunc(pn / FANOUT, n - 1);
    assert Trunc(pn, n) / FANOUT == rest && Trunc(pn, n) % FANOUT == pn % FANOUT;
    if level > 0 {
      TruncDigit(pn / FANOUT, n - 1, level - 1);
    }
  }

  lemma TruncPrefix(pn: nat)
    ensures Prefix(Trunc(pn, TOP + 1), TOP) == 0
  {
    TruncShift(pn, TOP);
    TruncShift(pn / FANOUT, TOP - 1);
    TruncShift(pn / FANOUT / FANOUT, TOP - 2);
    TruncShift(pn / FANOUT / FANOUT / FANOUT, 0);
  }

  lemma TruncShift(pn: nat, n: nat)
    ensures Trunc(pn, n + 1) / FANOUT == Trunc(pn / FANOUT, n)
  {
  }

  // A key's index at a level is the last digit of its prefix one level down.
  lemma DigitOfPrefix(key: nat, level: nat)
    requires 0 < level <= TOP
    ensures Digit(key, level) == Prefix(key, level - 1) % FANOUT
    ensures Prefix(key, level - 1) == Prefix(key, level) * FANOUT + Digit(key, level)
    ensures Digit(key, level) < FANOUT && Prefix(key, level) == Prefix(key, level - 1) / FANOUT
  {
    assert Digit(key, 1) == Digit(key / FANOUT, 0);
    assert Digit(key, 2) == Digit(key / FANOUT, 1) == Digit(key / FANOUT / FANOUT, 0);
    assert Digit(key, 3) == Digit(key / FANOUT, 2) == Digit(key / FANOUT / FANOUT, 1)
        == Digit(key / FANOUT / FANOUT / FANOUT, 0);
  }

  function Zeroed(): (n: seq<nat>)
    ensures |n| == FANOUT && forall i :: 0 <= i < FANOUT ==> n[i] == 0
  {
    seq(FANOUT, _ => 0)
  }

  predicate AllZero(n: seq<nat>) {
    forall i :: 0 <= i < |n| ==> n[i] == 0
  }

  ghost function NodeAt(d: Dir, level: nat, prefix: nat): nat {
    if Name(level, prefix) in d.node then d.node[Name(level, prefix)] else 0
  }

  function ParentName(x: Name): Name { Name(x.level + 1, x.prefix / FANOUT) }

  // The node named `x`: a 1024-entry node that knows its name and has a parent unless it is the root.
  ghost predicate NodeOk(t: Tree, d: Dir, x: Name) {
    x in d.node &&
    var n := d.node[x];
    && n != 0 && n in t.nodes && |t.nodes[n]| == FANOUT && n in d.name && d.name[n] == x
    && x.level <= TOP && (if x.level == TOP then x.prefix == 0 else ParentName(x) in d.node)
  }

  // Child `i` of the node named `x`, above the last level, is the node of the right name or null.
  ghost predicate LinkOk(t: Tree, d: Dir, x: Name, i: nat) {
    && x in d.node && d.node[x] in t.nodes && i < |t.nodes[d.node[x]]| && x.level > 0
    && t.nodes[d.node[x]][i] == NodeAt(d, x.level - 1, x.prefix * FANOUT + i)
  }

  ghost predicate Shape(t: Tree, d: Dir) {
    && t.root == NodeAt(d, TOP, 0)
    && (forall x {:trigger NodeOk(t, d, x)} :: x in d.node ==> NodeOk(t, d, x))
    && (forall x, i {:trigger LinkOk(t, d, x, i)} ::
          x in d.node && x.level > 0 && 0 <= i < FANOUT ==> LinkOk(t, d, x, i))
    && (forall n :: n in t.nodes ==> n in d.name && d.name[n] in d.node && d.node[d.name[n]] == n)
  }

  // The entries of the node named `x`, if there is one.
  ghost function Entries(t: Tree, d: Dir, x: Name): seq<nat> {
    if x in d.node && d.node[x] in t.nodes then t.nodes[d.node[x]] else []
  }

  ghost predicate Holds(t: Tree, d: Dir, x: Name) {
    !AllZero(Entries(t, d, x))
  }

  // No node is empty.
  ghost predicate NoneEmpty(t: Tree, d: Dir) {
    forall x {:trigger Holds(t, d, x)} :: x in d.node ==> Holds(t, d, x)
  }

  // The VMA stored under `key`, or null.
  ghost function Stored(t: Tree, d: Dir, key: nat): nat {
    var n := NodeAt(d, 0, key / FANOUT);
    if n != 0 && n in t.nodes && |t.nodes[n]| == FANOUT then t.nodes[n][key % FANOUT] else 0
  }

  ghost predicate SameContents(t: Tree, d: Dir, t2: Tree, d2: Dir) {
    forall key: nat :: Stored(t2, d2, key) == Stored(t, d, key)
  }

  ghost predicate Fresh(t: Tree) {
    && (forall i :: 0 <= i < |t.supply| ==> t.supply[i] !in t.nodes && t.supply[i] != 0)
    && forall i, j :: 0 <= i < j < |t.supply| ==> t.supply[i] != t.supply[j]
  }

  // p * FANOUT + i is the only name under p with last digit i.
  lemma Child(p: nat, i: nat)
    requires i < FANOUT
    ensures (p * FANOUT + i) / FANOUT == p && (p * FANOUT + i) % FANOUT == i
  {
  }

  // -- Growing, storing, shrinking --------------------------------------------------

  function SetEntry(nodes: Nodes, n: nat, i: nat, v: nat): Nodes {
    if n in nodes && i < |nodes[n]| then var entries: seq<nat> := nodes[n][i := v]; nodes[n := entries] else nodes
  }

  // Links a zeroed page as child `i` of `parent`, or as the root if there is no parent.
  function Grow(t: Tree, parent: nat, i: nat, page: nat): Tree {
    if parent != 0
    then t.(nodes := SetEntry(t.nodes[page := Zeroed()], parent, i, page))
    else t.(nodes := t.nodes[page := Zeroed()], root := page)
  }

  ghost function Enter(d: Dir, x: Name, page: nat): Dir {
    Dir(d.node[x := page], d.name[page := x])
  }

  ghost function ParentOf(d: Dir, x: Name): nat {
    NodeAt(d, x.level + 1, x.prefix / FANOUT)
  }

  // The name is free and its parent, if it has one, is there.
  ghost predicate CanGrow(t: Tree, d: Dir, x: Name, page: nat) {
    && x.level <= TOP && x !in d.node && page != 0 && page !in t.nodes
    && if x.level < TOP then NodeOk(t, d, ParentName(x)) else x.prefix == 0 && ParentOf(d, x) == 0
  }

  lemma GrowKeeps(t: Tree, d: Dir, x: Name, page: nat)
    requires Shape(t, d) && CanGrow(t, d, x, page)
    ensures var t2 := Grow(t, ParentOf(d, x), x.prefix % FANOUT, page);
            var d2 := Enter(d, x, page);
            && Shape(t2, d2) && SameContents(t, d, t2, d2) && t2.nodes[page] == Zeroed()
            && t2.nodes.Keys == t.nodes.Keys + {page}
  {
    var t2 := Grow(t, ParentOf(d, x), x.prefix % FANOUT, page);
    var d2 := Enter(d, x, page);
    forall y | y in d2.node
      ensures NodeOk(t2, d2, y)
    {
      if y != x {
        assert NodeOk(t, d, y);
      }
    }
    forall y, i: nat | y in d2.node && y.level > 0 && i < FANOUT
      ensures LinkOk(t2, d2, y, i)
    {
      GrowLink(t, d, x, page, y, i);
    }
    forall key: nat
      ensures Stored(t2, d2, key) == Stored(t, d, key)
    {
      var y := Name(0, key / FANOUT);
      if y in d.node {
        assert NodeOk(t, d, y);
      }
    }
  }

  lemma GrowLink(t: Tree, d: Dir, x: Name, page: nat, y: Name, i: nat)
    requires Shape(t, d) && CanGrow(t, d, x, page) && y in Enter(d, x, page).node && y.level > 0 && i < FANOUT
    ensures LinkOk(Grow(t, ParentOf(d, x), x.prefix % FANOUT, page), Enter(d, x, page), y, i)
  {
    Child(y.prefix, i);
    if y == x {
      var below := Name(x.level - 1, x.prefix * FANOUT + i);
      assert below in d.node ==> NodeOk(t, d, below);
    } else {
      assert NodeOk(t, d, y) && LinkOk(t, d, y, i);
    }
  }

  function Store(t: Tree, leaf: nat, i: nat, v: nat): Tree {
    t.(nodes := SetEntry(t.nodes, leaf, i, v))
  }

  lemma StoreKeeps(t: Tree, d: Dir, key: nat, v: nat)
    requires Shape(t, d) && NodeOk(t, d, Name(0, key / FANOUT))
    ensures var t2 := Store(t, d.node[Name(0, key / FANOUT)], key % FANOUT, v);
            && Shape(t2, d) && t2.nodes.Keys == t.nodes.Keys
            && (forall k: nat :: Stored(t2, d, k) == if k == key then v else Stored(t, d, k))
            && (forall y :: y != Name(0, key / FANOUT) ==> Entries(t2, d, y) == Entries(t, d, y))
  {
    var x := Name(0, key / FANOUT);
    var t2 := Store(t, d.node[x], key % FANOUT, v);
    forall y | y in d.node
      ensures NodeOk(t2, d, y) && (y != x ==> Entries(t2, d, y) == Entries(t, d, y))
    {
      assert NodeOk(t, d, y);
    }
    forall y, i: nat | y in d.node && y.level > 0 && i < FANOUT
      ensures LinkOk(t2, d, y, i)
    {
      assert NodeOk(t, d, y) && LinkOk(t, d, y, i);
    }
    forall k: nat
      ensures Stored(t2, d, k) == if k == key then v else Stored(t, d, k)
    {
      if Name(0, k / FANOUT) in d.node {
        assert NodeOk(t, d, Name(0, k / FANOUT));
      }
    }
  }

  // Frees node `n` and clears child `i` of `parent`, or the root if there is no parent.
  function Shrink(t: Tree, n: nat, parent: nat, i: nat): Tree {
    if parent != 0
    then t.(nodes := SetEntry(t.nodes - {n}, parent, i, 0), freed := t.freed + [n])
    else t.(nodes := t.nodes - {n}, root := 0, freed := t.freed + [n])
  }

  ghost function Leave(d: Dir, x: Name): Dir {
    d.(node := d.node - {x})
  }

  ghost predicate CanShrink(t: Tree, d: Dir, x: Name) {
    && NodeOk(t, d, x) && AllZero(t.nodes[d.node[x]])
    && if x.level < TOP then NodeOk(t, d, ParentName(x)) else ParentOf(d, x) == 0
  }

  lemma ShrinkNodes(t: Tree, d: Dir, x: Name, y: Name)
    requires Shape(t, d) && CanShrink(t, d, x) && NodeOk(t, d, y) && y != x
    ensures var t2 := Shrink(t, d.node[x], ParentOf(d, x), x.prefix % FANOUT);
            && NodeOk(t2, Leave(d, x), y)
            && t2.nodes[d.node[y]] ==
               if y == ParentName(x) then t.nodes[d.node[y]][x.prefix % FANOUT := 0] else t.nodes[d.node[y]]
  {
    if x.level > 0 {
      assert LinkOk(t, d, x, y.prefix % FANOUT);
    }
  }

  lemma ShrinkKeeps(t: Tree, d: Dir, x: Name)
    requires Shape(t, d) && CanShrink(t, d, x)
    ensures var t2 := Shrink(t, d.node[x], ParentOf(d, x), x.prefix % FANOUT);
            && Shape(t2, Leave(d, x)) && SameContents(t, d, t2, Leave(d, x))
            && t2.nodes.Keys == t.nodes.Keys - {d.node[x]}
  {
    var t2 := Shrink(t, d.node[x], ParentOf(d, x), x.prefix % FANOUT);
    var d2 := Leave(d, x);
    forall y | y in d2.node
      ensures NodeOk(t2, d2, y)
    {
      assert NodeOk(t, d, y);
      ShrinkNodes(t, d, x, y);
    }
    forall y, i: nat | y in d2.node && y.level > 0 && i < FANOUT
      ensures LinkOk(t2, d2, y, i)
    {
      Child(y.prefix, i);
      assert NodeOk(t, d, y) && LinkOk(t, d, y, i);
      ShrinkNodes(t, d, x, y);
    }
    forall key: nat
      ensures Stored(t2, d2, key) == Stored(t, d, key)
    {
      var y := Name(0, key / FANOUT);
      if y in d.node && y != x {
        assert NodeOk(t, d, y);
        ShrinkNodes(t, d, x, y);
      }
    }
  }

  // Two trees with the same directory of nodes and the same contents are the same tree.
  lemma Canonical(t: Tree, d: Dir, t2: Tree, d2: Dir)
    requires Shape(t, d) && Shape(t2, d2) && d.node == d2.node && SameContents(t, d, t2, d2)
    ensures t.nodes == t2.nodes && t.root == t2.root
  {
    forall x | x in d.node
      ensures d.node[x] in t.nodes && d.node[x] in t2.nodes && t.nodes[d.node[x]] == t2.nodes[d.node[x]]
    {
      assert NodeOk(t, d, x) && NodeOk(t2, d2, x);
      var n := d.node[x];
      forall i: nat | i < FANOUT
        ensures t.nodes[n][i] == t2.nodes[n][i]
      {
        Child(x.prefix, i);
        if x.level == 0 {
          assert Stored(t, d, x.prefix * FANOUT + i) == Stored(t2, d2, x.prefix * FANOUT + i);
        } else {
          assert LinkOk(t, d, x, i) && LinkOk(t2, d2, x, i);
        }
      }
    }
  }

  // -- What insert and remove do ------------------------------------------------------

  predicate OnPath(key: nat, x: Name) {
    x.prefix == Prefix(key, x.level)
  }

  function PathName(key: nat, level: nat): Name { Name(level, Prefix(key, level)) }

  // `key` now holds `v`; the `c` lowest nodes of its path are new, made from the top down.
  ghost predicate Inserted(t: Tree, d: Dir, t2: Tree, d2: Dir, key: nat, v: nat, c: nat) {
    && Shape(t, d) && Shape(t2, d2)
    && c <= |t.supply| && t2.supply == t.supply[c..] && t2.freed == t.freed
    && (forall x :: x in d2.node <==> x in d.node || (x.level < c && OnPath(key, x)))
    && (forall x :: x in d.node ==> d2.node[x] == d.node[x])
    && (forall l: nat :: l < c ==> PathName(key, l) !in d.node && d2.node[PathName(key, l)] == t.supply[c - 1 - l])
    && (forall k: nat :: Stored(t2, d2, k) == if k == key then v else Stored(t, d, k))
  }

  // `key` now holds nothing; the `c` lowest nodes of its path are gone, freed from the bottom up.
  ghost predicate Removed(t: Tree, d: Dir, t2: Tree, d2: Dir, key: nat, c: nat) {
    && Shape(t, d) && Shape(t2, d2)
    && t2.supply == t.supply && |t2.freed| == |t.freed| + c && t.freed <= t2.freed
    && (forall x :: x in d2.node <==> x in d.node && !(x.level < c && OnPath(key, x)))
    && (forall x :: x in d2.node ==> d2.node[x] == d.node[x])
    && (forall l: nat :: l < c ==> PathName(key, l) in d.node && t2.freed[|t.freed| + l] == d.node[PathName(key, l)])
    && (forall k: nat :: Stored(t2, d2, k) == if k == key then 0 else Stored(t, d, k))
  }

  // A node that is not empty leads to some name below other than the one for `key`, unless
  // that one is there.
  lemma LeadsElsewhere(t: Tree, d: Dir, key: nat, l: nat) returns (below: nat)
    requires Shape(t, d) && l <= TOP && PathName(key, l) in d.node && Holds(t, d, PathName(key, l))
    requires if l == 0 then Stored(t, d, key) == 0 else PathName(key, l - 1) !in d.node
    ensures below / FANOUT == Prefix(key, l)
    ensures if l == 0 then below != key && Stored(t, d, below) != 0
            else below != Prefix(key, l - 1) && Name(l - 1, below) in d.node
  {
    var x := PathName(key, l);
    assert NodeOk(t, d, x);
    var i: nat :| i < FANOUT && t.nodes[d.node[x]][i] != 0;
    Child(x.prefix, i);
    below := x.prefix * FANOUT + i;
    if l > 0 {
      assert LinkOk(t, d, x, i);
    }
  }

  // If every name of `d2` off the key's path is in `d`, contents agree off the key, and the
  // lowest name of `d2` on the path is not empty, then that name is in `d`.
  lemma LowestStays(t: Tree, d: Dir, t2: Tree, d2: Dir, key: nat, l: nat)
    requires Shape(t, d) && Shape(t2, d2) && l <= TOP && PathName(key, l) in d2.node && Holds(t2, d2, PathName(key, l))
    requires if l == 0 then Stored(t2, d2, key) == 0 else PathName(key, l - 1) !in d2.node
    requires forall x :: x in d2.node && !OnPath(key, x) ==> x in d.node
    requires forall k: nat :: k != key ==> Stored(t2, d2, k) == Stored(t, d, k)
    ensures PathName(key, l) in d.node
  {
    var below := LeadsElsewhere(t2, d2, key, l);
    if l > 0 {
      assert Name(l - 1, below) in d.node;
      assert NodeOk(t, d, Name(l - 1, below));
    }
  }

  // Removing a key that was just inserted drops every node the insertion made ...
  lemma DropsAtLeast(t: Tree, d: Dir, t1: Tree, d1: Dir, t2: Tree, d2: Dir, key: nat, v: nat, c: nat, e: nat)
    requires NoneEmpty(t2, d2) && c <= TOP + 1
    requires Inserted(t, d, t1, d1, key, v, c) && Removed(t1, d1, t2, d2, key, e)
    ensures e >= c
  {
    if e < c {
      assert PathName(key, e) in d2.node && Holds(t2, d2, PathName(key, e));
      LowestStays(t, d, t2, d2, key, e);
      assert false;
    }
  }

  // ... and no other.
  lemma DropsAtMost(t: Tree, d: Dir, t1: Tree, d1: Dir, t2: Tree, d2: Dir, key: nat, v: nat, c: nat, e: nat)
    requires NoneEmpty(t, d) && Stored(t, d, key) == 0 && e <= TOP + 1
    requires Inserted(t, d, t1, d1, key, v, c) && Removed(t1, d1, t2, d2, key, e)
    ensures e <= c
  {
    if c < e {
      assert PathName(key, c) in d.node && Holds(t, d, PathName(key, c));
      LowestStays(t2, d2, t, d, key, c);
      assert false;
    }
  }

  // remove after inserting a fresh key restores the exact tree and frees exactly the nodes that
  // insert made, last first.
  lemma InsertThenRemove(t: Tree, d: Dir, t1: Tree, d1: Dir, t2: Tree, d2: Dir, key: nat, v: nat, c: nat, e: nat)
    requires NoneEmpty(t, d) && NoneEmpty(t2, d2) && Stored(t, d, key) == 0 && c <= TOP + 1 && e <= TOP + 1
    requires Inserted(t, d, t1, d1, key, v, c) && Removed(t1, d1, t2, d2, key, e)
    ensures t2.nodes == t.nodes && t2.root == t.root
    ensures t2.freed == t.freed + LastFirst(t.supply[..c]) && t2.supply == t.supply[c..]
  {
    DropsAtLeast(t, d, t1, d1, t2, d2, key, v, c, e);
    DropsAtMost(t, d, t1, d1, t2, d2, key, v, c, e);
    forall x | x in d.node
      ensures x in d2.node
    {
      assert OnPath(key, x) ==> x == PathName(key, x.level);
    }
    assert d2.node == d.node;
    Canonical(t, d, t2, d2);
    FreedInReverse(t, d, t1, d1, t2, d2, key, v, c);
  }

  lemma FreedInReverse(t: Tree, d: Dir, t1: Tree, d1: Dir, t2: Tree, d2: Dir, key: nat, v: nat, c: nat)
    requires Inserted(t, d, t1, d1, key, v, c) && Removed(t1, d1, t2, d2, key, c)
    ensures t2.freed == t.freed + LastFirst(t.supply[..c])
  {
    var made := t.supply[..c];
    forall i: nat | i < c
      ensures t2.freed[|t.freed| + i] == LastFirst(made)[i]
    {
      assert d1.node[PathName(key, i)] == t.supply[c - 1 - i];
    }
  }

  // -- The tree as it runs ----------------------------------------------------------------

  // A key whose path breaks off at some level holds nothing.
  lemma {:induction false} Unreachable(t: Tree, d: Dir, key: nat, level: nat)
    requires Shape(t, d) && level <= TOP && PathName(key, level) !in d.node
    ensures Stored(t, d, key) == 0
  {
    if level > 0 {
      DigitOfPrefix(key, level);
      assert PathName(key, level - 1) in d.node ==> NodeOk(t, d, PathName(key, level - 1));
      Unreachable(t, d, key, level - 1);
    }
  }

  lemma {:induction false} Climb(t: Tree, d: Dir, x: Name)
    requires Shape(t, d) && x in d.node
    ensures t.root != 0
    decreases TOP - x.level
  {
    assert NodeOk(t, d, x);
    if x.level < TOP {
      Climb(t, d, ParentName(x));
    }
  }

  lemma {:induction false} BreaksOff(t: Tree, d: Dir, key: nat, level: nat, low: nat)
    requires Shape(t, d) && low <= level <= TOP && PathName(key, level) !in d.node
    ensures PathName(key, low) !in d.node
    decreases level
  {
    if low < level {
      DigitOfPrefix(key, level);
      assert PathName(key, level - 1) in d.node ==> NodeOk(t, d, PathName(key, level - 1));
      BreaksOff(t, d, key, level - 1, low);
    }
  }

  // The supply has a page for every missing node of the path.
  ghost predicate Enough(t: Tree, d: Dir, key: nat) {
    |t.supply| > TOP || PathName(key, |t.supply|) in d.node
  }

  // The path of `key` is named down to `level`; its last `c` names are new and hold the first `c`
  // pages of the supply, first page highest.
  ghost predicate PathNamed(d: Dir, supply: seq<nat>, d2: Dir, key: nat, level: nat, c: nat) {
    && level + c <= TOP + 1 && c <= |supply| && PathName(key, level) in d2.node
    && (forall x :: x in d2.node <==> x in d.node || (level <= x.level < level + c && OnPath(key, x)))
    && (forall x :: x in d.node ==> d2.node[x] == d.node[x])
    && (forall l: nat :: level <= l < level + c ==>
          PathName(key, l) !in d.node && d2.node[PathName(key, l)] == supply[level + c - 1 - l])
  }

  lemma PathNamedStep(d: Dir, supply: seq<nat>, d1: Dir, key: nat, level: nat, c: nat)
    requires 0 < level && PathNamed(d, supply, d1, key, level, c) && c < |supply|
    requires PathName(key, level - 1) !in d1.node
    ensures PathNamed(d, supply, Enter(d1, PathName(key, level - 1), supply[c]), key, level - 1, c + 1)
  {
    var d2 := Enter(d1, PathName(key, level - 1), supply[c]);
    forall x
      ensures x in d2.node <==> x in d.node || (level - 1 <= x.level < level + c && OnPath(key, x))
    {
      assert OnPath(key, x) ==> x == PathName(key, x.level);
    }
  }

  // Part of the way down an insertion: all nodes but the last new one are not empty, and
  // contents are as at the start.
  ghost predicate Descending(t: Tree, d: Dir, t2: Tree, d2: Dir, key: nat, level: nat, c: nat) {
    && Shape(t2, d2) && Fresh(t2) && SameContents(t, d, t2, d2)
    && PathNamed(d, t.supply, d2, key, level, c) && t2.supply == t.supply[c..] && t2.freed == t.freed
    && (forall x {:trigger Holds(t2, d2, x)} ::
          x in d2.node && (c == 0 || x != PathName(key, level)) ==> Holds(t2, d2, x))
  }

  lemma SupplyFits(t: Tree, d: Dir, t2: Tree, d2: Dir, key: nat, c: nat)
    requires Descending(t, d, t2, d2, key, 0, c)
    ensures Enough(t, d, key)
  {
    if |t.supply| <= TOP && PathName(key, |t.supply|) !in d2.node {
      BreaksOff(t2, d2, key, |t.supply|, 0);
    }
  }

  lemma SupplyShort(t: Tree, d: Dir, t1: Tree, d1: Dir, key: nat, level: nat, c: nat)
    requires Shape(t, d) && 0 < level <= TOP && Descending(t, d, t1, d1, key, level, c)
    requires t1.supply == [] && PathName(key, level - 1) !in d1.node
    ensures !Enough(t, d, key)
  {
    assert c == |t.supply|;
    if c < level {
      BreaksOff(t, d, key, level - 1, c);
    }
  }

  lemma StillDescending(t: Tree, d: Dir, t1: Tree, d1: Dir, t2: Tree, key: nat, level: nat, c: nat)
    requires 0 < level <= TOP && Descending(t, d, t1, d1, key, level, c) && t1.supply != []
    requires PathName(key, level - 1) !in d1.node
    requires t2 == Grow(t1, d1.node[PathName(key, level)], Prefix(key, level - 1) % FANOUT, t1.supply[0])
                     .(supply := t1.supply[1..])
    ensures Descending(t, d, t2, Enter(d1, PathName(key, level - 1), t1.supply[0]), key, level - 1, c + 1)
  {
    var x, page := PathName(key, level - 1), t1.supply[0];
    var d2 := Enter(d1, x, page);
    DigitOfPrefix(key, level);
    assert ParentName(x) == PathName(key, level);
    assert NodeOk(t1, d1, ParentName(x));
    assert CanGrow(t1, d1, x, page);
    PathNamedStep(d, t.supply, d1, key, level, c);
    GrowKeeps(t1, d1, x, page);
    SameShape(Grow(t1, ParentOf(d1, x), x.prefix % FANOUT, page), t2, d2);
    GrowHolds(t1, d1, x, page, t2);
  }

  lemma GrowHolds(t1: Tree, d1: Dir, x: Name, page: nat, t2: Tree)
    requires Shape(t1, d1) && CanGrow(t1, d1, x, page)
    requires t2.nodes == Grow(t1, ParentOf(d1, x), x.prefix % FANOUT, page).nodes
    ensures forall y {:trigger Holds(t2, Enter(d1, x, page), y)} ::
              y in d1.node && (y == ParentName(x) || Holds(t1, d1, y)) ==> Holds(t2, Enter(d1, x, page), y)
  {
    var d2 := Enter(d1, x, page);
    forall y | y in d1.node && (y == ParentName(x) || Holds(t1, d1, y))
      ensures Holds(t2, d2, y)
    {
      assert NodeOk(t1, d1, y);
      if y == ParentName(x) {
        assert Entries(t2, d2, y)[x.prefix % FANOUT] != 0;
      } else {
        assert Entries(t2, d2, y) == Entries(t1, d1, y);
      }
    }
  }

  // Shape and contents look at the nodes and the root only.
  lemma SameShape(t: Tree, t2: Tree, d: Dir)
    requires Shape(t, d) && t2.nodes == t.nodes && t2.root == t.root
    ensures Shape(t2, d) && SameContents(t, d, t2, d)
  {
    forall x | x in d.node
      ensures NodeOk(t2, d, x)
    {
      assert NodeOk(t, d, x);
    }
    forall x, i: nat | x in d.node && x.level > 0 && i < FANOUT
      ensures LinkOk(t2, d, x, i)
    {
      assert LinkOk(t, d, x, i);
    }
  }

  // The `level` lowest names of the path are gone and their nodes were freed from the bottom up.
  ghost predicate PathDropped(t: Tree, d: Dir, t2: Tree, d2: Dir, key: nat, level: nat) {
    && |t2.freed| == |t.freed| + level && t.freed <= t2.freed
    && (forall x :: x in d2.node <==> x in d.node && !(x.level < level && OnPath(key, x)))
    && (forall x :: x in d2.node ==> d2.node[x] == d.node[x])
    && (forall l: nat :: l < level ==>
          PathName(key, l) in d.node && t2.freed[|t.freed| + l] == d.node[PathName(key, l)])
  }

  // Part of the way up a removal: contents are those wanted and all nodes but perhaps the next
  // one are not empty.
  ghost predicate Climbing(t: Tree, d: Dir, t2: Tree, d2: Dir, key: nat, level: nat) {
    && Shape(t2, d2) && Fresh(t2) && t2.supply == t.supply && PathDropped(t, d, t2, d2, key, level)
    && (forall k: nat :: Stored(t2, d2, k) == if k == key then 0 else Stored(t, d, k))
    && (forall x {:trigger Holds(t2, d2, x)} :: x in d2.node && x != PathName(key, level) ==> Holds(t2, d2, x))
  }

  lemma PathDroppedStep(t: Tree, d: Dir, t1: Tree, d1: Dir, t2: Tree, key: nat, level: nat)
    requires PathDropped(t, d, t1, d1, key, level) && PathName(key, level) in d1.node
    requires t2.freed == t1.freed + [d1.node[PathName(key, level)]]
    ensures PathDropped(t, d, t2, Leave(d1, PathName(key, level)), key, level + 1)
  {
    forall y
      ensures y in Leave(d1, PathName(key, level)).node <==> y in d.node && !(y.level < level + 1 && OnPath(key, y))
    {
      assert OnPath(key, y) ==> y == PathName(key, y.level);
    }
  }

  lemma StillClimbing(t: Tree, d: Dir, t1: Tree, d1: Dir, key: nat, level: nat)
    requires level <= TOP && Climbing(t, d, t1, d1, key, level) && CanShrink(t1, d1, PathName(key, level))
    ensures var x := PathName(key, level);
            Climbing(t, d, Shrink(t1, d1.node[x], ParentOf(d1, x), x.prefix % FANOUT), Leave(d1, x), key, level + 1)
  {
    var x := PathName(key, level);
    var t2, d2 := Shrink(t1, d1.node[x], ParentOf(d1, x), x.prefix % FANOUT), Leave(d1, x);
    ShrinkKeeps(t1, d1, x);
    PathDroppedStep(t, d, t1, d1, t2, key, level);
    if level < TOP {
      DigitOfPrefix(key, level + 1);
    }
    forall y | y in d2.node && y != PathName(key, level + 1)
      ensures Holds(t2, d2, y)
    {
      assert NodeOk(t1, d1, y) && Holds(t1, d1, y);
      ShrinkNodes(t1, d1, x, y);
      assert Entries(t2, d2, y) == Entries(t1, d1, y);
    }
  }

  class VmaTree {
    var nodes: Nodes
    var root: nat
    var supply: seq<nat>
    var freed: seq<nat>
    ghost var dir: Dir

    ghost function State(): Tree
      reads this
    {
      Tree(nodes, root, supply, freed)
    }

    // The nodes form a tree without empty nodes.
    ghost predicate Valid()
      reads this
    {
      Shape(State(), dir) && NoneEmpty(State(), dir) && Fresh(State())
    }

    // Finds exactly what is stored under bits 12..51 of the address.
    method Lookup(addr: nat) returns (r: Option<nat>)
      requires Valid()
      ensures r == var v := Stored(State(), dir, Key(addr)); if v == 0 then None else Some(v)
    {
      var pn := addr / PAGE_SIZE;
      ghost var key := Key(addr);
      TruncPrefix(pn);
      if root == 0 {
        assert PathName(key, TOP) in dir.node ==> NodeOk(State(), dir, PathName(key, TOP));
        Unreachable(State(), dir, key, TOP);
        return None;
      }
      var node, level := root, TOP;
      while level > 0
        invariant 0 <= level <= TOP && PathName(key, level) in dir.node && node == dir.node[PathName(key, level)]
      {
        var idx := Digit(pn, level);
        NextOnPath(State(), dir, pn, level);
        if nodes[node][idx] == 0 {
          Unreachable(State(), dir, key, level - 1);
          return None;
        }
        node, level := nodes[node][idx], level - 1;
      }
      TruncDigit(pn, TOP + 1, 0);
      assert NodeOk(State(), dir, PathName(key, 0));
      var v := nodes[node][Digit(pn, 0)];
      r := if v == 0 then None else Some(v);
    }

    // Stores `v`, making the missing nodes of the path from the top down; false is the
    // out-of-memory panic.
    method Insert(addr: nat, v: nat) returns (ok: bool, ghost c: nat)
      requires Valid() && v != 0
      modifies this
      ensures ok <==> Enough(old(State()), old(dir), Key(addr))
      ensures ok ==> Valid() && c <= TOP + 1 && Inserted(old(State()), old(dir), State(), dir, Key(addr), v, c)
    {
      var pn := addr / PAGE_SIZE;
      ghost var key := Key(addr);
      ok, c := EnsureRoot(pn);
      if !ok {
        return;
      }
      var node, level := root, TOP;
      while level > 0
        invariant 0 <= level <= TOP && Descending(old(State()), old(dir), State(), dir, key, level, c)
        invariant node == dir.node[PathName(key, level)]
      {
        ok, node, c := Step(node, level, pn, old(State()), old(dir), c);
        if !ok {
          return;
        }
        level := level - 1;
      }
      TruncDigit(pn, TOP + 1, 0);
      SupplyFits(old(State()), old(dir), State(), dir, key, c);
      FinishInsert(old(State()), old(dir), State(), dir, key, v, c);
      nodes := SetEntry(nodes, node, Digit(pn, 0), v);
      ok := true;
    }

    method EnsureRoot(pn: nat) returns (ok: bool, ghost c: nat)
      requires Valid()
      modifies this
      ensures !ok ==> !Enough(old(State()), old(dir), Trunc(pn, TOP + 1))
      ensures ok ==> Descending(old(State()), old(dir), State(), dir, Trunc(pn, TOP + 1), TOP, c)
      ensures ok ==> root == dir.node[PathName(Trunc(pn, TOP + 1), TOP)]
    {
      ghost var key := Trunc(pn, TOP + 1);
      TruncPrefix(pn);
      ok, c := true, 0;
      if root == 0 {
        if supply == [] {
          assert PathName(key, 0) !in dir.node by {
            if PathName(key, 0) in dir.node {
              Climb(State(), dir, PathName(key, 0));
            }
          }
          return false, 0;
        }
        c := 1;
        var page := supply[0];
        RootDescends(State(), dir, key);
        supply := supply[1..];
        nodes := nodes[page := Zeroed()];
        root := page;
        dir := Enter(dir, PathName(key, TOP), page);
      }
    }

    // One turn of the descent of insert.
    method Step(n: nat, level: nat, pn: nat, ghost t0: Tree, ghost d0: Dir, ghost c0: nat)
      returns (ok: bool, node: nat, ghost c: nat)
      requires 0 < level <= TOP && Descending(t0, d0, State(), dir, Trunc(pn, TOP + 1), level, c0)
      requires Shape(t0, d0) && n == dir.node[PathName(Trunc(pn, TOP + 1), level)]
      modifies this
      ensures !ok ==> !Enough(t0, d0, Trunc(pn, TOP + 1))
      ensures ok ==> var key := Trunc(pn, TOP + 1);
                     Descending(t0, d0, State(), dir, key, level - 1, c) && node == dir.node[PathName(key, level - 1)]
    {
      ghost var key := Trunc(pn, TOP + 1);
      ghost var x := PathName(key, level - 1);
      var idx := Digit(pn, level);
      NextOnPath(State(), dir, pn, level);
      ok, c := true, c0;
      if nodes[n][idx] == 0 {
        if supply == [] {
          SupplyShort(t0, d0, State(), dir, key, level, c0);
          return false, 0, 0;
        }
        c := c0 + 1;
        node := supply[0];
        StillDescending(t0, d0, State(), dir, Grow(State(), n, idx, node).(supply := supply[1..]), key, level, c0);
        supply := supply[1..];
        nodes := SetEntry(nodes[node := Zeroed()], n, idx, node);
        dir := Enter(dir, x, node);
      } else {
        node := nodes[n][idx];
        AlreadyThere(t0, d0, State(), dir, key, level, c0);
      }
    }

    // Clears the key's entry and frees the nodes of its path that are left empty, bottom up.
    method Remove(addr: nat) returns (found: bool, ghost c: nat)
      requires Valid()
      modifies this
      ensures Valid() && found == (old(Stored(State(), dir, Key(addr))) != 0)
      ensures !found ==> State() == old(State()) && dir == old(dir)
      ensures found ==> c <= TOP + 1 && Removed(old(State()), old(dir), State(), dir, Key(addr), c)
    {
      var pn := addr / PAGE_SIZE;
      ghost var key := Key(addr);
      var path: seq<nat>;
      found, path := PathDown(pn);
      c := 0;
      if !found {
        return;
      }
      TruncDigit(pn, TOP + 1, 0);
      var leaf := path[0];
      assert NodeOk(State(), dir, PathName(key, 0));
      if nodes[leaf][Digit(pn, 0)] == 0 {
        found := false;
        return;
      }
      StartClimb(State(), dir, key);
      nodes := SetEntry(nodes, leaf, Digit(pn, 0), 0);
      c := FreeEmpty(pn, path, old(State()), old(dir));
    }

    method Unlink(n: nat, parent: nat, i: nat, ghost x: Name)
      modifies this
      ensures State() == Shrink(old(State()), n, parent, i) && dir == Leave(old(dir), x)
    {
      freed := freed + [n];
      if parent != 0 {
        nodes := SetEntry(nodes - {n}, parent, i, 0);
      } else {
        nodes := nodes - {n};
        root := 0;
      }
      dir := Leave(dir, x);
    }

    // The upward loop of remove.
    method FreeEmpty(pn: nat, path: seq<nat>, ghost t0: Tree, ghost d0: Dir) returns (ghost c: nat)
      requires Climbing(t0, d0, State(), dir, Trunc(pn, TOP + 1), 0) && PathIs(dir, Trunc(pn, TOP + 1), path, 0)
      modifies this
      ensures Valid() && c <= TOP + 1 && Climbing(t0, d0, State(), dir, Trunc(pn, TOP + 1), c)
    {
      ghost var key := Trunc(pn, TOP + 1);
      var level := 0;
      while level <= TOP
        invariant 0 <= level <= TOP + 1 && Climbing(t0, d0, State(), dir, key, level) && PathIs(dir, key, path, level)
      {
        var kept := FreeIfEmpty(pn, path, level, t0, d0);
        if kept {
          return level;
        }
        level := level + 1;
      }
      assert PathName(key, TOP + 1) in dir.node ==> NodeOk(State(), dir, PathName(key, TOP + 1));
      return level;
    }

    // One turn of the loop: the node of the path at `level` goes, unless it still has an entry.
    method FreeIfEmpty(pn: nat, path: seq<nat>, level: nat, ghost t0: Tree, ghost d0: Dir) returns (kept: bool)
      requires level <= TOP && Climbing(t0, d0, State(), dir, Trunc(pn, TOP + 1), level)
      requires PathIs(dir, Trunc(pn, TOP + 1), path, level)
      modifies this
      ensures kept ==> Valid() && Climbing(t0, d0, State(), dir, Trunc(pn, TOP + 1), level)
      ensures !kept ==> Climbing(t0, d0, State(), dir, Trunc(pn, TOP + 1), level + 1)
      ensures !kept ==> PathIs(dir, Trunc(pn, TOP + 1), path, level + 1)
    {
      ghost var key := Trunc(pn, TOP + 1);
      ghost var x := PathName(key, level);
      ParentOnPath(State(), dir, pn, level);
      var n := path[level];
      var empty := IsEmpty(n);
      if !empty {
        assert Holds(State(), dir, x);
        return true;
      }
      StillClimbing(t0, d0, State(), dir, key, level);
      if level < TOP {
        Unlink(n, path[level + 1], Digit(pn, level + 1), x);
      } else {
        Unlink(n, 0, 0, x);
      }
      return false;
    }

    // The nodes of the path, lowest first, or false if it breaks off.
    method PathDown(pn: nat) returns (found: bool, path: seq<nat>)
      requires Valid()
      ensures found ==> PathIs(dir, Trunc(pn, TOP + 1), path, 0)
      ensures !found ==> Stored(State(), dir, Trunc(pn, TOP + 1)) == 0
    {
      ghost var key := Trunc(pn, TOP + 1);
      TruncPrefix(pn);
      path := [];
      if root == 0 {
        assert PathName(key, TOP) in dir.node ==> NodeOk(State(), dir, PathName(key, TOP));
        Unreachable(State(), dir, key, TOP);
        return false, path;
      }
      var level := TOP;
      path := [root];
      while level > 0
        invariant 0 <= level <= TOP && |path| == TOP + 1 - level
        invariant forall l: nat :: level <= l <= TOP ==>
          PathName(key, l) in dir.node && path[l - level] == dir.node[PathName(key, l)]
      {
        var idx := Digit(pn, level);
        NextOnPath(State(), dir, pn, level);
        if nodes[path[0]][idx] == 0 {
          Unreachable(State(), dir, key, level - 1);
          return false, path;
        }
        path := [nodes[path[0]][idx]] + path;
        level := level - 1;
      }
      return true, path;
    }

    method IsEmpty(n: nat) returns (empty: bool)
      requires n in nodes
      ensures empty == AllZero(nodes[n])
    {
      var i := 0;
      while i < |nodes[n]|
        invariant i <= |nodes[n]| && AllZero(nodes[n][..i])
      {
        if nodes[n][i] != 0 {
          return false;
        }
        i := i + 1;
      }
      assert nodes[n][..i] == nodes[n];
      return true;
    }
  }

  // path[l] is the node of the key's path at level `l`, for every level from `low` up.
  ghost predicate PathIs(d: Dir, key: nat, path: seq<nat>, low: nat) {
    |path| == TOP + 1 &&
    forall l: nat :: low <= l <= TOP ==> PathName(key, l) in d.node && path[l] == d.node[PathName(key, l)]
  }

  // From a node on the path, the entry at the page's index leads to the next node on it.
  lemma NextOnPath(t: Tree, d: Dir, pn: nat, level: nat)
    requires Shape(t, d) && 0 < level <= TOP && PathName(Trunc(pn, TOP + 1), level) in d.node
    ensures var key := Trunc(pn, TOP + 1);
            var n := d.node[PathName(key, level)];
            && n != 0 && n in t.nodes && |t.nodes[n]| == FANOUT
            && Digit(pn, level) == Prefix(key, level - 1) % FANOUT < FANOUT
            && (if t.nodes[n][Digit(pn, level)] == 0 then PathName(key, level - 1) !in d.node
                else && PathName(key, level - 1) in d.node
                     && t.nodes[n][Digit(pn, level)] == d.node[PathName(key, level - 1)])
  {
    var key := Trunc(pn, TOP + 1);
    TruncDigit(pn, TOP + 1, level);
    DigitOfPrefix(key, level);
    assert NodeOk(t, d, PathName(key, level)) && LinkOk(t, d, PathName(key, level), Digit(pn, level));
    if PathName(key, level - 1) in d.node {
      assert NodeOk(t, d, PathName(key, level - 1));
    }
  }

  lemma ParentOnPath(t: Tree, d: Dir, pn: nat, level: nat)
    requires Shape(t, d) && level <= TOP && PathName(Trunc(pn, TOP + 1), level) in d.node
    ensures var x := PathName(Trunc(pn, TOP + 1), level);
            && NodeOk(t, d, x)
            && (if level < TOP
                then && ParentName(x) == PathName(Trunc(pn, TOP + 1), level + 1) && NodeOk(t, d, ParentName(x))
                     && Digit(pn, level + 1) == x.prefix % FANOUT
                else ParentOf(d, x) == 0)
  {
    var key := Trunc(pn, TOP + 1);
    var x := PathName(key, level);
    assert NodeOk(t, d, x);
    if level < TOP {
      TruncDigit(pn, TOP + 1, level + 1);
      DigitOfPrefix(key, level + 1);
      assert NodeOk(t, d, ParentName(x));
    } else {
      assert ParentName(x) in d.node ==> NodeOk(t, d, ParentName(x));
    }
  }

  lemma RootDescends(t: Tree, d: Dir, key: nat)
    requires Shape(t, d) && NoneEmpty(t, d) && Fresh(t) && t.root == 0 && t.supply != [] && Prefix(key, TOP) == 0
    ensures var t2 := t.(nodes := t.nodes[t.supply[0] := Zeroed()], root := t.supply[0], supply := t.supply[1..]);
            Descending(t, d, t2, Enter(d, PathName(key, TOP), t.supply[0]), key, TOP, 1)
  {
    forall x | x in d.node
      ensures false
    {
      Climb(t, d, x);
    }
    var x := PathName(key, TOP);
    GrowKeeps(t, d, x, t.supply[0]);
    var grown := Grow(t, 0, 0, t.supply[0]);
    SameShape(grown, grown.(supply := t.supply[1..]), Enter(d, x, t.supply[0]));
  }

  lemma AlreadyThere(t: Tree, d: Dir, t1: Tree, d1: Dir, key: nat, level: nat, c: nat)
    requires 0 < level <= TOP && Shape(t, d) && Descending(t, d, t1, d1, key, level, c)
    requires PathName(key, level - 1) in d1.node
    ensures c == 0 && Descending(t, d, t1, d1, key, level - 1, c)
  {
    var x := PathName(key, level - 1);
    DigitOfPrefix(key, level);
    assert x in d.node && NodeOk(t, d, x);
    assert c > 0 ==> PathName(key, level) !in d.node;
  }

  lemma FinishInsert(t: Tree, d: Dir, t1: Tree, d1: Dir, key: nat, v: nat, c: nat)
    requires Shape(t, d) && Descending(t, d, t1, d1, key, 0, c) && v != 0
    ensures var t2 := Store(t1, d1.node[PathName(key, 0)], key % FANOUT, v);
            Inserted(t, d, t2, d1, key, v, c) && NoneEmpty(t2, d1) && Fresh(t2)
  {
    var x := PathName(key, 0);
    assert NodeOk(t1, d1, x);
    StoreKeeps(t1, d1, key, v);
    var t2 := Store(t1, d1.node[x], key % FANOUT, v);
    forall y | y in d1.node
      ensures Holds(t2, d1, y)
    {
      if y == x {
        assert Entries(t2, d1, x)[key % FANOUT] != 0;
      } else {
        assert Holds(t1, d1, y);
      }
    }
  }

  lemma StartClimb(t: Tree, d: Dir, key: nat)
    requires Shape(t, d) && NoneEmpty(t, d) && Fresh(t) && PathName(key, 0) in d.node
    ensures Climbing(t, d, Store(t, d.node[PathName(key, 0)], key % FANOUT, 0), d, key, 0)
  {
    var x := PathName(key, 0);
    assert NodeOk(t, d, x);
    StoreKeeps(t, d, key, 0);
    var t2 := Store(t, d.node[x], key % FANOUT, 0);
    forall y | y in d.node && y != x
      ensures Holds(t2, d, y)
    {
      assert Holds(t, d, y);
    }
  }
}
