/**
 Taking a page table down (kernel/vm.c): freewalk and uvmfree.

 While a tree is being freed its tables are no longer in use: their pages are `Held`, and `spot`
 remembers where in the tree each of them was.
 */
module Teardown {
  import opened PageTables
  import opened UserMemory

  /** q is the table p or below it. */
  predicate InTree(spot: map<nat, Place>, p: nat, q: nat)
    requires p in spot && q in spot
  {
    q == p ||
    (spot[p].Root? && (spot[q].Mid? || spot[q].Low?) && spot[q].root == p) ||
    (spot[p].Mid? && spot[q].Low? && spot[q].root == spot[p].root && spot[q].i == spot[p].i)
  }

  /** The entry of p that leads to q. */
  function Index(spot: map<nat, Place>, p: nat, q: nat): nat
    requires p in spot && q in spot && InTree(spot, p, q) && q != p
  {
    if spot[p].Root? then spot[q].i else spot[q].j
  }

  /** A table's entries lead to its children and nowhere else; a lowest-level table is empty. */
  ghost predicate Entries(mem: Mem, spot: map<nat, Place>, q: nat)
    requires q in mem && q in spot
  {
    if spot[q].Root? ||
      spot[q].Mid? then forall k: nat :: k < ENTRIES ==> PointsTo(spot, mem[q][k], Child(spot[q], q, k))
    else spot[q].Low? && forall k: nat :: k < ENTRIES ==> !IsValid(mem[q][k])
  }

  /** The entry of p that should lead to q does. */
  predicate Hangs(mem: Mem, spot: map<nat, Place>, p: nat, q: nat)
    requires p in mem && p in spot && q in spot && InTree(spot, p, q) && q != p
  {
    var k := Index(spot, p, q);
    k < ENTRIES && IsValid(mem[p][k]) &&
    var c := Ppn(mem[p][k]);
    if spot[q].Low? && spot[p].Root? then c in mem && spot[q].j < ENTRIES && mem[c][spot[q].j] == Pointer(q) else c == q
  }

  ghost predicate TreeGood(mem: Mem, spot: map<nat, Place>, p: nat, q: nat) {
    p in mem && p in spot &&
    (q in spot && InTree(spot, p, q) ==> q in mem && Entries(mem, spot, q) && (q != p ==> Hangs(mem, spot, p, q)))
  }

  ghost predicate WholeTree(mem: Mem, spot: map<nat, Place>, p: nat) {
    forall q: nat :: TreeGood(mem, spot, p, q)
  }

  /** A page while freewalk is at entry i of table p. */
  predicate PageAt(mem0: Mem, place0: map<nat, Place>, spot: map<nat, Place>, p: nat, i: nat, mem: Mem,
                   place: map<nat, Place>, q: nat) {
    (q in mem <==> q in mem0) && (q in place <==> q in place0) &&
    (p in spot && q in spot && q in mem0 && q in place0 ==>
       if !InTree(spot, p, q) then place[q] == place0[q] && mem[q] == mem0[q]
       else if q == p then place[q] == Held && forall k :: i <= k < ENTRIES ==> mem[q][k] == mem0[q][k]
       else if Index(spot, p, q) < i then place[q] == Free
       else place[q] == Held && mem[q] == mem0[q])
  }

  ghost predicate Sweep(mem0: Mem, place0: map<nat, Place>, spot: map<nat, Place>, p: nat, i: nat, mem: Mem,
                        place: map<nat, Place>) {
    forall q: nat :: PageAt(mem0, place0, spot, p, i, mem, place, q)
  }

  /** A page after freewalk. */
  predicate PageSwept(mem0: Mem, place0: map<nat, Place>, spot: map<nat, Place>, p: nat, mem: Mem,
                      place: map<nat, Place>, q: nat) {
    (q in mem <==> q in mem0) && (q in place <==> q in place0) &&
    (p in spot && q in spot && q in mem0 && q in place0 ==>
       if InTree(spot, p, q) then place[q] == Free else place[q] == place0[q] && mem[q] == mem0[q])
  }

  ghost predicate Swept(mem0: Mem, place0: map<nat, Place>, spot: map<nat, Place>, p: nat, mem: Mem,
                        place: map<nat, Place>) {
    forall q: nat :: PageSwept(mem0, place0, spot, p, mem, place, q)
  }

  function Height(u: Place): nat { if u.Root? then 2 else if u.Mid? then 1 else 0 }

  /** All of the tree's pages are held. */
  ghost predicate TreeHeld(place: map<nat, Place>, spot: map<nat, Place>, p: nat) {
    p in spot && forall q: nat :: q in spot && InTree(spot, p, q) ==> q in place && place[q] == Held
  }

  /** The subtree below entry i of p, before it is freed. */
  lemma Subtree(mem0: Mem, place0: map<nat, Place>, spot: map<nat, Place>, p: nat, i: nat, mem: Mem,
                place: map<nat, Place>, c: nat)
    requires WholeTree(mem0, spot, p) && TreeHeld(place0, spot, p) && Sweep(mem0, place0, spot, p, i, mem, place)
    requires i < ENTRIES && p in mem && p in spot && (spot[p].Root? || spot[p].Mid?)
    requires IsValid(mem[p][i]) && c == Ppn(mem[p][i])
    ensures c in spot && c in mem && spot[c] == Child(spot[p], p, i) && !IsLeaf(mem[p][i])
    ensures WholeTree(mem, spot, c) && TreeHeld(place, spot, c)
  {
    assert PageAt(mem0, place0, spot, p, i, mem, place, p) && TreeGood(mem0, spot, p, p);
    assert PointsTo(spot, mem0[p][i], Child(spot[p], p, i));
    assert mem[p][i] == Pointer(c);
    assert TreeGood(mem0, spot, p, c) && PageAt(mem0, place0, spot, p, i, mem, place, c);
    forall q: nat ensures TreeGood(mem, spot, c, q) {
      SubtreePage(mem0, place0, spot, p, i, mem, place, c, q);
    }
    forall q: nat | q in spot && InTree(spot, c, q) ensures q in place && place[q] == Held {
      SubtreePage(mem0, place0, spot, p, i, mem, place, c, q);
    }
  }

  lemma SubtreePage(mem0: Mem, place0: map<nat, Place>, spot: map<nat, Place>, p: nat, i: nat, mem: Mem,
                    place: map<nat, Place>, c: nat, q: nat)
    requires WholeTree(mem0, spot, p) && TreeHeld(place0, spot, p) && Sweep(mem0, place0, spot, p, i, mem, place)
    requires i < ENTRIES && p in mem && p in mem0 && p in spot && (spot[p].Root? || spot[p].Mid?) &&
             mem0[p][i] == Pointer(c)
    requires c in spot && c in mem && spot[c] == Child(spot[p], p, i)
    ensures TreeGood(mem, spot, c, q)
    ensures q in spot && InTree(spot, c, q) ==> q in place && place[q] == Held
  {
    assert PageAt(mem0, place0, spot, p, i, mem, place, q) && PageAt(mem0, place0, spot, p, i, mem, place, c);
    assert TreeGood(mem0, spot, p, q) && TreeGood(mem0, spot, p, c);
  }

  /** Freeing the subtree below entry i and clearing the entry moves the sweep on. */
  lemma SweepNext(mem0: Mem, place0: map<nat, Place>, spot: map<nat, Place>, p: nat, i: nat, mem1: Mem,
                  place1: map<nat, Place>, c: nat, mem2: Mem, place: map<nat, Place>, next: nat)
    requires WholeTree(mem0, spot, p) && Sweep(mem0, place0, spot, p, i, mem1, place1)
    requires next == i + 1 && i < ENTRIES && p in mem1 && p in mem2 && p in spot && p in place0 &&
             (spot[p].Root? || spot[p].Mid?) && IsValid(mem1[p][i]) && c == Ppn(mem1[p][i])
    requires c in spot && spot[c] == Child(spot[p], p, i) && Swept(mem1, place1, spot, c, mem2, place)
    ensures Sweep(mem0, place0, spot, p, next, SetEntry(mem2, p, i, 0), place)
  {
    var mem := SetEntry(mem2, p, i, 0);
    assert PageAt(mem0, place0, spot, p, i, mem1, place1, p);
    forall q: nat ensures PageAt(mem0, place0, spot, p, next, mem, place, q) {
      assert PageAt(mem0, place0, spot, p, i, mem1, place1, q) && PageSwept(mem1, place1, spot, c, mem2, place, q);
      assert TreeGood(mem0, spot, p, q);
    }
  }

  /** An empty entry has nothing below it. */
  lemma SweepSkip(mem0: Mem, place0: map<nat, Place>, spot: map<nat, Place>, p: nat, i: nat, mem: Mem,
                  place: map<nat, Place>, next: nat)
    requires WholeTree(mem0, spot, p) && Sweep(mem0, place0, spot, p, i, mem, place)
    requires next == i + 1 && i < ENTRIES && p in mem && p in spot && p in place0 && IsTable(spot[p]) &&
             !IsValid(mem[p][i])
    ensures Sweep(mem0, place0, spot, p, next, mem, place)
  {
    assert PageAt(mem0, place0, spot, p, i, mem, place, p);
    forall q: nat ensures PageAt(mem0, place0, spot, p, next, mem, place, q) {
      assert PageAt(mem0, place0, spot, p, i, mem, place, q) && TreeGood(mem0, spot, p, q);
    }
  }

  /** The last entry done, the table itself goes. */
  lemma SweepDone(mem0: Mem, place0: map<nat, Place>, spot: map<nat, Place>, p: nat, mem: Mem, place: map<nat, Place>,
                  head: nat)
    requires WholeTree(mem0, spot, p) && Sweep(mem0, place0, spot, p, ENTRIES, mem, place) && p in mem && p in place &&
             p in spot
    ensures Swept(mem0, place0, spot, p, Freed(mem, head, p), place[p := Free])
  {
    var mem', place' := Freed(mem, head, p), place[p := Free];
    forall q: nat ensures PageSwept(mem0, place0, spot, p, mem', place', q) {
      assert PageAt(mem0, place0, spot, p, ENTRIES, mem, place, q) && TreeGood(mem0, spot, p, q);
    }
  }

  /** freewalk is at entry i of p, and no other table has changed. */
  ghost predicate Midway(mem0: Mem, place0: map<nat, Place>, spot: map<nat, Place>, p: nat, i: nat, mem: Mem,
                         place: map<nat, Place>) {
    p in mem && p in place && place[p] == Held && Sweep(mem0, place0, spot, p, i, mem, place) &&
    SameView(mem0, mem, place0) && forall r: nat :: IsRoot(place0, r) ==> IsRoot(place, r)
  }

  /** freewalk's step at an entry that leads to a table. */
  method FreeChild(m: Machine, p: nat, i: nat, ghost spot: map<nat, Place>, ghost mem0: Mem,
                   ghost place0: map<nat, Place>, ghost next: nat)
    requires m.Valid() && p in spot && p in place0 && i < ENTRIES && next == i + 1 &&
             Midway(mem0, place0, spot, p, i, m.mem, m.place)
    requires WholeTree(mem0, spot, p) && TreeHeld(place0, spot, p) && (spot[p].Root? || spot[p].Mid?) &&
             IsValid(m.mem[p][i])
    modifies m
    ensures m.Valid() && Midway(mem0, place0, spot, p, next, m.mem, m.place)
    decreases Height(spot[p]), 0
  {
    var child := Ppn(m.mem[p][i]);
    ghost var mem1, place1 := m.mem, m.place;
    Subtree(mem0, place0, spot, p, i, mem1, place1, child);
    Freewalk(m, child, spot);
    assert PageSwept(mem1, place1, spot, child, m.mem, m.place, p);
    SweepNext(mem0, place0, spot, p, i, mem1, place1, child, m.mem, m.place, next);
    ghost var mem2 := m.mem;
    m.Fill(p, m.mem[p][i := 0]);
    SameViewTransitive(mem0, mem1, mem2, place0, place1);
    SameViewTransitive(mem0, mem2, m.mem, place0, m.place);
  }

  /** freewalk */
  method Freewalk(m: Machine, p: nat, ghost spot: map<nat, Place>)
    requires m.Valid() && p in spot && p in m.place && IsTable(spot[p]) && WholeTree(m.mem, spot, p) &&
             TreeHeld(m.place, spot, p)
    modifies m
    ensures m.Valid() && Swept(old(m.mem), old(m.place), spot, p, m.mem, m.place)
    ensures SameView(old(m.mem), m.mem, old(m.place)) && forall r: nat :: IsRoot(old(m.place), r) ==> IsRoot(m.place, r)
    decreases Height(spot[p]), 1
  {
    var i := 0;
    assert TreeGood(m.mem, spot, p, p);
    while i < ENTRIES
      invariant 0 <= i <= ENTRIES && m.Valid() && Midway(old(m.mem), old(m.place), spot, p, i, m.mem, m.place)
    {
      EntryFree(old(m.mem), old(m.place), spot, p, i, m.mem, m.place);
      var pte := m.mem[p][i];
      if IsValid(pte) && !IsLeaf(pte) {
        FreeChild(m, p, i, spot, old(m.mem), old(m.place), i + 1);
      } else {
        assert !IsValid(pte);  // not a leaf
        SweepSkip(old(m.mem), old(m.place), spot, p, i, m.mem, m.place, i + 1);
      }
      i := i + 1;
    }
    ghost var mem1, place1 := m.mem, m.place;
    SweepDone(old(m.mem), old(m.place), spot, p, m.mem, m.place, m.freelist);
    m.Kfree(p);
    SameViewTransitive(old(m.mem), mem1, m.mem, old(m.place), place1);
  }

  /** No entry met by freewalk is a leaf, and those of a lowest-level table are all empty. */
  lemma EntryFree(mem0: Mem, place0: map<nat, Place>, spot: map<nat, Place>, p: nat, i: nat, mem: Mem,
                  place: map<nat, Place>)
    requires WholeTree(mem0, spot, p) && Sweep(mem0, place0, spot, p, i, mem, place) && i < ENTRIES
    requires p in spot && p in mem && p in place0 && IsTable(spot[p])
    ensures IsValid(mem[p][i]) ==> !IsLeaf(mem[p][i]) && (spot[p].Root? || spot[p].Mid?)
  {
    assert PageAt(mem0, place0, spot, p, i, mem, place, p) && TreeGood(mem0, spot, p, p);
    if spot[p].Root? || spot[p].Mid? {
      assert PointsTo(spot, mem0[p][i], Child(spot[p], p, i));
    }
  }

  // ---------------------------------------------------------------- a whole address space

  lemma Compose(i: nat, j: nat, k: nat) returns (v: nat)
    requires i < TOP && j < ENTRIES && k < ENTRIES
    ensures v < MAXVPN && Px(2, v) == i && Px(1, v) == j && Px(0, v) == k
  {
    v := i * 262144 + j * 512 + k;
    assert v / 512 == i * 512 + j && v / 262144 == i;
  }

  /** With nothing mapped, every lowest-level table is empty. */
  lemma LowEmpty(mem: Mem, place: map<nat, Place>, free: seq<nat>, root: nat, p: nat, k: nat)
    requires Good(mem, place, free) && IsRoot(place, root) && forall v: nat :: v < MAXVPN ==> !Mapped(mem, root, v)
    requires p in mem && p in place && place[p].Low? && place[p].root == root && k < ENTRIES
    ensures !IsValid(mem[p][k])
  {
    LowParent(mem, place, free, p);
    var v := Compose(place[p].i, place[p].j, k);
    assert !Mapped(mem, root, v);
    assert Table(mem, Table(mem, root, Px(2, v)), Px(1, v)) == p;
  }

  predicate OfTable(u: Place, root: nat) { (u.Mid? || u.Low?) && u.root == root }

  /** The tables of this root taken out of use. */
  ghost function Detached(place: map<nat, Place>, root: nat): map<nat, Place> {
    map p | p in place :: if p == root || OfTable(place[p], root) then Held else place[p]
  }

  lemma DetachedGood(mem: Mem, place: map<nat, Place>, free: seq<nat>, root: nat)
    requires Good(mem, place, free) && IsRoot(place, root) && forall v: nat :: v < MAXVPN ==> !Mapped(mem, root, v)
    ensures Good(mem, Detached(place, root), free)
  {
    var place' := Detached(place, root);
    forall p: nat ensures PageGood(mem, place', free, p) {
      assert PageGood(mem, place, free, p);
      if p in mem && p != root && !OfTable(place[p], root) && IsTable(place[p]) {
        DetachedTable(mem, place, free, root, p);
      }
    }
  }

  lemma DetachedTable(mem: Mem, place: map<nat, Place>, free: seq<nat>, root: nat, p: nat)
    requires Good(mem, place, free) && IsRoot(place, root) && p in mem && p in place && p != root
    requires !OfTable(place[p], root) && IsTable(place[p])
    ensures PageGood(mem, Detached(place, root), free, p)
  {
    var place' := Detached(place, root);
    assert PageGood(mem, place, free, p);
    match place[p]
    case Root =>
      forall i | 0 <= i < ENTRIES ensures PointsTo(place', mem[p][i], Mid(p, i)) {
        assert PointsTo(place, mem[p][i], Mid(p, i));
      }
    case Mid(r, i) =>
      forall j | 0 <= j < ENTRIES ensures PointsTo(place', mem[p][j], Low(r, i, j)) {
        assert PointsTo(place, mem[p][j], Low(r, i, j));
      }
    case Low(r, i, j) =>
  }

  lemma DetachedTree(mem: Mem, place: map<nat, Place>, free: seq<nat>, root: nat)
    requires Good(mem, place, free) && IsRoot(place, root) && forall v: nat :: v < MAXVPN ==> !Mapped(mem, root, v)
    ensures WholeTree(mem, place, root) && TreeHeld(Detached(place, root), place, root)
  {
    Accounted(mem, place, free);
    forall q: nat ensures TreeGood(mem, place, root, q) {
      if q in place && InTree(place, root, q) {
        TreePage(mem, place, free, root, q);
      }
    }
  }

  lemma TreePage(mem: Mem, place: map<nat, Place>, free: seq<nat>, root: nat, q: nat)
    requires Good(mem, place, free) && IsRoot(place, root) && forall v: nat :: v < MAXVPN ==> !Mapped(mem, root, v)
    requires q in place && InTree(place, root, q)
    ensures TreeGood(mem, place, root, q)
  {
    assert PageGood(mem, place, free, q) && PageGood(mem, place, free, root) && PageGood(mem, place, free, 0);
    if place[q].Low? {
      LowParent(mem, place, free, q);
      forall k: nat | k < ENTRIES ensures !IsValid(mem[q][k]) {
        LowEmpty(mem, place, free, root, q, k);
      }
    }
  }

  /** A page before and after uvmfree. */
  predicate PageReturned(mem0: Mem, place0: map<nat, Place>, root: nat, mem: Mem, place: map<nat, Place>, p: nat) {
    (p in mem <==> p in mem0) && (p in place <==> p in place0) &&
    (p in mem0 && p in place0 ==>
       if p == root || Within(place0[p], root, 0, MAXVPN) then place[p] == Free
       else place[p] == place0[p] && (place0[p].Held? || place0[p].User? ==> mem[p] == mem0[p]))
  }

  lemma Returned(mem0: Mem, place0: map<nat, Place>, free0: seq<nat>, root: nat, n: nat, mem1: Mem,
                 place1: map<nat, Place>, mem: Mem, place: map<nat, Place>)
    requires Good(mem0, place0, free0) && IsRoot(place0, root) && n <= MAXVPN &&
             forall v: nat :: n <= v < MAXVPN ==> !Mapped(mem0, root, v)
    requires Unmapped(mem0, place0, mem1, place1, root, 0, n, Free) && IsRoot(place1, root)
    requires Swept(mem1, Detached(place1, root), place1, root, mem, place)
    ensures forall p: nat :: PageReturned(mem0, place0, root, mem, place, p)
  {
    Accounted(mem0, place0, free0);
    forall p: nat ensures PageReturned(mem0, place0, root, mem, place, p) {
      assert PageSwept(mem1, Detached(place1, root), place1, root, mem, place, p) && PageGood(mem0, place0, free0, p);
    }
  }

  lemma NothingMapped(mem0: Mem, place0: map<nat, Place>, root: nat, n: nat, mem1: Mem, place1: map<nat, Place>)
    requires Unmapped(mem0, place0, mem1, place1, root, 0, n, Free) &&
             forall v: nat :: n <= v < MAXVPN ==> !Mapped(mem0, root, v)
    ensures forall v: nat :: v < MAXVPN ==> !Mapped(mem1, root, v)
  {
    forall v: nat | v < MAXVPN ensures !Mapped(mem1, root, v) {
      if v >= n {
        assert SamePte(mem0, mem1, root, v) && !Mapped(mem0, root, v);
      }
    }
  }

  /** uvmfree: every table and user page of this root goes back to the free list, and nothing else changes. */
  method Uvmfree(m: Machine, root: nat, sz: nat)
    requires m.Valid() && IsRoot(m.place, root) && Pages(sz) <= MAXVPN && AllOwned(m.mem, m.place, root, 0, Pages(sz))
    requires forall v: nat :: Pages(sz) <= v < MAXVPN ==> !Mapped(m.mem, root, v)
    modifies m
    ensures m.Valid()
    ensures forall p: nat :: PageReturned(old(m.mem), old(m.place), root, m.mem, m.place, p)
    ensures forall r: nat, v: nat :: IsRoot(old(m.place), r) && r != root && v < MAXVPN ==>
              SamePte(old(m.mem), m.mem, r, v)
  {
    if sz > 0 {
      m.Uvmunmap(root, 0, Pages(sz), true);
    } else {
      UnmappedNone(m.mem, m.place, root, 0, Free);
    }
    ghost var mem1, place1 := m.mem, m.place;
    NothingMapped(old(m.mem), old(m.place), root, Pages(sz), mem1, place1);
    DetachedGood(mem1, place1, m.free, root);
    DetachedTree(mem1, place1, m.free, root);
    m.place := Detached(m.place, root);
    Freewalk(m, root, place1);
    Returned(old(m.mem), old(m.place), old(m.free), root, Pages(sz), mem1, place1, m.mem, m.place);
    forall r: nat, v: nat | IsRoot(old(m.place), r) && r != root && v < MAXVPN
      ensures SamePte(old(m.mem), m.mem, r, v)
    {
      assert SamePte(old(m.mem), mem1, r, v) && SamePte(mem1, m.mem, r, v);
    }
  }

  /** uvmcreate: a root under which nothing is mapped. */
  method Uvmcreate(m: Machine) returns (root: nat)
    requires m.Valid()
    modifies m
    ensures m.Valid() && SameView(old(m.mem), m.mem, old(m.place))
    ensures root == 0 ==> m.mem == old(m.mem) && m.place == old(m.place) && m.free == old(m.free) == []
    ensures root != 0 ==> root in old(m.place) && old(m.place)[root] == Free && m.place == old(m.place)[root := Root] &&
                          m.mem == old(m.mem)[root := Filled(0)] && |m.free| + 1 == |old(m.free)| &&
                          forall v: nat :: !Mapped(m.mem, root, v)
  {
    root := AllocFilled(m, Filled(0));
    if root != 0 {
      NewRootGood(m.mem, m.place, m.free, root);
      m.place := m.place[root := Root];
    }
  }

  lemma NewRootGood(mem: Mem, place: map<nat, Place>, free: seq<nat>, root: nat)
    requires Good(mem, place, free) && root in mem && root in place && place[root] == Held && mem[root] == Filled(0)
    ensures Good(mem, place[root := Root], free) && forall v: nat :: !Mapped(mem, root, v)
  {
    var place' := place[root := Root];
    forall p: nat ensures PageGood(mem, place', free, p) {
      assert PageGood(mem, place, free, p);
      if p in mem && p != root && place[p].Root? {
        forall i | 0 <= i < ENTRIES ensures PointsTo(place', mem[p][i], Mid(p, i)) {
          assert PointsTo(place, mem[p][i], Mid(p, i));
        }
      } else if p in mem && place[p].Mid? {
        forall j | 0 <= j < ENTRIES ensures PointsTo(place', mem[p][j], Low(place[p].root, place[p].i, j)) {
          assert PointsTo(place, mem[p][j], Low(place[p].root, place[p].i, j));
        }
      }
    }
    assert PageGood(mem, place, free, 0);
    forall v: nat ensures !Mapped(mem, root, v) {
      assert Table(mem, root, Px(2, v)) == 0 && Table(mem, 0, Px(1, v)) == 0;
    }
  }
}
