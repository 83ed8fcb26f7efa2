/**
 Sv39 page tables (kernel/vm.c) over the page allocator (kernel/kalloc.c).

 Physical memory is a set of pages of 512 words.  `place` is a ghost: it says of every page
 what it is used for, and being a function it puts each page in one place only.
 */
module PageTables {

  const ENTRIES: nat := 512
  const MAXVPN: nat := 0x400_0000  // MAXVA, in pages
  const PGSIZE: nat := 4096
  const TOP: nat := 256            // the root entries below MAXVA

  type Page = p: seq<nat> | |p| == ENTRIES witness seq(ENTRIES, _ => 0)
  type Mem = map<nat, Page>

  function Filled(x: nat): Page { seq(ENTRIES, _ => x) }

  // ---------------------------------------------------------------- entries

  // An entry is a physical page number above ten flag bits.
  const PTE_V: nat := 1

  predicate IsValid(pte: nat) { pte % 2 == 1 }

  /** Read, write or execute permission: the entry maps a page rather than pointing to a table. */
  predicate IsLeaf(pte: nat) { (pte / 2) % 8 != 0 }

  /** An entry of a lowest-level table: empty, or mapping a page. */
  predicate EntryGood(pte: nat) { pte == 0 || (IsValid(pte) && IsLeaf(pte)) }

  function Ppn(pte: nat): nat { pte / 1024 }

  function Flags(pte: nat): nat { pte % 1024 }

  lemma Mod8(a: nat, r: nat)
    requires r < 8
    ensures (8 * a + r) % 8 == r
  {
  }

  /** A page number above ten flag bits comes apart again. */
  lemma Apart(ppn: nat, flags: nat)
    requires flags < 1024
    ensures var pte := ppn * 1024 + flags;
            Ppn(pte) == ppn && Flags(pte) == flags && (IsValid(pte) <==> IsValid(flags)) &&
            (IsLeaf(pte) <==> IsLeaf(flags))
  {
    var pte, half := ppn * 1024 + flags, flags / 2;
    assert pte / 2 == 512 * ppn + half;
    assert 512 * ppn + half == 8 * (64 * ppn + half / 8) + half % 8;
    Mod8(64 * ppn + half / 8, half % 8);
  }

  /** A flag word with the valid bit set. */
  function WithValid(perm: nat): nat { if perm % 2 == 1 then perm else perm + 1 }

  lemma WithValidFlags(perm: nat)
    requires perm < 1024
    ensures WithValid(perm) < 1024 && IsValid(WithValid(perm)) && (IsLeaf(WithValid(perm)) <==> IsLeaf(perm))
  {
    assert WithValid(perm) / 2 == perm / 2;
  }

  /** PA2PTE(pa) | perm | PTE_V */
  function MakePte(ppn: nat, perm: nat): (pte: nat)
    requires perm < 1024
    ensures IsValid(pte) && Ppn(pte) == ppn && Flags(pte) == WithValid(perm) && (IsLeaf(pte) <==> IsLeaf(perm))
  {
    WithValidFlags(perm);
    Apart(ppn, WithValid(perm));
    ppn * 1024 + WithValid(perm)
  }

  /** An entry that leads to the table at this page. */
  function Pointer(ppn: nat): (pte: nat)
    ensures IsValid(pte) && !IsLeaf(pte) && Ppn(pte) == ppn
  {
    Apart(ppn, 1);
    ppn * 1024 + 1
  }

  /** PX(level, va), for a page number. */
  function Px(level: nat, vpn: nat): (i: nat)
    ensures i < ENTRIES
  {
    if level == 0 then vpn % 512 else if level == 1 then (vpn / 512) % 512 else (vpn / 262144) % 512
  }

  lemma PxUnique(v: nat, w: nat)
    requires v < 512 * 512 * 512 && w < 512 * 512 * 512
    requires Px(0, v) == Px(0, w) && Px(1, v) == Px(1, w) && Px(2, v) == Px(2, w)
    ensures v == w
  {
    PxParts(v);
    PxParts(w);
  }

  lemma PxParts(v: nat)
    requires v < 512 * 512 * 512
    ensures v == 262144 * Px(2, v) + 512 * Px(1, v) + Px(0, v)
  {
    var q := v / 512;
    assert v == 512 * q + v % 512 && q == 512 * (q / 512) + q % 512 && v / 262144 == q / 512 && q / 512 < 512;
  }

  lemma BelowTop(v: nat)
    requires v < MAXVPN
    ensures Px(2, v) < TOP
  {
  }

  // ---------------------------------------------------------------- what pages are used for

  datatype Place =
    | Free
    | Held                           // allocated, not in any table
    | Root
    | Mid(root: nat, i: nat)         // the table at entry i of a root
    | Low(root: nat, i: nat, j: nat) // the table at entry j of that
    | User(root: nat, vpn: nat)      // a page of user memory

  predicate IsRoot(place: map<nat, Place>, r: nat) { r in place && place[r] == Root }

  predicate IsTable(u: Place) { u.Root? || u.Mid? || u.Low? }

  /** What an entry at this level may be: empty, or a pointer to the table that is there. */
  predicate PointsTo(place: map<nat, Place>, pte: nat, what: Place) {
    IsValid(pte) ==> pte == Pointer(Ppn(pte)) && Ppn(pte) in place && place[Ppn(pte)] == what
  }

  /** A page is what its place says. */
  predicate UseGood(mem: Mem, place: map<nat, Place>, free: seq<nat>, p: nat)
    requires p in mem && p in place
  {
    match place[p]
    case Free => p in free
    case Held => true
    case Root => forall i :: 0 <= i < ENTRIES ==> PointsTo(place, mem[p][i], Mid(p, i))
    case Mid(r, i) =>
      i < TOP && r in mem && IsRoot(place, r) && mem[r][i] == Pointer(p) &&
      forall j :: 0 <= j < ENTRIES ==> PointsTo(place, mem[p][j], Low(r, i, j))
    case Low(r, i, j) =>
      i < TOP && j < ENTRIES && IsRoot(place, r) && Table(mem, r, i) in mem &&
      mem[Table(mem, r, i)][j] == Pointer(p) &&
      forall k :: 0 <= k < ENTRIES ==> EntryGood(mem[p][k])
    case User(r, v) =>
      v < MAXVPN && IsRoot(place, r) && Mapped(mem, r, v) && Ppn(Pte(mem, r, v)) == p
  }

  predicate PageGood(mem: Mem, place: map<nat, Place>, free: seq<nat>, p: nat) {
    (p in mem <==> p in place) && (p in free ==> p in place && place[p] == Free) &&
    (p in mem ==> p != 0 && UseGood(mem, place, free, p))
  }

  ghost predicate Good(mem: Mem, place: map<nat, Place>, free: seq<nat>) {
    (forall p: nat :: PageGood(mem, place, free, p)) &&
    forall i, j :: 0 <= i < j < |free| ==> free[i] != free[j]
  }

  // ---------------------------------------------------------------- the flat view

  /** The table an entry points to, or 0. */
  function Table(mem: Mem, p: nat, i: nat): nat
    requires i < ENTRIES
  {
    if p in mem && IsValid(mem[p][i]) then Ppn(mem[p][i]) else 0
  }

  /** The entry for page number v, or 0 where there is no table for it. */
  function Pte(mem: Mem, root: nat, v: nat): nat {
    var low := Table(mem, Table(mem, root, Px(2, v)), Px(1, v));
    if low in mem then mem[low][Px(0, v)] else 0
  }

  predicate Mapped(mem: Mem, root: nat, v: nat) { IsValid(Pte(mem, root, v)) }

  /** The tables on the way to v, as far as they exist. */
  predicate PathGood(mem: Mem, place: map<nat, Place>, root: nat, v: nat) {
    var mid := Table(mem, root, Px(2, v));
    var low := Table(mem, mid, Px(1, v));
    root in mem && 0 !in mem && (mid != 0 <==> IsValid(mem[root][Px(2, v)])) &&
    (mid != 0 ==> mid in mem && mid in place && place[mid] == Mid(root, Px(2, v)) &&
                  (low != 0 <==> IsValid(mem[mid][Px(1, v)]))) &&
    (low != 0 ==> low in mem && low in place && place[low] == Low(root, Px(2, v), Px(1, v)))
  }

  lemma OnPath(mem: Mem, place: map<nat, Place>, free: seq<nat>, root: nat, v: nat)
    requires Good(mem, place, free) && IsRoot(place, root)
    ensures PathGood(mem, place, root, v)
  {
    assert PageGood(mem, place, free, root) && PageGood(mem, place, free, 0);
    var mid := Table(mem, root, Px(2, v));
    assert PointsTo(place, mem[root][Px(2, v)], Mid(root, Px(2, v)));
    assert PageGood(mem, place, free, mid);
    if mid in mem {
      assert PointsTo(place, mem[mid][Px(1, v)], Low(root, Px(2, v), Px(1, v)));
      assert PageGood(mem, place, free, Table(mem, mid, Px(1, v)));
    }
  }

  lemma LowParent(mem: Mem, place: map<nat, Place>, free: seq<nat>, q: nat)
    requires Good(mem, place, free) && q in mem && q in place && place[q].Low?
    ensures var u := place[q]; u.i < TOP && u.j < ENTRIES && u.root in mem && IsRoot(place, u.root)
    ensures var u := place[q]; var mid := Table(mem, u.root, u.i);
            mid in mem && mid in place && place[mid] == Mid(u.root, u.i) && mem[mid][u.j] == Pointer(q)
  {
    var r, i := place[q].root, place[q].i;
    assert PageGood(mem, place, free, q) && PageGood(mem, place, free, r) && PageGood(mem, place, free, 0);
    assert PointsTo(place, mem[r][i], Mid(r, i));
  }

  /** No table hangs from two entries, of the same table or of different ones, and none is a root. */
  lemma Unshared(mem: Mem, place: map<nat, Place>, free: seq<nat>, p: nat, k: nat, q: nat, l: nat)
    requires Good(mem, place, free) && p in mem && p in place && (place[p].Root? || place[p].Mid?) && k < ENTRIES
    requires q in mem && q in place && (place[q].Root? || place[q].Mid?) && l < ENTRIES
    requires IsValid(mem[p][k]) && IsValid(mem[q][l]) && Ppn(mem[p][k]) == Ppn(mem[q][l])
    ensures p == q && k == l && !IsRoot(place, Ppn(mem[p][k]))
  {
    assert PageGood(mem, place, free, p) && PageGood(mem, place, free, q);
    assert PointsTo(place, mem[p][k], Child(place[p], p, k)) && PointsTo(place, mem[q][l], Child(place[q], q, l));
  }

  lemma Accounted(mem: Mem, place: map<nat, Place>, free: seq<nat>)
    requires Good(mem, place, free)
    ensures 0 !in mem && forall p: nat :: p in mem <==> p in place
    ensures forall p: nat :: p in free <==> p in place && place[p] == Free
  {
    assert PageGood(mem, place, free, 0);
    forall p: nat ensures (p in mem <==> p in place) && (p in free <==> p in place && place[p] == Free) {
      assert PageGood(mem, place, free, p);
    }
  }

  // ---------------------------------------------------------------- writes outside the tables

  ghost predicate TablesKept(mem: Mem, mem': Mem, place: map<nat, Place>) {
    (forall p: nat :: p in mem <==> p in mem') &&
    forall p: nat :: p in mem && p in place && IsTable(place[p]) ==> mem'[p] == mem[p]
  }

  /** The view depends on the tables alone. */
  lemma KeptPte(mem: Mem, place: map<nat, Place>, free: seq<nat>, mem': Mem, root: nat, v: nat)
    requires Good(mem, place, free) && TablesKept(mem, mem', place) && IsRoot(place, root)
    ensures Pte(mem', root, v) == Pte(mem, root, v)
  {
    OnPath(mem, place, free, root, v);
    var mid := Table(mem, root, Px(2, v));
    assert Table(mem', root, Px(2, v)) == mid;
    assert Table(mem', mid, Px(1, v)) == Table(mem, mid, Px(1, v));
  }

  /** A page changes hands without touching the tables. */
  predicate HandOver(mem: Mem, u: Place, u': Place, p: nat, place: map<nat, Place>, free': seq<nat>) {
    (IsTable(u) || IsTable(u') ==> u' == u) && (u'.Free? <==> p in free') &&
    (u'.User? ==> u' == u ||
                  (u'.vpn < MAXVPN && IsRoot(place, u'.root) && Mapped(mem, u'.root, u'.vpn) &&
                   Ppn(Pte(mem, u'.root, u'.vpn)) == p))
  }

  lemma KeptGood(mem: Mem, place: map<nat, Place>, free: seq<nat>, mem': Mem, place': map<nat, Place>, free': seq<nat>)
    requires Good(mem, place, free) && TablesKept(mem, mem', place)
    requires forall p: nat :: p in place' <==> p in place
    requires forall p: nat :: p in free' ==> p in place
    requires forall p: nat :: p in place ==> HandOver(mem, place[p], place'[p], p, place, free')
    requires forall i, j :: 0 <= i < j < |free'| ==> free'[i] != free'[j]
    ensures Good(mem', place', free')
  {
    forall p: nat ensures PageGood(mem', place', free', p) {
      assert PageGood(mem, place, free, p);
      if p in mem {
        assert HandOver(mem, place[p], place'[p], p, place, free');
        match place'[p]
        case Free =>
        case Held =>
        case Root =>
          forall i | 0 <= i < ENTRIES ensures PointsTo(place', mem'[p][i], Mid(p, i)) {
            assert PointsTo(place, mem[p][i], Mid(p, i));
          }
        case Mid(r, i) =>
          forall j | 0 <= j < ENTRIES ensures PointsTo(place', mem'[p][j], Low(r, i, j)) {
            assert PointsTo(place, mem[p][j], Low(r, i, j));
          }
          assert mem'[r] == mem[r];
        case Low(r, i, j) =>
          var mid := Table(mem, r, i);
          assert PageGood(mem, place, free, r) && PageGood(mem, place, free, mid);
          assert PointsTo(place, mem[r][i], Mid(r, i));
          assert mem'[r] == mem[r] && mem'[mid] == mem[mid];
        case User(r, v) =>
          KeptPte(mem, place, free, mem', r, v);
      }
    }
  }

  // ---------------------------------------------------------------- writing entries

  function SetEntry(mem: Mem, p: nat, k: nat, x: nat): Mem
    requires p in mem && k < ENTRIES
  {
    mem[p := mem[p][k := x]]
  }

  /** Writing an entry of a lowest-level table changes the view at that one page number of that one table. */
  lemma SetLowPte(mem: Mem, place: map<nat, Place>, free: seq<nat>, p: nat, k: nat, x: nat, root: nat, v: nat)
    requires Good(mem, place, free) && p in mem && p in place && place[p].Low? && k < ENTRIES && IsRoot(place, root)
    ensures var q := place[p];
            Pte(SetEntry(mem, p, k, x), root, v) ==
            if root == q.root && Px(2, v) == q.i && Px(1, v) == q.j && Px(0, v) == k then x else Pte(mem, root, v)
  {
    OnPath(mem, place, free, root, v);
    assert PageGood(mem, place, free, p);
    var mem' := SetEntry(mem, p, k, x);
    var mid := Table(mem, root, Px(2, v));
    assert Table(mem', root, Px(2, v)) == mid;
    assert Table(mem', mid, Px(1, v)) == Table(mem, mid, Px(1, v));
  }

  /** Setting or clearing a lowest-level entry keeps the tables good, unless it takes a user page's mapping away. */
  lemma SetLowGood(mem: Mem, place: map<nat, Place>, free: seq<nat>, p: nat, k: nat, x: nat, w: nat)
    requires Good(mem, place, free) && p in mem && p in place && place[p].Low? && k < ENTRIES && EntryGood(x)
    requires w < MAXVPN && Px(0, w) == k && Px(1, w) == place[p].j && Px(2, w) == place[p].i
    requires forall q: nat :: q in place ==> place[q] != User(place[p].root, w)
    ensures Good(SetEntry(mem, p, k, x), place, free)
  {
    var mem' := SetEntry(mem, p, k, x);
    forall q: nat ensures PageGood(mem', place, free, q) {
      assert PageGood(mem, place, free, q);
      if q in mem {
        if place[q].User? {
          SetLowPte(mem, place, free, p, k, x, place[q].root, place[q].vpn);
          if Px(0, place[q].vpn) == k && Px(1, place[q].vpn) == Px(1, w) && Px(2, place[q].vpn) == Px(2, w) {
            PxUnique(place[q].vpn, w);
          }
        } else if place[q].Low? {
          SetLowKeepsLow(mem, place, free, p, k, x, q);
        }
      }
    }
  }

  lemma SetLowKeepsLow(mem: Mem, place: map<nat, Place>, free: seq<nat>, p: nat, k: nat, x: nat, q: nat)
    requires Good(mem, place, free) && p in mem && p in place && place[p].Low? && k < ENTRIES && EntryGood(x)
    requires q in mem && q in place && place[q].Low?
    ensures PageGood(SetEntry(mem, p, k, x), place, free, q)
  {
    var mem' := SetEntry(mem, p, k, x);
    assert PageGood(mem, place, free, q);
    var r, i := place[q].root, place[q].i;
    var mid := Table(mem, r, i);
    LowParent(mem, place, free, q);
    assert mem'[r] == mem[r] && mem'[mid] == mem[mid];
    assert Table(mem', r, i) == mid;
    forall k' | 0 <= k' < ENTRIES ensures EntryGood(mem'[q][k']) {
      assert mem'[q][k'] == x || mem'[q][k'] == mem[q][k'];
    }
  }

  /** Hanging an empty table below an empty entry of a root or middle table changes nothing in the view. */
  lemma LinkPte(mem: Mem, place: map<nat, Place>, free: seq<nat>, p: nat, k: nat, q: nat, root: nat, v: nat)
    requires Good(mem, place, free) && p in mem && p in place && (place[p].Root? || place[p].Mid?) && k < ENTRIES
    requires q in mem && q in place && place[q] == Held && mem[q] == Filled(0) && !IsValid(mem[p][k]) &&
             IsRoot(place, root)
    ensures Pte(SetEntry(mem, p, k, Pointer(q)), root, v) == Pte(mem, root, v)
  {
    OnPath(mem, place, free, root, v);
    var mem' := SetEntry(mem, p, k, Pointer(q));
    var mid, mid' := Table(mem, root, Px(2, v)), Table(mem', root, Px(2, v));
    assert 0 !in mem';
    if mid' != mid {
      assert mid' == q && mem'[q] == Filled(0);
    }
  }

  /** The place of the table that entry k of this table leads to. */
  function Child(u: Place, p: nat, k: nat): Place
    requires u.Root? || u.Mid?
  {
    if u.Root? then Mid(p, k) else Low(u.root, u.i, k)
  }

  lemma LinkGood(mem: Mem, place: map<nat, Place>, free: seq<nat>, p: nat, k: nat, q: nat)
    requires Good(mem, place, free) && p in mem && p in place && (place[p].Root? || place[p].Mid?)
    requires k < ENTRIES && (place[p].Root? ==> k < TOP)
    requires q in mem && q in place && place[q] == Held && mem[q] == Filled(0) && !IsValid(mem[p][k])
    ensures Good(SetEntry(mem, p, k, Pointer(q)), place[q := Child(place[p], p, k)], free)
  {
    var mem', place' := SetEntry(mem, p, k, Pointer(q)), place[q := Child(place[p], p, k)];
    assert PageGood(mem, place, free, p) && PageGood(mem, place, free, q) && PageGood(mem, place, free, 0);
    forall x: nat ensures PageGood(mem', place', free, x) {
      assert PageGood(mem, place, free, x);
      if x in mem {
        if x == q {
          LinkedTable(mem, place, free, p, k, q);
        } else if place[x].User? {
          LinkPte(mem, place, free, p, k, q, place[x].root, place[x].vpn);
        } else if IsTable(place[x]) {
          LinkKeepsTable(mem, place, free, p, k, q, x);
        }
      }
    }
  }

  lemma LinkedTable(mem: Mem, place: map<nat, Place>, free: seq<nat>, p: nat, k: nat, q: nat)
    requires Good(mem, place, free) && p in mem && p in place && (place[p].Root? || place[p].Mid?)
    requires k < ENTRIES && (place[p].Root? ==> k < TOP)
    requires q in mem && q in place && place[q] == Held && mem[q] == Filled(0) && !IsValid(mem[p][k])
    ensures PageGood(SetEntry(mem, p, k, Pointer(q)), place[q := Child(place[p], p, k)], free, q)
  {
    var mem', place' := SetEntry(mem, p, k, Pointer(q)), place[q := Child(place[p], p, k)];
    assert PageGood(mem, place, free, p) && PageGood(mem, place, free, q);
    assert mem'[q] == Filled(0);
    if place[p].Mid? {
      assert Table(mem', place[p].root, place[p].i) == p;
    }
  }

  lemma LinkKeepsTable(mem: Mem, place: map<nat, Place>, free: seq<nat>, p: nat, k: nat, q: nat, x: nat)
    requires Good(mem, place, free) && p in mem && p in place && (place[p].Root? || place[p].Mid?)
    requires k < ENTRIES && (place[p].Root? ==> k < TOP)
    requires q in mem && q in place && place[q] == Held && mem[q] == Filled(0) && !IsValid(mem[p][k])
    requires x in mem && x in place && IsTable(place[x])
    ensures PageGood(SetEntry(mem, p, k, Pointer(q)), place[q := Child(place[p], p, k)], free, x)
  {
    var mem', place' := SetEntry(mem, p, k, Pointer(q)), place[q := Child(place[p], p, k)];
    assert PageGood(mem, place, free, x) && PageGood(mem, place, free, q) && PageGood(mem, place, free, 0);
    match place[x]
    case Root =>
      forall i | 0 <= i < ENTRIES ensures PointsTo(place', mem'[x][i], Mid(x, i)) {
        assert PointsTo(place, mem[x][i], Mid(x, i));
      }
    case Mid(r, i) =>
      forall j | 0 <= j < ENTRIES ensures PointsTo(place', mem'[x][j], Low(r, i, j)) {
        assert PointsTo(place, mem[x][j], Low(r, i, j));
      }
    case Low(r, i, j) =>
      assert PageGood(mem, place, free, r);
      assert PointsTo(place, mem[r][i], Mid(r, i));
  }

  // ---------------------------------------------------------------- what an operation leaves alone

  predicate SamePte(mem: Mem, mem': Mem, r: nat, v: nat) { Pte(mem', r, v) == Pte(mem, r, v) }

  ghost predicate SameView(mem: Mem, mem': Mem, place: map<nat, Place>) {
    forall r: nat, v: nat :: IsRoot(place, r) ==> SamePte(mem, mem', r, v)
  }

  lemma SameViewTransitive(mem: Mem, mem1: Mem, mem2: Mem, place: map<nat, Place>, place1: map<nat, Place>)
    requires SameView(mem, mem1, place) && SameView(mem1, mem2, place1)
    requires forall r: nat :: IsRoot(place, r) ==> IsRoot(place1, r)
    ensures SameView(mem, mem2, place)
  {
    forall r: nat, v: nat | IsRoot(place, r) ensures SamePte(mem, mem2, r, v) {
      assert SamePte(mem, mem1, r, v) && SamePte(mem1, mem2, r, v);
    }
  }

  /** The view changed at most at page numbers lo..hi of one table. */
  ghost predicate SameOutside(mem: Mem, mem': Mem, place: map<nat, Place>, root: nat, lo: nat, hi: nat) {
    forall r: nat, v: nat :: IsRoot(place, r) && v < MAXVPN && !(r == root && lo <= v < hi) ==> SamePte(mem, mem', r, v)
  }

  /** A table below this root, or one of its user pages lo..hi. */
  predicate Within(u: Place, root: nat, lo: nat, hi: nat) {
    ((u.Mid? || u.Low?) && u.root == root) || (u.User? && u.root == root && lo <= u.vpn < hi)
  }

  predicate PageKept(mem: Mem, place: map<nat, Place>, mem': Mem, place': map<nat, Place>, root: nat, lo: nat, hi: nat,
                     p: nat) {
    (p in mem <==> p in mem') && (p in place <==> p in place') &&
    (p in mem && p in place ==>
       (place'[p] == place[p] && (place[p].Held? || place[p].User? ==> mem'[p] == mem[p])) ||
       (place[p] == Free && Within(place'[p], root, lo, hi)))
  }

  /** Nothing but free pages changed hands: they became tables below this root or its user pages lo..hi. */
  ghost predicate Grown(mem: Mem, place: map<nat, Place>, mem': Mem, place': map<nat, Place>, root: nat, lo: nat,
                        hi: nat) {
    forall p: nat :: PageKept(mem, place, mem', place', root, lo, hi, p)
  }

  lemma GrownTransitive(mem: Mem, place: map<nat, Place>, mem1: Mem, place1: map<nat, Place>, mem2: Mem,
                        place2: map<nat, Place>, root: nat, lo: nat, hi: nat)
    requires Grown(mem, place, mem1, place1, root, lo, hi) && Grown(mem1, place1, mem2, place2, root, lo, hi)
    ensures Grown(mem, place, mem2, place2, root, lo, hi)
  {
    forall p: nat ensures PageKept(mem, place, mem2, place2, root, lo, hi, p) {
      assert PageKept(mem, place, mem1, place1, root, lo, hi, p) &&
             PageKept(mem1, place1, mem2, place2, root, lo, hi, p);
    }
  }

  lemma OutsideExtend(mem: Mem, mem1: Mem, mem2: Mem, place: map<nat, Place>, place1: map<nat, Place>, root: nat,
                      lo: nat, mid: nat, hi: nat)
    requires SameOutside(mem, mem1, place, root, lo, mid) && SameOutside(mem1, mem2, place1, root, mid, hi) &&
             lo <= mid <= hi
    requires forall r: nat :: IsRoot(place, r) ==> IsRoot(place1, r)
    ensures SameOutside(mem, mem2, place, root, lo, hi)
  {
    forall r: nat, v: nat | IsRoot(place, r) && v < MAXVPN && !(r == root && lo <= v < hi)
      ensures SamePte(mem, mem2, r, v)
    {
      assert SamePte(mem, mem1, r, v) && SamePte(mem1, mem2, r, v);
    }
  }

  /** Page numbers lo..hi map consecutive pages from ppn on. */
  ghost predicate MapsRange(mem: Mem, root: nat, lo: nat, hi: nat, ppn: nat, perm: nat)
    requires perm < 1024
  {
    forall w: nat :: lo <= w < hi ==> Pte(mem, root, w) == MakePte(ppn + w - lo, perm)
  }

  lemma RangeExtend(mem: Mem, mem': Mem, place: map<nat, Place>, root: nat, lo: nat, m: nat, ppn: nat, perm: nat)
    requires perm < 1024 && lo <= m < MAXVPN && MapsRange(mem, root, lo, m, ppn, perm) && IsRoot(place, root)
    requires SameOutside(mem, mem', place, root, m, m + 1) && Pte(mem', root, m) == MakePte(ppn + m - lo, perm)
    ensures MapsRange(mem', root, lo, m + 1, ppn, perm)
  {
    forall w: nat | lo <= w < m + 1 ensures Pte(mem', root, w) == MakePte(ppn + w - lo, perm) {
      if w < m {
        assert SamePte(mem, mem', root, w);
      }
    }
  }

  lemma RangeKept(mem: Mem, mem': Mem, place: map<nat, Place>, root: nat, lo: nat, m: nat, ppn: nat, perm: nat)
    requires perm < 1024 && MapsRange(mem, root, lo, m, ppn, perm) && IsRoot(place, root) && SameView(mem, mem', place)
    ensures MapsRange(mem', root, lo, m, ppn, perm)
  {
    forall w: nat | lo <= w < m ensures Pte(mem', root, w) == MakePte(ppn + w - lo, perm) {
      assert SamePte(mem, mem', root, w);
    }
  }

  lemma OutsideKept(mem: Mem, mem1: Mem, mem2: Mem, place: map<nat, Place>, place1: map<nat, Place>, root: nat, lo: nat,
                    hi: nat)
    requires SameOutside(mem, mem1, place, root, lo, hi) && SameView(mem1, mem2, place1)
    requires forall r: nat :: IsRoot(place, r) ==> IsRoot(place1, r)
    ensures SameOutside(mem, mem2, place, root, lo, hi)
  {
    forall r: nat, v: nat | IsRoot(place, r) && v < MAXVPN && !(r == root && lo <= v < hi)
      ensures SamePte(mem, mem2, r, v)
    {
      assert SamePte(mem, mem1, r, v) && SamePte(mem1, mem2, r, v);
    }
  }

  lemma NoUser(mem: Mem, place: map<nat, Place>, free: seq<nat>, root: nat, w: nat)
    requires Good(mem, place, free) && !Mapped(mem, root, w)
    ensures forall q: nat :: q in place ==> place[q] != User(root, w)
  {
    forall q: nat | q in place ensures place[q] != User(root, w) {
      assert PageGood(mem, place, free, q);
    }
  }

  // ---------------------------------------------------------------- the free list

  const FREED: nat := 0x0101_0101_0101_0101
  const FRESH: nat := 0x0505_0505_0505_0505

  function NextFree(free: seq<nat>, i: nat): nat {
    if i < |free| then free[i] else 0
  }

  /** The free pages form a list through their first words. */
  ghost predicate Linked(mem: Mem, head: nat, free: seq<nat>) {
    head == NextFree(free, 0) &&
    forall i :: 0 <= i < |free| ==> free[i] in mem && mem[free[i]][0] == NextFree(free, i + 1)
  }

  lemma LinkedKept(mem: Mem, place: map<nat, Place>, free: seq<nat>, mem': Mem, head: nat)
    requires Good(mem, place, free) && Linked(mem, head, free)
    requires forall p: nat :: p in place && place[p] == Free && p in mem ==> p in mem' && mem'[p] == mem[p]
    ensures Linked(mem', head, free)
  {
    forall i | 0 <= i < |free| ensures free[i] in mem' && mem'[free[i]] == mem[free[i]] {
      assert PageGood(mem, place, free, free[i]);
    }
  }

  function Freed(mem: Mem, head: nat, p: nat): Mem { mem[p := Filled(FREED)[0 := head]] }

  lemma SameViewKept(mem: Mem, place: map<nat, Place>, free: seq<nat>, mem': Mem)
    requires Good(mem, place, free) && TablesKept(mem, mem', place)
    ensures SameView(mem, mem', place)
  {
    forall r: nat, v: nat | IsRoot(place, r) ensures SamePte(mem, mem', r, v) {
      KeptPte(mem, place, free, mem', r, v);
    }
  }

  lemma FreeGood(mem: Mem, place: map<nat, Place>, free: seq<nat>, head: nat, p: nat)
    requires Good(mem, place, free) && p in mem && p in place && (place[p].Held? || place[p].User?)
    ensures TablesKept(mem, Freed(mem, head, p), place) && Good(Freed(mem, head, p), place[p := Free], [p] + free)
  {
    var place', free' := place[p := Free], [p] + free;
    Accounted(mem, place, free);
    forall q: nat | q in place ensures HandOver(mem, place[q], place'[q], q, place, free') {
      assert q in free' <==> q == p || q in free;
    }
    KeptGood(mem, place, free, Freed(mem, head, p), place', free');
  }

  lemma FreeLinked(mem: Mem, place: map<nat, Place>, free: seq<nat>, head: nat, p: nat)
    requires Good(mem, place, free) && Linked(mem, head, free) && p in mem && p in place &&
             (place[p].Held? || place[p].User?)
    ensures Linked(Freed(mem, head, p), p, [p] + free)
  {
    var mem', free' := Freed(mem, head, p), [p] + free;
    forall i | 0 <= i < |free'| ensures free'[i] in mem' && mem'[free'[i]][0] == NextFree(free', i + 1) {
      if i > 0 {
        assert free'[i] == free[i - 1];
        assert PageGood(mem, place, free, free[i - 1]);
      }
    }
  }

  lemma InTail(free: seq<nat>, q: nat)
    requires free != []
    ensures q in free <==> q == free[0] || q in free[1..]
  {
    assert free == [free[0]] + free[1..];
  }

  lemma TailDistinct(free: seq<nat>)
    requires free != [] && forall i, j :: 0 <= i < j < |free| ==> free[i] != free[j]
    ensures free[0] !in free[1..] && forall i, j :: 0 <= i < j < |free[1..]| ==> free[1..][i] != free[1..][j]
  {
    forall i, j | 0 <= i < j < |free[1..]| ensures free[1..][i] != free[1..][j] {
      assert free[1..][i] == free[i + 1] && free[1..][j] == free[j + 1];
    }
  }

  lemma FreeAt(mem: Mem, place: map<nat, Place>, free: seq<nat>, q: nat)
    requires Good(mem, place, free)
    ensures (q in mem <==> q in place) && (q in free <==> q in place && place[q] == Free)
  {
    assert PageGood(mem, place, free, q);
  }

  /** The first free page leaves the list. */
  lemma TakeGood(mem: Mem, place: map<nat, Place>, free: seq<nat>, head: nat, page: Page)
    requires Good(mem, place, free) && free != [] && head == free[0]
    ensures head in mem && head in place && place[head] == Free && TablesKept(mem, mem[head := page], place)
    ensures Good(mem[head := page], place[head := Held], free[1..])
  {
    var place', free' := place[head := Held], free[1..];
    TailDistinct(free);
    hide Good, PageGood, Pte;
    FreeAt(mem, place, free, head);
    forall q: nat ensures (q in free' ==> q in place) && (q in place' <==> q in place) {
      InTail(free, q);
      FreeAt(mem, place, free, q);
    }
    forall q: nat | q in place ensures HandOver(mem, place[q], place'[q], q, place, free') {
      InTail(free, q);
      FreeAt(mem, place, free, q);
    }
    KeptGood(mem, place, free, mem[head := page], place', free');
  }

  lemma AllocGood(mem: Mem, place: map<nat, Place>, free: seq<nat>, head: nat, page: Page)
    requires Good(mem, place, free) && Linked(mem, head, free) && head != 0
    ensures free != [] && head == free[0] && head in mem && head in place && place[head] == Free
    ensures TablesKept(mem, mem[head := page], place)
    ensures Good(mem[head := page], place[head := Held], free[1..])
  {
    hide Good, TablesKept;
    TakeGood(mem, place, free, head, page);
  }

  lemma AllocLinked(mem: Mem, head: nat, free: seq<nat>, page: Page)
    requires Linked(mem, head, free) && head != 0
    requires forall i, j :: 0 <= i < j < |free| ==> free[i] != free[j]
    ensures head in mem && Linked(mem[head := page], mem[head][0], free[1..])
  {
    var mem', free' := mem[head := page], free[1..];
    forall i | 0 <= i < |free'| ensures free'[i] in mem' && mem'[free'[i]][0] == NextFree(free', i + 1) {
      assert free'[i] == free[i + 1];
    }
  }

  lemma NothingPlaced(mem: Mem, place: map<nat, Place>)
    requires 0 !in mem && place == map p | p in mem :: Held
    ensures Good(mem, place, []) && Linked(mem, 0, [])
  {
  }

  /** PGROUNDUP, in pages */
  function RoundedUp(pa: nat): nat { (pa + PGSIZE - 1) / PGSIZE }

  /** Whole pages: those from pa on, and those below it. */
  lemma WholePages(pa: nat, p: nat)
    ensures RoundedUp(pa) <= p <==> pa <= p * 4096
    ensures p < pa / PGSIZE <==> p * 4096 + 4096 <= pa
  {
  }

  ghost predicate AllHeld(mem: Mem, place: map<nat, Place>, lo: nat, hi: nat) {
    forall p: nat :: lo <= p < hi ==> p in mem && p in place && place[p] == Held
  }

  /** The pages from lo below hi are free, the others are as they were. */
  function FreeBetween(place: map<nat, Place>, lo: nat, hi: nat): map<nat, Place> {
    map p | p in place :: if lo <= p < hi then Free else place[p]
  }

  lemma FreeNone(place: map<nat, Place>, lo: nat, hi: nat)
    requires hi <= lo
    ensures FreeBetween(place, lo, hi) == place
  {
  }

  lemma FreeNext(place: map<nat, Place>, lo: nat, n: nat, next: nat)
    requires lo <= n && next == n + 1 && n in place
    ensures FreeBetween(place, lo, next) == FreeBetween(place, lo, n)[n := Free]
  {
  }

  lemma RootsStay(mem: Mem, place: map<nat, Place>, lo: nat, n: nat, hi: nat)
    requires AllHeld(mem, place, lo, hi) && n <= hi
    ensures forall r: nat :: IsRoot(place, r) ==> IsRoot(FreeBetween(place, lo, n), r)
  {
  }

  lemma SameViewSelf(mem: Mem, place: map<nat, Place>)
    ensures SameView(mem, mem, place)
  {
  }

  class Machine {
    var mem: Mem
    var freelist: nat
    ghost var free: seq<nat>
    ghost var place: map<nat, Place>

    ghost predicate Valid() reads this {
      Good(mem, place, free) && Linked(mem, freelist, free)
    }

    /** The machine before kinit: no page is on the free list or in a table. */
    constructor (mem: Mem)
      requires 0 !in mem
      ensures Valid() && this.mem == mem && freelist == 0 && free == [] && place == map p | p in mem :: Held
    {
      this.mem := mem;
      freelist := 0;
      free := [];
      place := map p | p in mem :: Held;
      new;
      NothingPlaced(mem, place);
    }

    /** kfree */
    method Kfree(p: nat)
      requires Valid() && p in mem && p in place && (place[p].Held? || place[p].User?)
      modifies this
      ensures Valid() && place == old(place)[p := Free] && free == [p] + old(free)
      ensures mem == Freed(old(mem), old(freelist), p)
      ensures SameView(old(mem), mem, old(place))
    {
      FreeGood(mem, place, free, freelist, p);
      FreeLinked(mem, place, free, freelist, p);
      SameViewKept(mem, place, free, Freed(mem, freelist, p));
      mem := mem[p := Filled(FREED)];
      mem := mem[p := mem[p][0 := freelist]];
      freelist := p;
      assert mem == Freed(old(mem), old(freelist), p);
      place := place[p := Free];
      free := [p] + free;
    }

    /** kalloc */
    method Kalloc() returns (p: nat)
      requires Valid()
      modifies this
      ensures Valid()
      ensures p == 0 <==> old(free) == []
      ensures p == 0 ==> mem == old(mem) && place == old(place) && free == old(free)
      ensures p != 0 ==> p in old(mem) && p in old(place) && old(place)[p] == Free &&
                         mem == old(mem)[p := Filled(FRESH)] && place == old(place)[p := Held] && free == old(free)[1..]
      ensures SameView(old(mem), mem, old(place))
    {
      p := freelist;
      if p != 0 {
        AllocGood(mem, place, free, freelist, Filled(FRESH));
        AllocLinked(mem, freelist, free, Filled(FRESH));
        SameViewKept(mem, place, free, mem[p := Filled(FRESH)]);
        freelist := mem[p][0];
        place := place[p := Held];
        free := free[1..];
        mem := mem[p := Filled(FRESH)];
      } else {
        Accounted(mem, place, free);
      }
    }

    /** freerange */
    method Freerange(paStart: nat, paEnd: nat)
      requires Valid() && AllHeld(mem, place, RoundedUp(paStart), paEnd / PGSIZE)
      modifies this
      ensures Valid() && mem.Keys == old(mem).Keys && SameView(old(mem), mem, old(place))
      ensures place == FreeBetween(old(place), RoundedUp(paStart), paEnd / PGSIZE)
    {
      hide Good, Linked, SameView;
      var p := (paStart + PGSIZE - 1) / PGSIZE * PGSIZE;
      ghost var lo := RoundedUp(paStart);
      ghost var n: nat := lo;
      FreeNone(place, lo, lo);
      SameViewSelf(mem, place);
      while p + PGSIZE <= paEnd
        invariant Valid() && p == n * PGSIZE && lo <= n && mem.Keys == old(mem).Keys
        invariant place == FreeBetween(old(place), lo, n) && SameView(old(mem), mem, old(place))
        invariant n <= paEnd / PGSIZE || n == lo
      {
        assert n < paEnd / PGSIZE && p / PGSIZE == n;
        ghost var mem0, place0 := mem, place;
        Kfree(p / PGSIZE);
        FreeNext(old(place), lo, n, n + 1);
        RootsStay(old(mem), old(place), lo, n, paEnd / PGSIZE);
        SameViewTransitive(old(mem), mem0, mem, old(place), place0);
        p := p + PGSIZE;
        n := n + 1;
      }
      assert n == paEnd / PGSIZE || n == lo > paEnd / PGSIZE;
      if n == lo {
        FreeNone(old(place), lo, paEnd / PGSIZE);
      }
    }

    /** memset or memmove over a page that is in no table. */
    method Fill(p: nat, page: Page)
      requires Valid() && p in mem && p in place && place[p] == Held
      modifies this
      ensures Valid() && mem == old(mem)[p := page] && place == old(place) && free == old(free) &&
              freelist == old(freelist)
      ensures SameView(old(mem), mem, place)
    {
      FillGood(mem, place, free, freelist, p, page);
      SameViewKept(mem, place, free, mem[p := page]);
      mem := mem[p := page];
    }

    /** An empty table hung below entry k of a table, out of walk's loop. */
    method NewTable(p: nat, k: nat) returns (q: nat)
      requires Valid() && p in mem && p in place && (place[p].Root? || place[p].Mid?)
      requires k < ENTRIES && (place[p].Root? ==> k < TOP) && !IsValid(mem[p][k])
      modifies this
      ensures Valid() && SameView(old(mem), mem, old(place))
      ensures q == 0 ==> mem == old(mem) && place == old(place) && free == old(free) == []
      ensures |free| <= |old(free)| <= |free| + 1
      ensures q != 0 ==> q in old(place) && old(place)[q] == Free &&
                         place == old(place)[q := Child(old(place)[p], p, k)] &&
                         q in old(mem) && mem == SetEntry(old(mem)[q := Filled(0)], p, k, Pointer(q))
    {
      q := Kalloc();
      if q == 0 {
        return;
      }
      ghost var mem1 := mem;
      Fill(q, Filled(0));
      SameViewTransitive(old(mem), mem1, mem, old(place), place);
      mem1 := mem;
      assert mem == old(mem)[q := Filled(0)];
      LinkStep(mem, place, free, freelist, p, k, q);
      SameViewTransitive(old(mem), mem, SetEntry(mem, p, k, Pointer(q)), old(place), place);
      mem := SetEntry(mem, p, k, Pointer(q));
      place := place[q := Child(place[p], p, k)];
    }

    /** walk: the lowest-level table holding the entry for v, or 0. */
    method Walk(root: nat, v: nat, alloc: bool) returns (low: nat)
      requires Valid() && IsRoot(place, root) && v < MAXVPN
      modifies this
      ensures Valid() && IsRoot(place, root) && SameView(old(mem), mem, old(place))
      ensures Grown(old(mem), old(place), mem, place, root, 0, 0)
      ensures low != 0 ==> OnLevel(mem, place, root, v, 0, low) && mem[low][Px(0, v)] == Pte(mem, root, v)
      ensures low == 0 ==> Pte(mem, root, v) == 0 && (alloc ==> free == [])
      ensures |free| <= |old(free)| <= |free| + 2
      ensures !alloc ==> mem == old(mem) && place == old(place) && free == old(free) && freelist == old(freelist)
    {
      var pt, level := root, 2;
      Accounted(mem, place, free);
      while level > 0
        invariant 0 <= level <= 2 && Valid() && IsRoot(place, root) && root in mem && 0 !in mem
        invariant SameView(old(mem), mem, old(place)) && forall r: nat :: IsRoot(old(place), r) ==> IsRoot(place, r)
        invariant Grown(old(mem), old(place), mem, place, root, 0, 0)
        invariant OnLevel(mem, place, root, v, level, pt) && |free| <= |old(free)| <= |free| + 2 - level
        invariant !alloc ==> mem == old(mem) && place == old(place) && free == old(free) && freelist == old(freelist)
      {
        var k := Px(level, v);
        if IsValid(mem[pt][k]) {
          Down(mem, place, free, root, v, level, pt);
          pt := Ppn(mem[pt][k]);
        } else {
          NoWay(mem, root, v, level, pt, place);
          BelowTop(v);
          if !alloc {
            return 0;
          }
          ghost var mem1, place1 := mem, place;
          var q := NewTable(pt, k);
          if q == 0 {
            return 0;
          }
          SameViewTransitive(old(mem), mem1, mem, old(place), place1);
          NewTableKept(mem1, place1, root, pt, k, q);
          GrownTransitive(old(mem), old(place), mem1, place1, mem, place, root, 0, 0);
          DownNew(mem1, place1, root, v, level, pt, q);
          pt := q;
        }
        level := level - 1;
      }
      low := pt;
    }

    /** mappages: m is the first page number it did not reach. */
    method Mappages(root: nat, va: nat, size: nat, ppn: nat, perm: nat) returns (ok: bool, ghost m: nat)
      requires Valid() && IsRoot(place, root) && size > 0 && (va + size - 1) / PGSIZE < MAXVPN
      requires perm < 1024 && IsLeaf(perm)
      requires forall w: nat :: va / PGSIZE <= w <= (va + size - 1) / PGSIZE ==> !Mapped(mem, root, w)
      modifies this
      ensures Valid() && IsRoot(place, root) && Grown(old(mem), old(place), mem, place, root, 0, 0)
      ensures va / PGSIZE <= m <= (va + size - 1) / PGSIZE + 1 && (ok <==> m == (va + size - 1) / PGSIZE + 1)
      ensures |free| <= |old(free)| <= |free| + 2 * ((va + size - 1) / PGSIZE + 1 - va / PGSIZE)
      ensures !ok ==> free == []
      ensures MapsRange(mem, root, va / PGSIZE, m, ppn, perm)
      ensures SameOutside(old(mem), mem, old(place), root, va / PGSIZE, m)
    {
      var a, last, pa := va / PGSIZE, (va + size - 1) / PGSIZE, ppn;
      ghost var lo := a;
      m := a;
      Accounted(mem, place, free);
      while true
        invariant lo <= a <= last && m == a && pa == ppn + a - lo && |free| <= |old(free)| <= |free| + 2 * (a - lo)
        invariant Valid() && IsRoot(place, root) && Grown(old(mem), old(place), mem, place, root, 0, 0)
        invariant MapsRange(mem, root, lo, a, ppn, perm) && SameOutside(old(mem), mem, old(place), root, lo, a)
        decreases last - a
      {
        ghost var mem1, place1 := mem, place;
        var low := Walk(root, a, true);
        RootsKept(old(mem), old(place), mem1, place1, root);
        RangeKept(mem1, mem, place1, root, lo, a, ppn, perm);
        OutsideKept(old(mem), mem1, mem, old(place), place1, root, lo, a);
        GrownTransitive(old(mem), old(place), mem1, place1, mem, place, root, 0, 0);
        if low == 0 {
          return false, m;
        }
        RootsKept(old(mem), old(place), mem, place, root);
        assert !Mapped(old(mem), root, a) && SamePte(old(mem), mem, root, a);
        NoUser(mem, place, free, root, a);
        ghost var mem2 := mem;
        SetStep(mem, place, free, freelist, root, a, low, MakePte(pa, perm));
        mem := SetEntry(mem, low, Px(0, a), MakePte(pa, perm));
        RangeExtend(mem2, mem, place, root, lo, a, ppn, perm);
        OutsideExtend(old(mem), mem2, mem, old(place), place, root, lo, a, a + 1);
        GrownTransitive(old(mem), old(place), mem2, place, mem, place, root, 0, 0);
        m := a + 1;
        if a == last {
          break;
        }
        a, pa := a + 1, pa + 1;
      }
      ok := true;
    }

    /** The body of uvmunmap's loop. */
    method UnmapPage(root: nat, w: nat, doFree: bool)
      requires Valid() && IsRoot(place, root) && w < MAXVPN && Mapped(mem, root, w) &&
               (doFree ==> Owned(mem, place, root, w))
      modifies this
      ensures Valid() && Unmapped(old(mem), old(place), mem, place, root, w, w + 1, if doFree then Free else Held)
    {
      var low := Walk(root, w, false);
      var pte := mem[low][Px(0, w)];
      EntryIsLeaf(mem, place, free, low, Px(0, w));
      assert Flags(pte) != PTE_V;
      Accounted(mem, place, free);
      if doFree {
        OnlyOwner(mem, place, free, root, w);
        Kfree(Ppn(pte));
      } else {
        UnownGood(mem, place, free, root, w);
        place := Dropped(place, root, w, w + 1, Held);
      }
      ghost var mem1 := mem;
      OnLevelKept(old(mem), old(place), old(free), mem, place, root, w, low);
      SetStep(mem, place, free, freelist, root, w, low, 0);
      mem := SetEntry(mem, low, Px(0, w), 0);
      UnmapDone(old(mem), old(place), mem1, mem, place, root, w, if doFree then Free else Held);
    }

    /** uvmunmap, from page number v on. */
    method Uvmunmap(root: nat, v: nat, npages: nat, doFree: bool)
      requires Valid() && IsRoot(place, root) && v + npages <= MAXVPN
      requires forall w: nat :: v <= w < v + npages ==> Mapped(mem, root, w) && (doFree ==> Owned(mem, place, root, w))
      modifies this
      ensures Valid() && Unmapped(old(mem), old(place), mem, place, root, v, v + npages, if doFree then Free else Held)
    {
      var a := v;
      ghost var to := if doFree then Free else Held;
      UnmappedNone(mem, place, root, v, to);
      while a < v + npages
        invariant v <= a <= v + npages && Valid() && Unmapped(old(mem), old(place), mem, place, root, v, a, to)
      {
        ghost var mem1, place1 := mem, place;
        assert SamePte(old(mem), mem, root, a) && Mapped(old(mem), root, a);
        UnmapPage(root, a, doFree);
        UnmappedExtend(old(mem), old(place), mem1, place1, mem, place, root, v, a, to);
        a := a + 1;
      }
    }
  }

  /** Pages lo..hi of this table are unmapped, what they mapped has gone where `to` says, and nothing else changed. */
  ghost predicate Unmapped(mem: Mem, place: map<nat, Place>, mem': Mem, place': map<nat, Place>, root: nat, lo: nat,
                           hi: nat, to: Place) {
    IsRoot(place, root) && (forall p: nat :: p in mem <==> p in mem') && place' == Dropped(place, root, lo, hi, to) &&
    SameOutside(mem, mem', place, root, lo, hi) && Cleared(mem', root, lo, hi) && DataKept(mem, place, mem', place')
  }

  lemma UnmappedNone(mem: Mem, place: map<nat, Place>, root: nat, lo: nat, to: Place)
    requires IsRoot(place, root)
    ensures Unmapped(mem, place, mem, place, root, lo, lo, to)
  {
    assert place == Dropped(place, root, lo, lo, to);
  }

  lemma UnmappedExtend(mem: Mem, place: map<nat, Place>, mem1: Mem, place1: map<nat, Place>, mem2: Mem,
                       place2: map<nat, Place>, root: nat, lo: nat, m: nat, to: Place)
    requires Unmapped(mem, place, mem1, place1, root, lo, m, to) &&
             Unmapped(mem1, place1, mem2, place2, root, m, m + 1, to)
    requires lo <= m < MAXVPN && (to.Free? || to.Held?)
    ensures Unmapped(mem, place, mem2, place2, root, lo, m + 1, to)
  {
    assert place2 == Dropped(place, root, lo, m + 1, to);
    OutsideExtend(mem, mem1, mem2, place, place1, root, lo, m, m + 1);
    forall w: nat | lo <= w < m + 1 ensures Pte(mem2, root, w) == 0 {
      if w < m {
        assert SamePte(mem1, mem2, root, w);
      }
    }
  }

  lemma UnmapDone(mem: Mem, place: map<nat, Place>, mem1: Mem, mem2: Mem, place': map<nat, Place>, root: nat, w: nat,
                  to: Place)
    requires SameView(mem, mem1, place) && place' == Dropped(place, root, w, w + 1, to) && IsRoot(place, root) &&
             (to.Free? || to.Held?)
    requires (forall p: nat :: p in mem <==> p in mem1) && (forall p: nat :: p in place <==> p in mem)
    requires forall p: nat :: p in mem && !(place'[p].Free? && !place[p].Free?) ==> mem1[p] == mem[p]
    requires SameOutside(mem1, mem2, place', root, w, w + 1) && Pte(mem2, root, w) == 0 &&
             Grown(mem1, place', mem2, place', root, 0, 0)
    ensures Unmapped(mem, place, mem2, place', root, w, w + 1, to)
  {
    hide Pte;
    forall p: nat
      ensures p in mem <==> p in mem2
      ensures p in mem && (place[p].Held? || place[p].User?) && !place'[p].Free? ==> mem2[p] == mem[p]
    {
      assert PageKept(mem1, place', mem2, place', root, 0, 0, p);
    }
    forall r: nat, v: nat | IsRoot(place, r) && v < MAXVPN && !(r == root && w <= v < w + 1)
      ensures SamePte(mem, mem2, r, v)
    {
      assert SamePte(mem, mem1, r, v) && SamePte(mem1, mem2, r, v);
    }
  }

  lemma OnLevelKept(mem: Mem, place: map<nat, Place>, free: seq<nat>, mem': Mem, place': map<nat, Place>, root: nat,
                    v: nat, low: nat)
    requires Good(mem, place, free) && OnLevel(mem, place, root, v, 0, low) && IsRoot(place, root)
    requires TablesKept(mem, mem', place) && low in place' && place'[low] == place[low]
    ensures OnLevel(mem', place', root, v, 0, low)
  {
    OnPath(mem, place, free, root, v);
    var mid := Table(mem, root, Px(2, v));
    assert mem'[root] == mem[root] && mem'[mid] == mem[mid];
  }

  lemma EntryIsLeaf(mem: Mem, place: map<nat, Place>, free: seq<nat>, low: nat, k: nat)
    requires Good(mem, place, free) && low in mem && low in place && place[low].Low? && k < ENTRIES &&
             IsValid(mem[low][k])
    ensures IsLeaf(mem[low][k]) && Flags(mem[low][k]) != PTE_V
  {
    assert PageGood(mem, place, free, low);
    LeafFlags(mem[low][k]);
  }

  lemma LeafFlags(pte: nat)
    requires IsLeaf(pte)
    ensures Flags(pte) != PTE_V
  {
    Apart(Ppn(pte), Flags(pte));
    assert !IsLeaf(PTE_V);
  }

  lemma OnlyOwner(mem: Mem, place: map<nat, Place>, free: seq<nat>, root: nat, w: nat)
    requires Good(mem, place, free) && Owned(mem, place, root, w)
    ensures place[Ppn(Pte(mem, root, w)) := Free] == Dropped(place, root, w, w + 1, Free)
  {
    forall q: nat | q in place && place[q] == User(root, w) ensures q == Ppn(Pte(mem, root, w)) {
      assert PageGood(mem, place, free, q);
    }
  }

  /** The page at w, if it was the table's own, is now merely held. */
  lemma UnownGood(mem: Mem, place: map<nat, Place>, free: seq<nat>, root: nat, w: nat)
    requires Good(mem, place, free)
    ensures Good(mem, Dropped(place, root, w, w + 1, Held), free)
  {
    Accounted(mem, place, free);
    KeptGood(mem, place, free, mem, Dropped(place, root, w, w + 1, Held), free);
  }

  /** The page mapped at v belongs to v. */
  predicate Owned(mem: Mem, place: map<nat, Place>, root: nat, v: nat) {
    Ppn(Pte(mem, root, v)) in place && place[Ppn(Pte(mem, root, v))] == User(root, v)
  }

  ghost function Dropped(place: map<nat, Place>, root: nat, lo: nat, hi: nat, to: Place): map<nat, Place> {
    map p | p in place :: if place[p].User? && place[p].root == root && lo <= place[p].vpn < hi then to else place[p]
  }

  ghost predicate Cleared(mem: Mem, root: nat, lo: nat, hi: nat) {
    forall w: nat :: lo <= w < hi ==> Pte(mem, root, w) == 0
  }

  /** Pages in use before and not freed since hold what they held. */
  ghost predicate DataKept(mem: Mem, place: map<nat, Place>, mem': Mem, place': map<nat, Place>) {
    forall p: nat ::
      p in mem && p in mem' && p in place && p in place' && (place[p].Held? || place[p].User?) && !place'[p].Free? ==>
      mem'[p] == mem[p]
  }

  lemma RootsKept(mem: Mem, place: map<nat, Place>, mem': Mem, place': map<nat, Place>, root: nat)
    requires Grown(mem, place, mem', place', root, 0, 0) && (forall p: nat :: p in place <==> p in mem)
    ensures forall r: nat :: IsRoot(place, r) ==> IsRoot(place', r)
  {
    forall r: nat | IsRoot(place, r) ensures IsRoot(place', r) {
      assert PageKept(mem, place, mem', place', root, 0, 0, r);
    }
  }

  /** One entry written, as mappages and uvmunmap do it. */
  lemma SetStep(mem: Mem, place: map<nat, Place>, free: seq<nat>, head: nat, root: nat, w: nat, low: nat, x: nat)
    requires Good(mem, place, free) && Linked(mem, head, free) && IsRoot(place, root) && w < MAXVPN &&
             OnLevel(mem, place, root, w, 0, low)
    requires EntryGood(x)
    requires forall q: nat :: q in place ==> place[q] != User(root, w)
    ensures var mem' := SetEntry(mem, low, Px(0, w), x);
            Good(mem', place, free) && Linked(mem', head, free) && Pte(mem', root, w) == x &&
            SameOutside(mem, mem', place, root, w, w + 1) && Grown(mem, place, mem', place, root, 0, 0)
  {
    var mem' := SetEntry(mem, low, Px(0, w), x);
    SetLowGood(mem, place, free, low, Px(0, w), x, w);
    SetLowPte(mem, place, free, low, Px(0, w), x, root, w);
    LinkedKept(mem, place, free, mem', head);
    forall r: nat, v: nat | IsRoot(place, r) && v < MAXVPN && !(r == root && w <= v < w + 1)
      ensures SamePte(mem, mem', r, v)
    {
      SetLowPte(mem, place, free, low, Px(0, w), x, r, v);
      if r == root && Px(0, v) == Px(0, w) && Px(1, v) == Px(1, w) && Px(2, v) == Px(2, w) {
        PxUnique(v, w);
      }
    }
  }

  lemma LinkStep(mem: Mem, place: map<nat, Place>, free: seq<nat>, head: nat, p: nat, k: nat, q: nat)
    requires Good(mem, place, free) && Linked(mem, head, free) && p in mem && p in place &&
             (place[p].Root? || place[p].Mid?)
    requires k < ENTRIES && (place[p].Root? ==> k < TOP)
    requires q in mem && q in place && place[q] == Held && mem[q] == Filled(0) && !IsValid(mem[p][k])
    ensures var mem' := SetEntry(mem, p, k, Pointer(q));
            Good(mem', place[q := Child(place[p], p, k)], free) && Linked(mem', head, free) &&
            SameView(mem, mem', place)
  {
    var mem' := SetEntry(mem, p, k, Pointer(q));
    LinkGood(mem, place, free, p, k, q);
    LinkedKept(mem, place, free, mem', head);
    forall r: nat, v: nat | IsRoot(place, r) ensures SamePte(mem, mem', r, v) {
      LinkPte(mem, place, free, p, k, q, r, v);
    }
  }

  /** The table at this level on the way to v. */
  predicate OnLevel(mem: Mem, place: map<nat, Place>, root: nat, v: nat, level: nat, p: nat) {
    p in mem && p in place &&
    if level == 2 then p == root && place[p] == Root
    else if level == 1 then p == Table(mem, root, Px(2, v)) && place[p] == Mid(root, Px(2, v))
    else p == Table(mem, Table(mem, root, Px(2, v)), Px(1, v)) && place[p] == Low(root, Px(2, v), Px(1, v))
  }

  lemma Down(mem: Mem, place: map<nat, Place>, free: seq<nat>, root: nat, v: nat, level: nat, p: nat)
    requires Good(mem, place, free) && 1 <= level <= 2 && OnLevel(mem, place, root, v, level, p) &&
             IsValid(mem[p][Px(level, v)])
    ensures OnLevel(mem, place, root, v, level - 1, Ppn(mem[p][Px(level, v)]))
  {
    assert PageGood(mem, place, free, p);
    assert PointsTo(place, mem[p][Px(level, v)], Child(place[p], p, Px(level, v)));
    Accounted(mem, place, free);
  }

  lemma NoWay(mem: Mem, root: nat, v: nat, level: nat, p: nat, place: map<nat, Place>)
    requires 0 !in mem && 1 <= level <= 2 && OnLevel(mem, place, root, v, level, p) && !IsValid(mem[p][Px(level, v)])
    ensures Pte(mem, root, v) == 0
  {
    assert Table(mem, 0, Px(1, v)) == 0;
  }

  lemma DownNew(mem: Mem, place: map<nat, Place>, root: nat, v: nat, level: nat, p: nat, q: nat)
    requires 1 <= level <= 2 && OnLevel(mem, place, root, v, level, p) && q in mem && q in place && place[q] == Free
    requires level == 1 ==> root in mem && root in place && place[root] == Root
    ensures OnLevel(SetEntry(mem[q := Filled(0)], p, Px(level, v), Pointer(q)),
                    place[q := Child(place[p], p, Px(level, v))], root, v, level - 1, q)
  {
  }

  lemma NewTableKept(mem: Mem, place: map<nat, Place>, root: nat, p: nat, k: nat, q: nat)
    requires p in mem && p in place && ((place[p] == Root && p == root) || (place[p].Mid? && place[p].root == root)) &&
             k < ENTRIES
    requires q in mem && q in place && place[q] == Free
    ensures Grown(mem, place, SetEntry(mem[q := Filled(0)], p, k, Pointer(q)), place[q := Child(place[p], p, k)], root,
                  0, 0)
  {
  }

  lemma FillGood(mem: Mem, place: map<nat, Place>, free: seq<nat>, head: nat, p: nat, page: Page)
    requires Good(mem, place, free) && Linked(mem, head, free) && p in mem && p in place && place[p] == Held
    ensures TablesKept(mem, mem[p := page], place) && Good(mem[p := page], place, free) &&
            Linked(mem[p := page], head, free)
  {
    Accounted(mem, place, free);
    KeptGood(mem, place, free, mem[p := page], place, free);
    LinkedKept(mem, place, free, mem[p := page], head);
  }

  const PHYSTOP: nat := 0x8000_0000 + 128 * 1024 * 1024

  /** kinit: every page whose bytes lie between the end of the kernel and PHYSTOP is free. */
  method Kinit(mem: Mem, end: nat) returns (m: Machine)
    requires end > 0 && forall p: nat :: p in mem <==> end <= p * 4096 && p * 4096 + 4096 <= 0x8800_0000
    ensures m.Valid() && m.mem.Keys == mem.Keys && m.place == map p | p in mem :: Free
  {
    forall p: nat ensures p in mem <==> RoundedUp(end) <= p < PHYSTOP / PGSIZE {
      WholePages(end, p);
      WholePages(PHYSTOP, p);
    }
    m := new Machine(mem);
    m.Freerange(end, PHYSTOP);
  }
}
