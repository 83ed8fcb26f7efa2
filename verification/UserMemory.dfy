/**
 User memory (kernel/vm.c): growing, shrinking, copying and freeing the pages of a process.
 */
module UserMemory {
  import opened PageTables

  /** PGROUNDUP(sz) / PGSIZE */
  function Pages(sz: nat): nat { (sz + PGSIZE - 1) / PGSIZE }

  lemma WholePage(a: nat)
    ensures (a * PGSIZE) / PGSIZE == a && (a * PGSIZE + PGSIZE - 1) / PGSIZE == a && Pages(a * PGSIZE) == a
  {
  }

  lemma PagesMonotone(s: nat, t: nat)
    requires s <= t
    ensures Pages(s) <= Pages(t)
  {
  }

  // ---------------------------------------------------------------- one fresh page

  /** The page at v is the table's own, holds `page` and has these permissions. */
  ghost predicate NewPage(mem: Mem, place: map<nat, Place>, root: nat, v: nat, page: Page, perm: nat) {
    var q := Ppn(Pte(mem, root, v));
    Mapped(mem, root, v) && Owned(mem, place, root, v) && Flags(Pte(mem, root, v)) == WithValid(perm) && q in mem &&
    mem[q] == page
  }

  lemma OwnGood(mem: Mem, place: map<nat, Place>, free: seq<nat>, q: nat, root: nat, v: nat)
    requires Good(mem, place, free) && q in mem && q in place && place[q] == Held
    requires IsRoot(place, root) && v < MAXVPN && Mapped(mem, root, v) && Ppn(Pte(mem, root, v)) == q
    ensures Good(mem, place[q := User(root, v)], free)
  {
    Accounted(mem, place, free);
    KeptGood(mem, place, free, mem, place[q := User(root, v)], free);
  }

  /** A page is taken, mapped or put back, and is then a user page or free again. */
  lemma FreshGrown(mem: Mem, place: map<nat, Place>, mem1: Mem, mem2: Mem, place2: map<nat, Place>, mem': Mem,
                   place': map<nat, Place>, root: nat, a: nat, hi: nat, q: nat, ok: bool)
    requires (forall p: nat :: p in mem <==> p in place) && q in mem && place[q] == Free
    requires (forall p: nat :: p in mem1 <==> p in mem) && (forall p: nat :: p in mem && p != q ==> mem1[p] == mem[p])
    requires Grown(mem1, place[q := Held], mem2, place2, root, 0, 0)
    requires (forall p: nat :: p in mem' <==> p in mem2) &&
             (forall p: nat :: p in mem2 && p != q ==> mem'[p] == mem2[p])
    requires place' == place2[q := if ok then User(root, a) else Free] && (ok ==> a < hi)
    ensures Grown(mem, place, mem', place', root, a, hi)
  {
    forall p: nat ensures PageKept(mem, place, mem', place', root, a, hi, p) {
      assert PageKept(mem1, place[q := Held], mem2, place2, root, 0, 0, p);
    }
  }

  lemma FreshOutside(mem: Mem, place: map<nat, Place>, mem1: Mem, mem2: Mem, place1: map<nat, Place>, mem': Mem,
                     place2: map<nat, Place>, root: nat, lo: nat, hi: nat)
    requires SameView(mem, mem1, place) && SameOutside(mem1, mem2, place1, root, lo, hi) && SameView(mem2, mem', place2)
    requires forall r: nat :: IsRoot(place, r) ==> IsRoot(place1, r) && IsRoot(place2, r)
    ensures SameOutside(mem, mem', place, root, lo, hi)
  {
    forall r: nat, v: nat | IsRoot(place, r) && v < MAXVPN && !(r == root && lo <= v < hi)
      ensures SamePte(mem, mem', r, v)
    {
      assert SamePte(mem, mem1, r, v) && SamePte(mem1, mem2, r, v) && SamePte(mem2, mem', r, v);
    }
  }

  /** kalloc, then memset or memmove. */
  method AllocFilled(m: Machine, page: Page) returns (q: nat)
    requires m.Valid()
    modifies m
    ensures m.Valid() && SameView(old(m.mem), m.mem, old(m.place))
    ensures q == 0 ==> m.mem == old(m.mem) && m.place == old(m.place) && m.free == old(m.free) == []
    ensures q != 0 ==> q in old(m.mem) && q in old(m.place) && old(m.place)[q] == Free &&
                       |m.free| + 1 == |old(m.free)| &&
                       m.mem == old(m.mem)[q := page] && m.place == old(m.place)[q := Held]
  {
    q := m.Kalloc();
    if q != 0 {
      ghost var mem1 := m.mem;
      m.Fill(q, page);
      SameViewTransitive(old(m.mem), mem1, m.mem, old(m.place), m.place);
      assert m.mem == old(m.mem)[q := page];
    }
  }

  /** mappages for the one page at page number a. */
  method MapPage(m: Machine, root: nat, a: nat, q: nat, perm: nat) returns (ok: bool)
    requires m.Valid() && IsRoot(m.place, root) && perm < 1024 && IsLeaf(perm) && a < MAXVPN && !Mapped(m.mem, root, a)
    modifies m
    ensures m.Valid() && IsRoot(m.place, root) && Grown(old(m.mem), old(m.place), m.mem, m.place, root, 0, 0)
    ensures |m.free| <= |old(m.free)| <= |m.free| + 2 && (!ok ==> m.free == [])
    ensures SameOutside(old(m.mem), m.mem, old(m.place), root, a, if ok then a + 1 else a)
    ensures ok ==> Pte(m.mem, root, a) == MakePte(q, perm)
  {
    hide Good, Linked, Grown, Pte;
    var va := a * PGSIZE;
    WholePage(a);
    assert va / PGSIZE == a && (va + PGSIZE - 1) / PGSIZE == a;
    ghost var upto;
    ok, upto := m.Mappages(root, va, PGSIZE, q, perm);
    assert upto == if ok then a + 1 else a;
  }

  /** The step shared by the loops of uvmalloc and uvmcopy: allocate a page, fill it and map it at page number a. */
  method MapFresh(m: Machine, root: nat, a: nat, page: Page, perm: nat) returns (ok: bool)
    requires m.Valid() && IsRoot(m.place, root) && perm < 1024 && IsLeaf(perm)
    requires m.free != [] ==> a < MAXVPN && !Mapped(m.mem, root, a)
    modifies m
    ensures m.Valid() && IsRoot(m.place, root)
    ensures if ok then |m.free| < |old(m.free)| <= |m.free| + 3 else |old(m.free)| <= 3
    ensures Grown(old(m.mem), old(m.place), m.mem, m.place, root, a, if ok then a + 1 else a)
    ensures SameOutside(old(m.mem), m.mem, old(m.place), root, a, if ok then a + 1 else a)
    ensures ok ==> NewPage(m.mem, m.place, root, a, page, perm)
  {
    hide Good, Linked, Pte;
    Accounted(m.mem, m.place, m.free);
    var q := AllocFilled(m, page);
    if q == 0 {
      return false;
    }
    ghost var mem1, place1 := m.mem, m.place;
    assert SamePte(old(m.mem), m.mem, root, a);
    ok := MapPage(m, root, a, q, perm);
    ghost var mem2, place2 := m.mem, m.place;
    assert PageKept(mem1, place1, mem2, place2, root, 0, 0, q);
    RootsKept(mem1, place1, mem2, place2, root);
    if ok {
      OwnGood(m.mem, m.place, m.free, q, root, a);
      m.place := m.place[q := User(root, a)];
      FreshGrown(old(m.mem), old(m.place), mem1, mem2, place2, m.mem, m.place, root, a, a + 1, q, true);
      FreshOutside(old(m.mem), old(m.place), mem1, mem2, place1, m.mem, place2, root, a, a + 1);
    } else {
      m.Kfree(q);
      FreshGrown(old(m.mem), old(m.place), mem1, mem2, place2, m.mem, m.place, root, a, a, q, false);
      FreshOutside(old(m.mem), old(m.place), mem1, mem2, place1, m.mem, place2, root, a, a);
    }
  }

  // ---------------------------------------------------------------- shrinking and growing

  ghost predicate AllOwned(mem: Mem, place: map<nat, Place>, root: nat, lo: nat, hi: nat) {
    forall w: nat :: lo <= w < hi ==> Mapped(mem, root, w) && Owned(mem, place, root, w)
  }

  /** uvmdealloc */
  method Uvmdealloc(m: Machine, root: nat, oldsz: nat, newsz: nat) returns (r: nat)
    requires m.Valid() && IsRoot(m.place, root)
    requires newsz < oldsz ==> Pages(oldsz) <= MAXVPN && AllOwned(m.mem, m.place, root, Pages(newsz), Pages(oldsz))
    modifies m
    ensures m.Valid() && r == if newsz < oldsz then newsz else oldsz
    ensures newsz >= oldsz ==> m.mem == old(m.mem) && m.place == old(m.place) && m.free == old(m.free)
    ensures newsz < oldsz ==> Unmapped(old(m.mem), old(m.place), m.mem, m.place, root, Pages(newsz), Pages(oldsz), Free)
  {
    if newsz >= oldsz {
      return oldsz;
    }
    PagesMonotone(newsz, oldsz);
    if Pages(newsz) < Pages(oldsz) {
      m.Uvmunmap(root, Pages(newsz), Pages(oldsz) - Pages(newsz), true);
    } else {
      UnmappedNone(m.mem, m.place, root, Pages(newsz), Free);
    }
    r := newsz;
  }

  lemma NewPageKept(mem: Mem, place: map<nat, Place>, mem': Mem, place': map<nat, Place>, root: nat, w: nat, page: Page,
                    perm: nat, lo: nat, hi: nat)
    requires NewPage(mem, place, root, w, page, perm)
    requires Grown(mem, place, mem', place', root, lo, hi) && SamePte(mem, mem', root, w)
    ensures NewPage(mem', place', root, w, page, perm)
  {
    assert PageKept(mem, place, mem', place', root, lo, hi, Ppn(Pte(mem, root, w)));
  }

  lemma GrownExtend(mem: Mem, place: map<nat, Place>, mem1: Mem, place1: map<nat, Place>, mem2: Mem,
                    place2: map<nat, Place>, root: nat, lo: nat, m: nat, hi: nat)
    requires Grown(mem, place, mem1, place1, root, lo, m) && Grown(mem1, place1, mem2, place2, root, m, hi) &&
             lo <= m <= hi
    ensures Grown(mem, place, mem2, place2, root, lo, hi)
  {
    forall p: nat ensures PageKept(mem, place, mem2, place2, root, lo, hi, p) {
      assert PageKept(mem, place, mem1, place1, root, lo, m, p) && PageKept(mem1, place1, mem2, place2, root, m, hi, p);
    }
  }

  lemma RootsGrown(mem: Mem, place: map<nat, Place>, mem': Mem, place': map<nat, Place>, root: nat, lo: nat, hi: nat)
    requires Grown(mem, place, mem', place', root, lo, hi) && (forall p: nat :: p in place <==> p in mem)
    ensures forall r: nat :: IsRoot(place, r) ==> IsRoot(place', r)
  {
    forall r: nat | IsRoot(place, r) ensures IsRoot(place', r) {
      assert PageKept(mem, place, mem', place', root, lo, hi, r);
    }
  }

  lemma ZeroWhereUnmapped(mem: Mem, place: map<nat, Place>, free: seq<nat>, root: nat, w: nat)
    requires Good(mem, place, free) && IsRoot(place, root) && !Mapped(mem, root, w)
    ensures Pte(mem, root, w) == 0
  {
    OnPath(mem, place, free, root, w);
    var low := Table(mem, Table(mem, root, Px(2, w)), Px(1, w));
    assert PageGood(mem, place, free, low);
  }

  /** Mapping fresh pages and then unmapping and freeing them again leaves every view as it was, and no page lost. */
  lemma Undone(mem: Mem, place: map<nat, Place>, free: seq<nat>, mem1: Mem, place1: map<nat, Place>, mem2: Mem,
               place2: map<nat, Place>, root: nat, lo: nat, hi: nat)
    requires Good(mem, place, free) && IsRoot(place, root) && lo <= hi &&
             forall w: nat :: lo <= w < hi ==> !Mapped(mem, root, w)
    requires Grown(mem, place, mem1, place1, root, lo, hi) && SameOutside(mem, mem1, place, root, lo, hi)
    requires Unmapped(mem1, place1, mem2, place2, root, lo, hi, Free)
    ensures Grown(mem, place, mem2, place2, root, lo, lo) && SameOutside(mem, mem2, place, root, lo, lo)
  {
    Accounted(mem, place, free);
    RootsGrown(mem, place, mem1, place1, root, lo, hi);
    forall p: nat ensures PageKept(mem, place, mem2, place2, root, lo, lo, p) {
      assert PageKept(mem, place, mem1, place1, root, lo, hi, p) && PageGood(mem, place, free, p);
    }
    forall r: nat, v: nat | IsRoot(place, r) && v < MAXVPN ensures SamePte(mem, mem2, r, v) {
      if r == root && lo <= v < hi {
        ZeroWhereUnmapped(mem, place, free, root, v);
      } else {
        assert SamePte(mem, mem1, r, v) && SamePte(mem1, mem2, r, v);
      }
    }
  }

  lemma BelowPages(a: nat, sz: nat)
    ensures a * PGSIZE < sz <==> a < Pages(sz)
  {
  }

  ghost predicate ZeroPages(mem: Mem, place: map<nat, Place>, root: nat, lo: nat, hi: nat, perm: nat) {
    forall w: nat :: lo <= w < hi ==> NewPage(mem, place, root, w, Filled(0), perm)
  }

  lemma ZeroPagesExtend(mem: Mem, place: map<nat, Place>, mem': Mem, place': map<nat, Place>, root: nat, lo: nat,
                        a: nat, hi: nat, perm: nat)
    requires lo <= a < MAXVPN && hi == a + 1 && IsRoot(place, root) && ZeroPages(mem, place, root, lo, a, perm)
    requires Grown(mem, place, mem', place', root, a, hi) && SameOutside(mem, mem', place, root, a, hi)
    requires NewPage(mem', place', root, a, Filled(0), perm)
    ensures ZeroPages(mem', place', root, lo, hi, perm)
  {
    forall w: nat | lo <= w < a ensures NewPage(mem', place', root, w, Filled(0), perm) {
      assert SamePte(mem, mem', root, w) && NewPage(mem, place, root, w, Filled(0), perm);
      NewPageKept(mem, place, mem', place', root, w, Filled(0), perm, a, hi);
    }
  }

  lemma ZeroPagesKept(mem: Mem, place: map<nat, Place>, mem': Mem, place': map<nat, Place>, root: nat, lo: nat, a: nat,
                      perm: nat)
    requires a <= MAXVPN && IsRoot(place, root) && ZeroPages(mem, place, root, lo, a, perm)
    requires Grown(mem, place, mem', place', root, a, a) && SameOutside(mem, mem', place, root, a, a)
    ensures AllOwned(mem', place', root, lo, a)
  {
    forall w: nat | lo <= w < a ensures Mapped(mem', root, w) && Owned(mem', place', root, w) {
      assert SamePte(mem, mem', root, w) && NewPage(mem, place, root, w, Filled(0), perm);
      NewPageKept(mem, place, mem', place', root, w, Filled(0), perm, a, a);
    }
  }

  /** The failure path of uvmalloc: the pages from lo on go back. */
  method GiveUp(m: Machine, root: nat, a: nat, lo: nat, ghost mem0: Mem, ghost place0: map<nat, Place>,
                ghost free0: seq<nat>)
    requires m.Valid() && IsRoot(m.place, root) && lo <= a && (lo < a ==> a <= MAXVPN) &&
             AllOwned(m.mem, m.place, root, lo, a)
    requires Good(mem0, place0, free0) && IsRoot(place0, root) &&
             forall w: nat :: lo <= w < a ==> !Mapped(mem0, root, w)
    requires Grown(mem0, place0, m.mem, m.place, root, lo, a) && SameOutside(mem0, m.mem, place0, root, lo, a)
    modifies m
    ensures m.Valid() && IsRoot(m.place, root)
    ensures Grown(mem0, place0, m.mem, m.place, root, lo, lo) && SameOutside(mem0, m.mem, place0, root, lo, lo)
  {
    ghost var mem1, place1 := m.mem, m.place;
    WholePage(a);
    WholePage(lo);
    assert lo * PGSIZE < a * PGSIZE <==> lo < a;
    var _ := Uvmdealloc(m, root, a * PGSIZE, lo * PGSIZE);
    if lo < a {
      Undone(mem0, place0, free0, mem1, place1, m.mem, m.place, root, lo, a);
    }
  }

  const PTE_R: nat := 2
  const PTE_W: nat := 4
  const PTE_X: nat := 8
  const PTE_U: nat := 16

  /** PTE_R | PTE_U | xperm */
  function UserPerm(xperm: nat): nat { PTE_R + PTE_U + xperm }

  lemma GrownSelf(mem: Mem, place: map<nat, Place>, root: nat, lo: nat)
    requires forall p: nat :: p in mem <==> p in place
    ensures Grown(mem, place, mem, place, root, lo, lo)
  {
  }

  /** uvmalloc */
  method Uvmalloc(m: Machine, root: nat, oldsz: nat, newsz: nat, xperm: nat) returns (r: nat, ghost ok: bool)
    requires m.Valid() && IsRoot(m.place, root) && xperm in {0, PTE_W, PTE_X, PTE_W + PTE_X}
    requires Pages(newsz) <= MAXVPN || Pages(oldsz) + |m.free| <= MAXVPN
    requires forall w: nat :: Pages(oldsz) <= w < Pages(newsz) && w < Pages(oldsz) + |m.free| ==>
               !Mapped(m.mem, root, w)
    modifies m
    ensures m.Valid() && IsRoot(m.place, root)
    ensures r == if !ok then 0 else if newsz < oldsz then oldsz else newsz
    ensures newsz < oldsz ==> ok && m.mem == old(m.mem) && m.place == old(m.place)
    ensures !ok ==> |old(m.free)| <= 3 * (Pages(newsz) - Pages(oldsz))
    ensures var lo, hi := Pages(oldsz), if ok && newsz >= oldsz then Pages(newsz) else Pages(oldsz);
            Grown(old(m.mem), old(m.place), m.mem, m.place, root, lo, hi) &&
            SameOutside(old(m.mem), m.mem, old(m.place), root, lo, hi) &&
            ZeroPages(m.mem, m.place, root, lo, hi, UserPerm(xperm))
  {
    hide Good, Linked, Pte, Grown;
    Accounted(m.mem, m.place, m.free);
    if newsz < oldsz {
      GrownSelf(m.mem, m.place, root, Pages(oldsz));
      return oldsz, true;
    }
    var lo := Pages(oldsz);
    GrownSelf(m.mem, m.place, root, lo);
    var a := lo;
    PagesMonotone(oldsz, newsz);
    while a * PGSIZE < newsz
      invariant lo <= a <= Pages(newsz) && m.Valid() && IsRoot(m.place, root)
      invariant a - lo + |m.free| <= |old(m.free)| <= |m.free| + 3 * (a - lo)
      invariant Grown(old(m.mem), old(m.place), m.mem, m.place, root, lo, a)
      invariant SameOutside(old(m.mem), m.mem, old(m.place), root, lo, a)
      invariant ZeroPages(m.mem, m.place, root, lo, a, UserPerm(xperm))
      decreases Pages(newsz) - a
    {
      BelowPages(a, newsz);
      ghost var mem1, place1 := m.mem, m.place;
      RootsGrown(old(m.mem), old(m.place), mem1, place1, root, lo, a);
      assert m.free != [] ==> a < MAXVPN && !Mapped(old(m.mem), root, a) && SamePte(old(m.mem), m.mem, root, a);
      var done := MapFresh(m, root, a, Filled(0), UserPerm(xperm));
      GrownExtend(old(m.mem), old(m.place), mem1, place1, m.mem, m.place, root, lo, a, if done then a + 1 else a);
      OutsideExtend(old(m.mem), mem1, m.mem, old(m.place), place1, root, lo, a, if done then a + 1 else a);
      if !done {
        ZeroPagesKept(mem1, place1, m.mem, m.place, root, lo, a, UserPerm(xperm));
        GiveUp(m, root, a, lo, old(m.mem), old(m.place), old(m.free));
        return 0, false;
      }
      ZeroPagesExtend(mem1, place1, m.mem, m.place, root, lo, a, a + 1, UserPerm(xperm));
      a := a + 1;
    }
    BelowPages(a, newsz);
    assert a == Pages(newsz);
    r, ok := newsz, true;
  }

  // ---------------------------------------------------------------- copying

  /** The child's page w is its own and holds what the parent's page w held in mem0, with the same flags. */
  ghost predicate CopyOf(mem0: Mem, parent: nat, mem: Mem, place: map<nat, Place>, child: nat, w: nat) {
    var pte := Pte(mem0, parent, w);
    Ppn(pte) in mem0 && NewPage(mem, place, child, w, mem0[Ppn(pte)], Flags(pte))
  }

  ghost predicate Copied(mem0: Mem, parent: nat, mem: Mem, place: map<nat, Place>, child: nat, hi: nat) {
    forall w: nat :: w < hi ==> CopyOf(mem0, parent, mem, place, child, w)
  }

  lemma CopiedKept(mem0: Mem, parent: nat, mem: Mem, place: map<nat, Place>, mem': Mem, place': map<nat, Place>,
                   child: nat, a: nat, hi: nat)
    requires Copied(mem0, parent, mem, place, child, a) && IsRoot(place, child) && a <= hi && a <= MAXVPN
    requires Grown(mem, place, mem', place', child, a, hi) && SameOutside(mem, mem', place, child, a, hi)
    ensures Copied(mem0, parent, mem', place', child, a) && AllOwned(mem', place', child, 0, a)
  {
    forall w: nat | w < a ensures CopyOf(mem0, parent, mem', place', child, w) {
      assert SamePte(mem, mem', child, w) && CopyOf(mem0, parent, mem, place, child, w);
      var pte := Pte(mem0, parent, w);
      NewPageKept(mem, place, mem', place', child, w, mem0[Ppn(pte)], Flags(pte), a, hi);
    }
    forall w: nat | w < a ensures Mapped(mem', child, w) && Owned(mem', place', child, w) {
      assert CopyOf(mem0, parent, mem', place', child, w);
    }
  }

  lemma CopiedNext(mem0: Mem, parent: nat, mem1: Mem, mem: Mem, place: map<nat, Place>, child: nat, i: nat)
    requires Copied(mem0, parent, mem, place, child, i) && CopyOf(mem1, parent, mem, place, child, i)
    requires Pte(mem1, parent, i) == Pte(mem0, parent, i)
    requires var q := Ppn(Pte(mem0, parent, i)); q in mem0 && q in mem1 && mem1[q] == mem0[q]
    ensures Copied(mem0, parent, mem, place, child, i + 1)
  {
    assert CopyOf(mem0, parent, mem, place, child, i);
  }

  lemma FlagsLeaf(pte: nat)
    requires IsValid(pte) && IsLeaf(pte)
    ensures IsLeaf(Flags(pte)) && Flags(pte) < 1024 && WithValid(Flags(pte)) == Flags(pte)
  {
    Apart(Ppn(pte), Flags(pte));
  }

  /** The parent's entry and page, untouched by work on the child. */
  lemma ParentKept(mem: Mem, place: map<nat, Place>, mem': Mem, place': map<nat, Place>, parent: nat, child: nat,
                   w: nat, hi: nat)
    requires IsRoot(place, parent) && parent != child && w < MAXVPN && Owned(mem, place, parent, w)
    requires forall p: nat :: p in place <==> p in mem
    requires Grown(mem, place, mem', place', child, 0, hi) && SameOutside(mem, mem', place, child, 0, hi)
    ensures Pte(mem', parent, w) == Pte(mem, parent, w)
    ensures var q := Ppn(Pte(mem, parent, w));
            q in mem && q in mem' && mem'[q] == mem[q] && q in place' && place'[q] == User(parent, w)
  {
    assert SamePte(mem, mem', parent, w);
    assert PageKept(mem, place, mem', place', child, 0, hi, Ppn(Pte(mem, parent, w)));
  }

  /** The body of uvmcopy's loop. */
  method CopyPage(m: Machine, parent: nat, child: nat, i: nat) returns (ok: bool)
    requires m.Valid() && IsRoot(m.place, parent) && IsRoot(m.place, child) && i < MAXVPN
    requires Mapped(m.mem, parent, i) && Owned(m.mem, m.place, parent, i) && !Mapped(m.mem, child, i)
    modifies m
    ensures m.Valid() && IsRoot(m.place, child)
    ensures Grown(old(m.mem), old(m.place), m.mem, m.place, child, i, if ok then i + 1 else i)
    ensures SameOutside(old(m.mem), m.mem, old(m.place), child, i, if ok then i + 1 else i)
    ensures ok ==> CopyOf(old(m.mem), parent, m.mem, m.place, child, i)
    ensures |old(m.free)| <= if ok then |m.free| + 3 else 3
  {
    var low := m.Walk(parent, i, false);
    var pte := m.mem[low][Px(0, i)];
    EntryIsLeaf(m.mem, m.place, m.free, low, Px(0, i));
    FlagsLeaf(pte);
    Accounted(m.mem, m.place, m.free);
    ok := MapFresh(m, child, i, m.mem[Ppn(pte)], Flags(pte));
  }

  /** The error path of uvmcopy. */
  method Unwind(m: Machine, child: nat, i: nat, ghost mem0: Mem, ghost place0: map<nat, Place>, ghost free0: seq<nat>)
    requires m.Valid() && IsRoot(m.place, child) && i <= MAXVPN && AllOwned(m.mem, m.place, child, 0, i)
    requires Good(mem0, place0, free0) && IsRoot(place0, child) && forall w: nat :: w < i ==> !Mapped(mem0, child, w)
    requires Grown(mem0, place0, m.mem, m.place, child, 0, i) && SameOutside(mem0, m.mem, place0, child, 0, i)
    modifies m
    ensures m.Valid() && Grown(mem0, place0, m.mem, m.place, child, 0, 0) &&
            SameOutside(mem0, m.mem, place0, child, 0, 0)
  {
    ghost var mem1, place1 := m.mem, m.place;
    m.Uvmunmap(child, 0, i, true);
    Undone(mem0, place0, free0, mem1, place1, m.mem, m.place, child, 0, i);
  }

  /** uvmcopy */
  method Uvmcopy(m: Machine, parent: nat, child: nat, sz: nat) returns (ok: bool)
    requires m.Valid() && IsRoot(m.place, parent) && IsRoot(m.place, child) && parent != child && Pages(sz) <= MAXVPN
    requires AllOwned(m.mem, m.place, parent, 0, Pages(sz))
    requires forall w: nat :: w < Pages(sz) ==> !Mapped(m.mem, child, w)
    modifies m
    ensures m.Valid() && IsRoot(m.place, parent) && IsRoot(m.place, child)
    ensures Grown(old(m.mem), old(m.place), m.mem, m.place, child, 0, if ok then Pages(sz) else 0)
    ensures SameOutside(old(m.mem), m.mem, old(m.place), child, 0, if ok then Pages(sz) else 0)
    ensures ok ==> Copied(old(m.mem), parent, m.mem, m.place, child, Pages(sz))
    ensures !ok ==> |old(m.free)| <= 3 * Pages(sz)
  {
    hide Good, Linked, Pte, Grown, Pages;
    ghost var n := Pages(sz);
    var i := 0;
    Accounted(m.mem, m.place, m.free);
    MidwayNone(m.mem, m.place, parent, child);
    while i * PGSIZE < sz
      invariant i <= n && m.Valid() && Midway(old(m.mem), old(m.place), parent, m.mem, m.place, child, i)
      invariant |old(m.free)| <= |m.free| + 3 * i
      decreases n - i
    {
      BelowPages(i, sz);
      ghost var mem1, place1 := m.mem, m.place;
      MidwayReady(old(m.mem), old(m.place), parent, mem1, place1, child, i);
      var done := CopyPage(m, parent, child, i);
      MidwayNext(old(m.mem), old(m.place), parent, mem1, place1, m.mem, m.place, child, i, done);
      if !done {
        Unwind(m, child, i, old(m.mem), old(m.place), old(m.free));
        RootsGrown(old(m.mem), old(m.place), m.mem, m.place, child, 0, 0);
        return false;
      }
      i := i + 1;
    }
    BelowPages(i, sz);
    assert i == n;
    ok := true;
  }

  /** The first i pages copied. */
  ghost predicate Midway(mem0: Mem, place0: map<nat, Place>, parent: nat, mem: Mem, place: map<nat, Place>, child: nat,
                         i: nat) {
    IsRoot(place, parent) && IsRoot(place, child) &&
    Grown(mem0, place0, mem, place, child, 0, i) && SameOutside(mem0, mem, place0, child, 0, i) &&
    Copied(mem0, parent, mem, place, child, i)
  }

  lemma MidwayNone(mem: Mem, place: map<nat, Place>, parent: nat, child: nat)
    requires IsRoot(place, parent) && IsRoot(place, child)
    ensures Midway(mem, place, parent, mem, place, child, 0)
  {
  }

  lemma MidwayReady(mem0: Mem, place0: map<nat, Place>, parent: nat, mem: Mem, place: map<nat, Place>, child: nat,
                    i: nat)
    requires Midway(mem0, place0, parent, mem, place, child, i) && (forall p: nat :: p in place0 <==> p in mem0)
    requires IsRoot(place0, parent) && IsRoot(place0, child) && parent != child && i < MAXVPN
    requires Mapped(mem0, parent, i) && Owned(mem0, place0, parent, i) && !Mapped(mem0, child, i)
    ensures Mapped(mem, parent, i) && Owned(mem, place, parent, i) && !Mapped(mem, child, i)
  {
    ParentKept(mem0, place0, mem, place, parent, child, i, i);
    assert SamePte(mem0, mem, child, i);
  }

  lemma MidwayNext(mem0: Mem, place0: map<nat, Place>, parent: nat, mem1: Mem, place1: map<nat, Place>, mem: Mem,
                   place: map<nat, Place>, child: nat, i: nat, ok: bool)
    requires Midway(mem0, place0, parent, mem1, place1, child, i) && (forall p: nat :: p in place0 <==> p in mem0)
    requires IsRoot(place0, parent) && IsRoot(place0, child) && parent != child && i < MAXVPN
    requires Mapped(mem0, parent, i) && Owned(mem0, place0, parent, i) && IsRoot(place, child)
    requires Grown(mem1, place1, mem, place, child, i, if ok then i + 1 else i)
    requires SameOutside(mem1, mem, place1, child, i, if ok then i + 1 else i)
    requires ok ==> CopyOf(mem1, parent, mem, place, child, i)
    ensures Midway(mem0, place0, parent, mem, place, child, if ok then i + 1 else i)
    ensures !ok ==> AllOwned(mem, place, child, 0, i)
  {
    var hi := if ok then i + 1 else i;
    RootsGrown(mem0, place0, mem1, place1, child, 0, i);
    GrownExtend(mem0, place0, mem1, place1, mem, place, child, 0, i, hi);
    OutsideExtend(mem0, mem1, mem, place0, place1, child, 0, i, hi);
    RootsGrown(mem0, place0, mem, place, child, 0, hi);
    CopiedKept(mem0, parent, mem1, place1, mem, place, child, i, hi);
    if ok {
      ParentKept(mem0, place0, mem1, place1, parent, child, i, i);
      CopiedNext(mem0, parent, mem1, mem, place, child, i);
    }
  }
}
