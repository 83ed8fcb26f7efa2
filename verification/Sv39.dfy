/**
 Address translation as the hardware does it (section 4.4 of the RISC-V Privileged Architecture manual), on the tables
 that kernel/vm.c builds.
 */
module Sv39 {
  import opened PageTables
  import opened UserMemory
  import Blocks

  datatype Access = Load | Store | Fetch
  datatype Outcome = Fault | At(pa: nat)

  /** The eight bytes at a physical address. */
  function Word(mem: Mem, pa: nat): nat {
    if pa / 4096 in mem && pa % 8 == 0 then mem[pa / 4096][pa % 4096 / 8] else 0
  }

  /** The nine bits of a virtual address that index a table of this level. */
  function Vpn(va: nat, level: nat): nat {
    if level == 0 then va / 4096 % 512 else if level == 1 then va / 0x20_0000 % 512 else va / 0x4000_0000 % 512
  }

  /** User mode may do this to the page of a leaf: bits 1 to 4 are R, W, X and U. */
  predicate Allows(pte: nat, access: Access) {
    pte / 16 % 2 == 1 &&
    match access
    case Load => pte / 2 % 2 == 1
    case Store => pte / 4 % 2 == 1
    case Fetch => pte / 8 % 2 == 1
  }

  /** An access in user mode with the table of this level at physical address a; leaves above the lowest level do not
      occur in these tables and count as faults. */
  function Translate(mem: Mem, a: nat, va: nat, level: nat, access: Access): Outcome
    decreases level
  {
    var pte := Word(mem, a + 8 * Vpn(va, level));
    if pte % 2 == 0 || (pte / 2 % 2 == 0 && pte / 4 % 2 == 1) then Fault
    else if pte / 2 % 2 == 1 || pte / 8 % 2 == 1 then
      if level > 0 || !Allows(pte, access) then Fault else At(pte / 1024 * 4096 + va % 4096)
    else if level == 0 then Fault
    else Translate(mem, pte / 1024 * 4096, va, level - 1, access)
  }

  /** What a user access to va does, with satp set to this root. */
  function UserAccess(mem: Mem, root: nat, va: nat, access: Access): Outcome {
    Translate(mem, root * 4096, va, 2, access)
  }

  // ---------------------------------------------------------------- the walk

  lemma EntryAddress(mem: Mem, p: nat, i: nat)
    requires p in mem && i < 512
    ensures Word(mem, p * 4096 + 8 * i) == mem[p][i]
  {
    var pa := p * 4096 + 8 * i;
    assert pa / 4096 == p && pa % 4096 == 8 * i && pa % 8 == 0;
  }

  lemma VpnIsPx(va: nat)
    ensures Vpn(va, 0) == Px(0, va / 4096) && Vpn(va, 1) == Px(1, va / 4096) && Vpn(va, 2) == Px(2, va / 4096)
  {
    assert va / 0x20_0000 == va / 4096 / 512 && va / 0x4000_0000 == va / 4096 / 262144;
  }

  /** An entry that leads to a table is no leaf. */
  lemma PointerBits(ppn: nat)
    ensures var pte := Pointer(ppn);
            pte % 2 == 1 && pte / 2 % 2 == 0 && pte / 4 % 2 == 0 && pte / 8 % 2 == 0 && pte / 1024 == ppn
  {
    var pte := Pointer(ppn);
    Halves(pte, 512 * ppn, 1);
    Halves(pte / 2, 256 * ppn, 0);
    Halves(pte / 4, 128 * ppn, 0);
    Halves(pte / 8, 64 * ppn, 0);
  }

  lemma Halves(x: nat, half: nat, bit: nat)
    requires x == 2 * half + bit && bit < 2
    ensures x / 2 == half && x % 2 == bit
  {
  }

  /** What the hardware makes of the entry of a page. */
  function LeafOutcome(pte: nat, va: nat, access: Access): Outcome {
    if pte % 2 == 0 || (pte / 2 % 2 == 0 && pte / 4 % 2 == 1) || !Allows(pte, access) then Fault
    else At(pte / 1024 * 4096 + va % 4096)
  }

  lemma LowestLevel(mem: Mem, low: nat, va: nat, access: Access)
    requires low in mem
    ensures Translate(mem, low * 4096, va, 0, access) == LeafOutcome(mem[low][Px(0, va / 4096)], va, access)
  {
    VpnIsPx(va);
    EntryAddress(mem, low, Vpn(va, 0));
  }

  /** The hardware and the kernel's walk agree: on a valid machine, an access below MAXVA leads to the page that the
      flat
      map has for it, with the same offset, if the entry allows it to user mode, and faults otherwise. */
  lemma HardwareAgrees(mem: Mem, place: map<nat, Place>, free: seq<nat>, root: nat, va: nat, access: Access)
    requires Good(mem, place, free) && IsRoot(place, root) && va < 0x40_0000_0000
    ensures UserAccess(mem, root, va, access) == LeafOutcome(Pte(mem, root, va / 4096), va, access)
  {
    var v := va / 4096;
    OnPath(mem, place, free, root, v);
    VpnIsPx(va);
    assert PageGood(mem, place, free, root);
    var mid := Table(mem, root, Px(2, v));
    TableStep(mem, place, root, Px(2, v), Mid(root, Px(2, v)), va, 2, access);
    if mid != 0 {
      assert PageGood(mem, place, free, mid);
      TableStep(mem, place, mid, Px(1, v), Low(root, Px(2, v), Px(1, v)), va, 1, access);
      var low := Table(mem, mid, Px(1, v));
      if low != 0 {
        LowestLevel(mem, low, va, access);
      }
    }
  }

  /** One level down, or a fault where there is no table. */
  lemma TableStep(mem: Mem, place: map<nat, Place>, p: nat, i: nat, what: Place, va: nat, level: nat, access: Access)
    requires p in mem && 0 < level < 3 && i == Vpn(va, level) && i < ENTRIES && PointsTo(place, mem[p][i], what)
    ensures Translate(mem, p * 4096, va, level, access) ==
            if IsValid(mem[p][i]) then Translate(mem, Table(mem, p, i) * 4096, va, level - 1, access) else Fault
  {
    hide Vpn, Word, Pointer, Allows;
    EntryAddress(mem, p, i);
    PointerBits(Ppn(mem[p][i]));
  }

  /** What the kernel takes for a leaf: any of the bits R, W and X. */
  lemma LeafBits(pte: nat)
    ensures IsLeaf(pte) <==> pte / 2 % 2 == 1 || pte / 4 % 2 == 1 || pte / 8 % 2 == 1
  {
    var x := pte / 2 % 8;
    assert pte / 2 == 8 * (pte / 16) + x;
    Quarter(pte, 2);
    Quarter(pte, 4);
    Halved(pte / 2, 4 * (pte / 16), x);
    Halved(pte / 4, 2 * (pte / 16), x / 2);
    Halved(pte / 8, pte / 16, x / 4);
  }

  // ---------------------------------------------------------------- what mappages writes

  lemma {:induction false} EvenBits(x: nat, k: nat)
    requires x % 2 == 0 && k > 0
    ensures Blocks.HasBit(x + 1, k) <==> Blocks.HasBit(x, k)
  {
    assert (x + 1) / 2 == x / 2;
  }

  /** The entries mappages writes, bit by bit: the page number above ten flags, which are those asked for and the valid
      bit. */
  lemma MappedBits(mem: Mem, root: nat, lo: nat, hi: nat, ppn: nat, perm: nat, w: nat, k: nat)
    requires perm < 1024 && MapsRange(mem, root, lo, hi, ppn, perm) && lo <= w < hi && k < 10
    ensures Pte(mem, root, w) / 1024 == ppn + w - lo
    ensures Blocks.HasBit(Pte(mem, root, w) % 1024, k) <==> k == 0 || Blocks.HasBit(perm, k)
  {
    var pte := Pte(mem, root, w);
    assert pte == MakePte(ppn + w - lo, perm);
    FlagBits(perm, k);
  }

  lemma FlagBits(perm: nat, k: nat)
    ensures Blocks.HasBit(WithValid(perm), k) <==> k == 0 || Blocks.HasBit(perm, k)
  {
    if perm % 2 == 0 && k > 0 {
      EvenBits(perm, k);
    }
  }

  // ---------------------------------------------------------------- what user code finds

  /** The flags uvmalloc asks for, as the hardware reads them. */
  lemma UserFlags(pte: nat, xperm: nat)
    requires xperm in {0, 4, 8, 12} && Flags(pte) == WithValid(UserPerm(xperm))
    ensures pte % 2 == 1 && pte / 2 % 2 == 1 && pte / 4 % 2 == xperm / 4 % 2 && pte / 8 % 2 == xperm / 8 % 2
    ensures pte / 16 % 2 == 1
  {
    FlagDigits(pte);
    assert pte % 1024 == 19 + xperm;
  }

  /** Flags are the low digits of an entry. */
  lemma FlagDigits(pte: nat)
    ensures var f := pte % 1024;
            pte % 2 == f % 2 && pte / 2 % 2 == f / 2 % 2 && pte / 4 % 2 == f / 4 % 2 && pte / 8 % 2 == f / 8 % 2 &&
            pte / 16 % 2 == f / 16 % 2
  {
    var q, f := pte / 1024, pte % 1024;
    Halved(pte, 512 * q, f);
    Halved(pte / 2, 256 * q, f / 2);
    Quarter(pte, 2);
    Quarter(f, 2);
    Halved(pte / 4, 128 * q, f / 4);
    Quarter(pte, 4);
    Quarter(f, 4);
    Halved(pte / 8, 64 * q, f / 8);
    Quarter(pte, 8);
    Quarter(f, 8);
    Halved(pte / 16, 32 * q, f / 16);
  }

  lemma Halved(x: nat, half: nat, f: nat)
    requires x == 2 * half + f
    ensures x / 2 == half + f / 2 && x % 2 == f % 2
  {
  }

  lemma Quarter(x: nat, d: nat)
    requires d in {2, 4, 8}
    ensures x / (2 * d) == x / d / 2
  {
    assert x / 4 == x / 2 / 2 && x / 8 == x / 4 / 2 && x / 16 == x / 8 / 2;
  }

  /** After uvmalloc, every byte between the old size, rounded up to a page, and the new size can be read by user code
      and is in a zeroed page; it can be written or executed exactly when that was asked for. */
  lemma GrownIsUsable(mem: Mem, place: map<nat, Place>, free: seq<nat>, root: nat, oldsz: nat, newsz: nat, xperm: nat,
                      va: nat, access: Access)
    requires Good(mem, place, free) && IsRoot(place, root) && newsz <= 0x40_0000_0000
    requires xperm in {0, PTE_W, PTE_X, PTE_W + PTE_X}
    requires ZeroPages(mem, place, root, Pages(oldsz), Pages(newsz), UserPerm(xperm))
    requires oldsz <= va / 4096 * 4096 && va < newsz
    ensures var usable := access.Load? || (access.Store? && xperm in {PTE_W, PTE_W + PTE_X}) ||
                          (access.Fetch? && xperm in {PTE_X, PTE_W + PTE_X});
            match UserAccess(mem, root, va, access)
            case Fault => !usable
            case At(pa) =>
              usable && pa % 4096 == va % 4096 && pa / 4096 in place && place[pa / 4096] == User(root, va / 4096) &&
              pa / 4096 in mem && mem[pa / 4096] == Filled(0)
  {
    var v := va / 4096;
    BelowPages(v, oldsz);
    BelowPages(v, newsz);
    assert NewPage(mem, place, root, v, Filled(0), UserPerm(xperm));
    HardwareAgrees(mem, place, free, root, va, access);
    hide Good, Pte, ZeroPages, UserAccess, LeafOutcome, UserPerm, WithValid, Pages;
    NewLeaf(Pte(mem, root, v), xperm, va, access);
  }

  lemma NewLeaf(pte: nat, xperm: nat, va: nat, access: Access)
    requires xperm in {0, PTE_W, PTE_X, PTE_W + PTE_X} && Flags(pte) == WithValid(UserPerm(xperm))
    ensures var usable := access.Load? || (access.Store? && xperm in {PTE_W, PTE_W + PTE_X}) ||
                          (access.Fetch? && xperm in {PTE_X, PTE_W + PTE_X});
            match LeafOutcome(pte, va, access)
            case Fault => !usable
            case At(pa) => usable && pa % 4096 == va % 4096 && pa / 4096 == Ppn(pte)
  {
    UserFlags(pte, xperm);
    PageOffset(pte / 1024, va % 4096);
  }

  lemma PageOffset(ppn: nat, offset: nat)
    requires offset < 4096
    ensures (ppn * 4096 + offset) / 4096 == ppn && (ppn * 4096 + offset) % 4096 == offset
  {
  }

  /** After uvmcopy, the child may do at every address below the size what the parent may, finds there what the parent
      has,
      and finds it in a page of its own. */
  lemma CopyIsEqual(mem0: Mem, place0: map<nat, Place>, free0: seq<nat>, parent: nat, mem: Mem, place: map<nat, Place>,
                    free: seq<nat>, child: nat, sz: nat, va: nat, access: Access)
    requires Good(mem0, place0, free0) && IsRoot(place0, parent) && AllOwned(mem0, place0, parent, 0, Pages(sz))
    requires Good(mem, place, free) && IsRoot(place, child) && Copied(mem0, parent, mem, place, child, Pages(sz))
    requires va < sz <= 0x40_0000_0000
    ensures match UserAccess(mem0, parent, va, access)
            case Fault => UserAccess(mem, child, va, access) == Fault
            case At(pa) =>
              var c := UserAccess(mem, child, va, access);
              c.At? && c.pa % 4096 == pa % 4096 && pa / 4096 in mem0 && c.pa / 4096 in mem &&
              mem[c.pa / 4096] == mem0[pa / 4096] && c.pa / 4096 in place &&
              place[c.pa / 4096] == User(child, va / 4096)
  {
    var v := va / 4096;
    hide Good, UserAccess, LeafOutcome, Pte, Copied, AllOwned, Pages;
    BelowPages(v, sz);
    CopiedEntry(mem0, place0, parent, mem, place, child, Pages(sz), v);
    HardwareAgrees(mem0, place0, free0, parent, va, access);
    HardwareAgrees(mem, place, free, child, va, access);
    SameFlags(Pte(mem0, parent, v), Pte(mem, child, v), va, access);
  }

  lemma CopiedEntry(mem0: Mem, place0: map<nat, Place>, parent: nat, mem: Mem, place: map<nat, Place>, child: nat,
                    hi: nat,
                    v: nat)
    requires AllOwned(mem0, place0, parent, 0, hi) && Copied(mem0, parent, mem, place, child, hi) && v < hi
    ensures var pte, pte' := Pte(mem0, parent, v), Pte(mem, child, v);
            Flags(pte') == Flags(pte) && Ppn(pte) in mem0 && Ppn(pte') in mem && mem[Ppn(pte')] == mem0[Ppn(pte)] &&
            Ppn(pte') in place && place[Ppn(pte')] == User(child, v)
  {
    hide Pte;
    assert CopyOf(mem0, parent, mem, place, child, v);
    assert Mapped(mem0, parent, v);
    ValidFlags(Pte(mem0, parent, v));
  }

  lemma ValidFlags(pte: nat)
    requires IsValid(pte)
    ensures WithValid(Flags(pte)) == Flags(pte)
  {
    FlagDigits(pte);
  }

  lemma SameFlags(pte: nat, pte': nat, va: nat, access: Access)
    requires Flags(pte) == Flags(pte')
    ensures match LeafOutcome(pte, va, access)
            case Fault => LeafOutcome(pte', va, access) == Fault
            case At(pa) =>
              var c := LeafOutcome(pte', va, access);
              c.At? && c.pa % 4096 == va % 4096 == pa % 4096 && pa / 4096 == Ppn(pte) && c.pa / 4096 == Ppn(pte')
  {
    FlagDigits(pte);
    FlagDigits(pte');
    PageOffset(pte / 1024, va % 4096);
    PageOffset(pte' / 1024, va % 4096);
  }

  /** After uvmunmap, every access to the range faults. */
  lemma UnmappedFaults(mem: Mem, place: map<nat, Place>, free: seq<nat>, root: nat, lo: nat, hi: nat, va: nat,
                       access: Access)
    requires Good(mem, place, free) && IsRoot(place, root) && Cleared(mem, root, lo, hi)
    requires lo * 4096 <= va < hi * 4096 && va < 0x40_0000_0000
    ensures UserAccess(mem, root, va, access) == Fault
  {
    assert lo <= va / 4096 < hi;
    HardwareAgrees(mem, place, free, root, va, access);
  }

  /** walkaddr: the page of an address that user mode may use in some way, or 0; wherever the hardware lets user code
      through, it is the page that the hardware finds. */
  method Walkaddr(m: Machine, root: nat, va: nat) returns (pa: nat)
    requires m.Valid() && IsRoot(m.place, root)
    modifies m
    ensures m.mem == old(m.mem) && m.place == old(m.place) && m.free == old(m.free) && m.freelist == old(m.freelist)
    ensures pa != 0 <==> va < 0x40_0000_0000 && Mapped(m.mem, root, va / 4096) &&
                         Pte(m.mem, root, va / 4096) / 16 % 2 == 1 && Ppn(Pte(m.mem, root, va / 4096)) != 0
    ensures forall access :: va < 0x40_0000_0000 && UserAccess(m.mem, root, va, access).At? && pa != 0 ==>
              UserAccess(m.mem, root, va, access).pa == pa + va % 4096
  {
    if va >= MAXVPN * PGSIZE {
      return 0;
    }
    assert va < 0x40_0000_0000 && va / PGSIZE < MAXVPN;
    var low := m.Walk(root, va / PGSIZE, false);
    if low == 0 {
      return 0;
    }
    var pte := m.mem[low][Px(0, va / PGSIZE)];
    if !IsValid(pte) || pte / PTE_U % 2 == 0 {
      return 0;
    }
    pa := Ppn(pte) * PGSIZE;
    forall access ensures UserAccess(m.mem, root, va, access) == LeafOutcome(pte, va, access) {
      HardwareAgrees(m.mem, m.place, m.free, root, va, access);
    }
  }
}
