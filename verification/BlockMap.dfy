/**
 The block bitmap and the block maps of inodes (kernel/fs.c).

 `use` is a ghost: it says of every block what it is used for, so each block is in one place only.
 Inodes are the in-memory copies; `logged` collects the blocks handed to log_write.
 */
module BlockMaps {
  import opened Blocks

  const NDIRECT: nat := 12
  const MAXFILE: nat := 268

  datatype Super = Super(size: nat, bmapstart: nat, inodestart: nat, nmeta: nat)

  /** The bitmap covers the disk and lies among the metadata blocks, which come first. */
  predicate SuperGood(sb: Super) {
    0 < sb.nmeta <= sb.size < UINT && sb.bmapstart + sb.size / BPB < sb.nmeta
  }

  type Addrs = a: seq<nat> | |a| == NDIRECT + 1 witness seq(NDIRECT + 1, _ => 0)
  datatype Inode = Inode(addrs: Addrs, size: nat)

  type Disk = seq<Block>
  type Inodes = map<nat, Inode>

  datatype Use =
    | Free
    | Held                       // allocated, in no file yet
    | Meta
    | Data(inum: nat, bn: nat)   // block bn of a file
    | Ind(inum: nat)             // a file's indirect block

  // ---------------------------------------------------------------- the bitmap

  function BBlock(sb: Super, b: nat): nat { sb.bmapstart + b / BPB }

  function IBlock(sb: Super, i: nat): nat { sb.inodestart + i / 16 }

  predicate InUse(sb: Super, disk: Disk, b: nat)
    requires SuperGood(sb) && |disk| == sb.size && b < sb.size
  {
    BBlockInside(sb, b);
    Bit(disk[BBlock(sb, b)], b % BPB)
  }

  lemma BBlockInside(sb: Super, b: nat)
    requires SuperGood(sb) && b < sb.size
    ensures BBlock(sb, b) < sb.nmeta
  {
    assert b / BPB <= sb.size / BPB;
  }

  /** Where a block's bit is: bit b % 8 of byte b / 8, in blocks of 1024 bytes from bmapstart on. */
  lemma BitLocation(sb: Super, disk: Disk, b: nat)
    requires SuperGood(sb) && |disk| == sb.size && b < sb.size
    ensures var block, byte := sb.bmapstart + b / 8 / 1024, b / 8 % 1024;
            block < |disk| && Pow2(b % 8) > 0 && (InUse(sb, disk, b) <==> disk[block][byte] / Pow2(b % 8) % 2 == 1)
  {
    BBlockInside(sb, b);
    BytePlace(b);
    HasBitIs(disk[BBlock(sb, b)][b % BPB / 8], b % 8);
  }

  lemma BytePlace(b: nat)
    ensures b / 8 / 1024 == b / BPB && b / 8 % 1024 == b % BPB / 8 && b % 8 == b % BPB % 8
  {
    var q, i := b / BPB, b % BPB;
    assert b / 8 == 1024 * q + i / 8 && i / 8 < 1024;
    QuotientOf(b / 8, q, i / 8);
  }

  lemma QuotientOf(x: nat, q: nat, r: nat)
    requires x == 1024 * q + r && r < 1024
    ensures x / 1024 == q && x % 1024 == r
  {
  }

  function PutUse(sb: Super, disk: Disk, b: nat, on: bool): (disk': Disk)
    requires SuperGood(sb) && |disk| == sb.size && b < sb.size
    ensures |disk'| == |disk|
  {
    BBlockInside(sb, b);
    disk[BBlock(sb, b) := SetBit(disk[BBlock(sb, b)], b % BPB, on)]
  }

  lemma PutUseBit(sb: Super, disk: Disk, b: nat, on: bool, c: nat)
    requires SuperGood(sb) && |disk| == sb.size && b < sb.size && c < sb.size
    ensures InUse(sb, PutUse(sb, disk, b, on), c) <==> if c == b then on else InUse(sb, disk, c)
  {
    BBlockInside(sb, b);
    BBlockInside(sb, c);
    BitSet(disk[BBlock(sb, b)], b % BPB, on, c % BPB);
    if b / BPB == c / BPB && b % BPB == c % BPB {
      assert b == BPB * (b / BPB) + b % BPB;
    }
  }

  // ---------------------------------------------------------------- the block map

  /** The address of block n of a file, 0 for none. */
  function Addr(disk: Disk, ip: Inode, n: nat): nat
    requires n < MAXFILE
  {
    if n < NDIRECT then ip.addrs[n]
    else if ip.addrs[NDIRECT] == 0 || ip.addrs[NDIRECT] >= |disk| then 0
    else Word(disk[ip.addrs[NDIRECT]], n - NDIRECT)
  }

  predicate BlockGood(sb: Super, disk: Disk, ino: Inodes, use: seq<Use>, b: nat)
    requires SuperGood(sb) && |disk| == sb.size == |use|
  {
    b < sb.size ==>
      (InUse(sb, disk, b) <==> use[b] != Free) && (use[b] == Meta <==> b < sb.nmeta) &&
      (use[b].Data? ==> use[b].inum in ino && use[b].bn < MAXFILE && Addr(disk, ino[use[b].inum], use[b].bn) == b) &&
      (use[b].Ind? ==> use[b].inum in ino && ino[use[b].inum].addrs[NDIRECT] == b)
  }

  predicate AddrGood(disk: Disk, ino: Inodes, use: seq<Use>, i: nat, n: nat) {
    i in ino && n < MAXFILE ==>
      var a := Addr(disk, ino[i], n); a == 0 || (a < |use| && use[a] == Data(i, n))
  }

  predicate IndGood(ino: Inodes, use: seq<Use>, i: nat) {
    i in ino ==>
      var a := ino[i].addrs[NDIRECT]; a == 0 || (a < |use| && use[a] == Ind(i))
  }

  /** The set bits of the bitmap are the metadata blocks, the blocks reachable from inodes, and the blocks being handed
      over. */
  ghost predicate Good(sb: Super, disk: Disk, ino: Inodes, use: seq<Use>) {
    SuperGood(sb) && |disk| == sb.size == |use| &&
    (forall b: nat :: BlockGood(sb, disk, ino, use, b)) &&
    (forall i: nat, n: nat :: AddrGood(disk, ino, use, i, n)) &&
    forall i: nat :: IndGood(ino, use, i)
  }

  /** Nothing is shared: an address leads to one block of one file. */
  lemma Unshared(sb: Super, disk: Disk, ino: Inodes, use: seq<Use>, i: nat, n: nat, j: nat, k: nat)
    requires Good(sb, disk, ino, use) && i in ino && j in ino && n < MAXFILE && k < MAXFILE
    requires Addr(disk, ino[i], n) == Addr(disk, ino[j], k) != 0
    ensures i == j && n == k
    ensures forall l: nat :: l in ino ==> ino[l].addrs[NDIRECT] != Addr(disk, ino[i], n)
  {
    assert AddrGood(disk, ino, use, i, n) && AddrGood(disk, ino, use, j, k);
    forall l: nat | l in ino ensures ino[l].addrs[NDIRECT] != Addr(disk, ino[i], n) {
      assert IndGood(ino, use, l);
    }
  }

  predicate Reachable(disk: Disk, ino: Inodes, b: nat, i: nat, n: nat) {
    i in ino && ((n < MAXFILE && Addr(disk, ino[i], n) == b) || ino[i].addrs[NDIRECT] == b)
  }

  /** The bitmap is exact: with nothing held, a set bit is metadata or reachable from an inode, and conversely. */
  lemma BitmapExact(sb: Super, disk: Disk, ino: Inodes, use: seq<Use>, b: nat)
    requires Good(sb, disk, ino, use) && b < sb.size && use[b] != Held
    ensures InUse(sb, disk, b) <==> b < sb.nmeta || exists i: nat, n: nat :: Reachable(disk, ino, b, i, n)
  {
    assert BlockGood(sb, disk, ino, use, b);
    if use[b].Data? {
      assert Reachable(disk, ino, b, use[b].inum, use[b].bn);
    } else if use[b].Ind? {
      assert Reachable(disk, ino, b, use[b].inum, 0);
    } else if b >= sb.nmeta {
      forall i: nat, n: nat ensures !Reachable(disk, ino, b, i, n) {
        assert AddrGood(disk, ino, use, i, n) && IndGood(ino, use, i) && BlockGood(sb, disk, ino, use, 0);
      }
    }
  }

  // ---------------------------------------------------------------- changes outside the block maps

  /** A block moves between free and held, or stays where it is. */
  predicate HandOver(u: Use, u': Use) {
    u' == u || ((u.Free? || u.Held?) && (u'.Free? || u'.Held?))
  }

  ghost predicate IndKept(disk: Disk, disk': Disk, use: seq<Use>) {
    |disk| == |disk'| == |use| && forall b: nat :: b < |use| && use[b].Ind? ==> disk'[b] == disk[b]
  }

  lemma KeptAddr(sb: Super, disk: Disk, ino: Inodes, use: seq<Use>, disk': Disk, i: nat, n: nat)
    requires Good(sb, disk, ino, use) && IndKept(disk, disk', use) && i in ino && n < MAXFILE
    ensures Addr(disk', ino[i], n) == Addr(disk, ino[i], n)
  {
    assert IndGood(ino, use, i);
  }

  lemma KeptGood(sb: Super, disk: Disk, ino: Inodes, use: seq<Use>, disk': Disk, use': seq<Use>)
    requires Good(sb, disk, ino, use) && IndKept(disk, disk', use) && |use'| == sb.size
    requires forall b: nat :: b < sb.size ==> HandOver(use[b], use'[b])
    requires forall b: nat :: b < sb.size ==> (InUse(sb, disk', b) <==> use'[b] != Free)
    ensures Good(sb, disk', ino, use')
  {
    forall b: nat ensures BlockGood(sb, disk', ino, use', b) {
      assert BlockGood(sb, disk, ino, use, b);
      if b < sb.size {
        assert HandOver(use[b], use'[b]);
        if use[b].Data? {
          KeptAddr(sb, disk, ino, use, disk', use[b].inum, use[b].bn);
        }
      }
    }
    forall i: nat, n: nat ensures AddrGood(disk', ino, use', i, n) {
      assert AddrGood(disk, ino, use, i, n);
      if i in ino && n < MAXFILE {
        KeptAddr(sb, disk, ino, use, disk', i, n);
      }
    }
    forall i: nat ensures IndGood(ino, use', i) {
      assert IndGood(ino, use, i);
    }
  }

  // ---------------------------------------------------------------- allocating and freeing

  /** Block n of file j is at the same address with the same contents. */
  predicate SameBlock(disk: Disk, ino: Inodes, disk': Disk, ino': Inodes, j: nat, n: nat) {
    j in ino && n < MAXFILE ==>
      j in ino' && ino'[j].size == ino[j].size && Addr(disk', ino'[j], n) == Addr(disk, ino[j], n) &&
      (0 < Addr(disk, ino[j], n) < |disk| ==>
       |disk'| == |disk| && disk'[Addr(disk, ino[j], n)] == disk[Addr(disk, ino[j], n)])
  }

  /** Every block of every file is as it was, except perhaps block n of file i. */
  ghost predicate OthersKept(disk: Disk, ino: Inodes, disk': Disk, ino': Inodes, i: nat, n: nat) {
    forall j: nat, k: nat :: !(j == i && k == n) ==> SameBlock(disk, ino, disk', ino', j, k)
  }

  ghost predicate AllKept(disk: Disk, ino: Inodes, disk': Disk, ino': Inodes) {
    forall j: nat, k: nat :: SameBlock(disk, ino, disk', ino', j, k)
  }

  function Allocated(sb: Super, disk: Disk, b: nat): (disk': Disk)
    requires SuperGood(sb) && |disk| == sb.size && b < sb.size
    ensures |disk'| == |disk|
  {
    PutUse(sb, disk, b, true)[b := Zeroed()]
  }

  lemma AllocGood(sb: Super, disk: Disk, ino: Inodes, use: seq<Use>, b: nat)
    requires Good(sb, disk, ino, use) && b < sb.size && use[b] == Free
    ensures Good(sb, Allocated(sb, disk, b), ino, use[b := Held])
    ensures AllKept(disk, ino, Allocated(sb, disk, b), ino)
  {
    var disk', use' := Allocated(sb, disk, b), use[b := Held];
    assert BlockGood(sb, disk, ino, use, b);
    BBlockInside(sb, b);
    assert BlockGood(sb, disk, ino, use, BBlock(sb, b));
    forall c: nat | c < sb.size ensures InUse(sb, disk', c) <==> use'[c] != Free {
      PutUseBit(sb, disk, b, true, c);
      BBlockInside(sb, c);
      assert BlockGood(sb, disk, ino, use, c);
    }
    KeptGood(sb, disk, ino, use, disk', use');
    forall j: nat, k: nat ensures SameBlock(disk, ino, disk', ino, j, k) {
      OutsideKept(sb, disk, ino, use, disk', b, j, k);
    }
  }

  /** A change to one bitmap block and one block of no file shows in no file. */
  lemma OutsideKept(sb: Super, disk: Disk, ino: Inodes, use: seq<Use>, disk': Disk, b: nat, j: nat, k: nat)
    requires Good(sb, disk, ino, use) && b < sb.size && !use[b].Data? && !use[b].Ind? && |disk'| == sb.size
    requires forall c: nat :: c < sb.size && c != b && c != BBlock(sb, b) ==> disk'[c] == disk[c]
    ensures SameBlock(disk, ino, disk', ino, j, k)
  {
    BBlockInside(sb, b);
    assert BlockGood(sb, disk, ino, use, BBlock(sb, b));
    assert AddrGood(disk, ino, use, j, k);
    if j in ino && k < MAXFILE {
      KeptAddr(sb, disk, ino, use, disk', j, k);
    }
  }

  lemma FreeGood(sb: Super, disk: Disk, ino: Inodes, use: seq<Use>, b: nat)
    requires Good(sb, disk, ino, use) && b < sb.size && use[b] == Held
    ensures InUse(sb, disk, b)
    ensures Good(sb, PutUse(sb, disk, b, false), ino, use[b := Free])
    ensures AllKept(disk, ino, PutUse(sb, disk, b, false), ino)
  {
    var disk', use' := PutUse(sb, disk, b, false), use[b := Free];
    assert BlockGood(sb, disk, ino, use, b);
    BBlockInside(sb, b);
    assert BlockGood(sb, disk, ino, use, BBlock(sb, b));
    forall c: nat | c < sb.size ensures InUse(sb, disk', c) <==> use'[c] != Free {
      PutUseBit(sb, disk, b, false, c);
      assert BlockGood(sb, disk, ino, use, c);
    }
    KeptGood(sb, disk, ino, use, disk', use');
    forall j: nat, k: nat ensures SameBlock(disk, ino, disk', ino, j, k) {
      OutsideKept(sb, disk, ino, use, disk', b, j, k);
    }
  }

  // ---------------------------------------------------------------- linking and unlinking

  function SetAddr(ino: Inodes, i: nat, n: nat, b: nat): Inodes
    requires i in ino && n <= NDIRECT
  {
    ino[i := Inode(ino[i].addrs[n := b], ino[i].size)]
  }

  lemma LinkDirect(sb: Super, disk: Disk, ino: Inodes, use: seq<Use>, i: nat, n: nat, b: nat)
    requires Good(sb, disk, ino, use) && b < sb.size && use[b] == Held && i in ino && n < NDIRECT &&
             ino[i].addrs[n] == 0
    ensures Good(sb, disk, SetAddr(ino, i, n, b), use[b := Data(i, n)])
    ensures OthersKept(disk, ino, disk, SetAddr(ino, i, n, b), i, n)
  {
    var ino', use' := SetAddr(ino, i, n, b), use[b := Data(i, n)];
    assert BlockGood(sb, disk, ino, use, 0);
    forall c: nat ensures BlockGood(sb, disk, ino', use', c) {
      assert BlockGood(sb, disk, ino, use, c);
    }
    forall j: nat, k: nat ensures AddrGood(disk, ino', use', j, k) {
      assert AddrGood(disk, ino, use, j, k);
    }
    forall j: nat ensures IndGood(ino', use', j) {
      assert IndGood(ino, use, j);
    }
  }

  lemma {:induction false} ZeroWord(k: nat)
    requires k < NINDIRECT
    ensures Word(Zeroed(), k) == 0
  {
  }

  lemma LinkInd(sb: Super, disk: Disk, ino: Inodes, use: seq<Use>, i: nat, b: nat)
    requires Good(sb, disk, ino, use) && b < sb.size && use[b] == Held && disk[b] == Zeroed() && i in ino &&
             ino[i].addrs[NDIRECT] == 0
    ensures Good(sb, disk, SetAddr(ino, i, NDIRECT, b), use[b := Ind(i)])
    ensures AllKept(disk, ino, disk, SetAddr(ino, i, NDIRECT, b))
  {
    var ino', use' := SetAddr(ino, i, NDIRECT, b), use[b := Ind(i)];
    assert BlockGood(sb, disk, ino, use, 0);
    forall j: nat, k: nat | j in ino && k < MAXFILE ensures Addr(disk, ino'[j], k) == Addr(disk, ino[j], k) {
      if j == i && k >= NDIRECT {
        ZeroWord(k - NDIRECT);
      }
    }
    forall c: nat ensures BlockGood(sb, disk, ino', use', c) {
      assert BlockGood(sb, disk, ino, use, c);
    }
    forall j: nat, k: nat ensures AddrGood(disk, ino', use', j, k) {
      assert AddrGood(disk, ino, use, j, k);
    }
    forall j: nat ensures IndGood(ino', use', j) {
      assert IndGood(ino, use, j);
    }
  }

  /** The addresses after block n - NDIRECT of file i's indirect block is set. */
  lemma WordAddr(sb: Super, disk: Disk, ino: Inodes, use: seq<Use>, i: nat, n: nat, b: nat, j: nat, k: nat)
    requires Good(sb, disk, ino, use) && i in ino && NDIRECT <= n < MAXFILE && 0 < ino[i].addrs[NDIRECT] < sb.size &&
             b < UINT
    requires j in ino && k < MAXFILE
    ensures var ind := ino[i].addrs[NDIRECT];
            Addr(disk[ind := SetWord(disk[ind], n - NDIRECT, b)], ino[j], k) == if j == i && k == n then b
                                                                                else Addr(disk, ino[j], k)
  {
    var ind := ino[i].addrs[NDIRECT];
    assert IndGood(ino, use, i) && IndGood(ino, use, j);
    if k >= NDIRECT {
      WordSet(disk[ind], n - NDIRECT, b, k - NDIRECT);
    }
  }

  lemma LinkWord(sb: Super, disk: Disk, ino: Inodes, use: seq<Use>, i: nat, n: nat, b: nat)
    requires Good(sb, disk, ino, use) && b < sb.size && use[b] == Held && i in ino && NDIRECT <= n < MAXFILE
    requires 0 < ino[i].addrs[NDIRECT] < sb.size && Addr(disk, ino[i], n) == 0
    ensures var ind := ino[i].addrs[NDIRECT]; var disk' := disk[ind := SetWord(disk[ind], n - NDIRECT, b)];
            Good(sb, disk', ino, use[b := Data(i, n)]) && OthersKept(disk, ino, disk', ino, i, n) &&
            Addr(disk', ino[i], n) == b
  {
    var ind := ino[i].addrs[NDIRECT];
    var disk', use' := disk[ind := SetWord(disk[ind], n - NDIRECT, b)], use[b := Data(i, n)];
    assert IndGood(ino, use, i) && BlockGood(sb, disk, ino, use, 0) && BlockGood(sb, disk, ino, use, ind);
    forall j: nat, k: nat | j in ino && k < MAXFILE
      ensures Addr(disk', ino[j], k) == if j == i && k == n then b else Addr(disk, ino[j], k)
    {
      WordAddr(sb, disk, ino, use, i, n, b, j, k);
    }
    forall c: nat ensures BlockGood(sb, disk', ino, use', c) {
      assert BlockGood(sb, disk, ino, use, c);
      if c < sb.size {
        BBlockInside(sb, c);
      }
    }
    forall j: nat, k: nat
      ensures AddrGood(disk', ino, use', j, k) && (!(j == i && k == n) ==> SameBlock(disk, ino, disk', ino, j, k))
    {
      assert AddrGood(disk, ino, use, j, k);
    }
    forall j: nat ensures IndGood(ino, use', j) {
      assert IndGood(ino, use, j);
    }
  }

  // ---------------------------------------------------------------- the operations

  /** Blocks change hands only from free to block n of file i or to its indirect block. */
  ghost predicate Taken(use: seq<Use>, use': seq<Use>, i: nat, n: nat) {
    |use'| == |use| &&
    forall b: nat :: b < |use| ==> use'[b] == use[b] || (use[b] == Free && (use'[b] == Data(i, n) || use'[b] == Ind(i)))
  }

  function Resized(ino: Inodes, i: nat, size: nat): Inodes
    requires i in ino
  {
    ino[i := Inode(ino[i].addrs, size)]
  }

  lemma ResizedAddr(disk: Disk, ip: Inode, size: nat, n: nat)
    requires n < MAXFILE
    ensures Addr(disk, Inode(ip.addrs, size), n) == Addr(disk, ip, n)
  {
  }

  lemma ResizedGood(sb: Super, disk: Disk, ino: Inodes, use: seq<Use>, i: nat, size: nat, ino': Inodes)
    requires Good(sb, disk, ino, use) && i in ino && ino' == Resized(ino, i, size)
    ensures Good(sb, disk, ino', use)
  {
    forall c: nat ensures BlockGood(sb, disk, ino', use, c) {
      assert BlockGood(sb, disk, ino, use, c);
    }
    forall j: nat, k: nat ensures AddrGood(disk, ino', use, j, k) {
      assert AddrGood(disk, ino, use, j, k);
    }
    forall j: nat ensures IndGood(ino', use, j) {
      assert IndGood(ino, use, j);
    }
  }

  // ---------------------------------------------------------------- what is logged

  /** The blocks that came into use. */
  ghost function Fresh(use0: seq<Use>, use: seq<Use>): set<nat> {
    set b: nat | b < |use0| && b < |use| && use0[b] == Free && use[b] != Free
  }

  /** A block in use stays what it is. */
  ghost predicate Grows(use0: seq<Use>, use: seq<Use>) {
    |use| == |use0| && forall b: nat :: b < |use| ==> use[b] == use0[b] || use0[b] == Free
  }

  predicate IsEntry(use: seq<Use>, b: nat) { b < |use| && use[b].Data? && use[b].bn >= NDIRECT }

  /** An entry of an indirect block was set. */
  ghost predicate EntrySet(use0: seq<Use>, use: seq<Use>) { exists b: nat :: b in Fresh(use0, use) && IsEntry(use, b) }

  ghost function MapsOf(sb: Super, blocks: set<nat>): set<nat> { set b | b in blocks :: BBlock(sb, b) }

  /** The new blocks, which are zeroed, their bitmap blocks, and the indirect block if an entry of it was set. */
  ghost function FreshLog(sb: Super, use0: seq<Use>, use: seq<Use>, ind: nat): set<nat> {
    Fresh(use0, use) + MapsOf(sb, Fresh(use0, use)) + if EntrySet(use0, use) then {ind} else {}
  }

  /** The new data blocks are blocks lo..hi of their file. */
  ghost predicate FreshIn(use0: seq<Use>, use: seq<Use>, lo: nat, hi: nat) {
    forall b: nat :: b in Fresh(use0, use) && use[b].Data? ==> lo <= use[b].bn < hi
  }

  /** The new blocks are the first that were free. */
  ghost predicate Lowest(use0: seq<Use>, use: seq<Use>) {
    forall b: nat, c: nat :: b in Fresh(use0, use) && c < |use| && use[c] == Free ==> b < c
  }

  /** Everything bmap logs: what the blocks it took need, and no more. */
  ghost predicate Took(sb: Super, log0: set<nat>, log: set<nat>, use0: seq<Use>, use: seq<Use>, ind: nat, lo: nat,
                       hi: nat) {
    Grows(use0, use) && log == log0 + FreshLog(sb, use0, use, ind) && FreshIn(use0, use, lo, hi) && Lowest(use0, use)
  }

  lemma TookNothing(sb: Super, log: set<nat>, use: seq<Use>, ind: nat, lo: nat, hi: nat)
    ensures Fresh(use, use) == {} && Took(sb, log, log, use, use, ind, lo, hi)
  {
    assert Fresh(use, use) == {};
    assert MapsOf(sb, {}) == {};
  }

  lemma FreshOne(use: seq<Use>, b: nat, u: Use, use': seq<Use>)
    requires b < |use| && use[b] == Free && u != Free && use' == use[b := u]
    ensures Fresh(use, use') == {b} && (EntrySet(use, use') <==> IsEntry(use', b)) && Grows(use, use')
  {
    assert Fresh(use, use') == {b};
    if IsEntry(use', b) {
      assert b in Fresh(use, use');
    }
  }

  lemma TookOne(sb: Super, log: set<nat>, log': set<nat>, use: seq<Use>, use': seq<Use>, ind: nat, b: nat, u: Use,
                lo: nat, hi: nat)
    requires 0 < b < |use| && use[b] == Free && u != Free && (u.Data? ==> lo <= u.bn < hi) && use' == use[b := u]
    requires forall c: nat :: c < b ==> use[c] != Free
    requires log' == if u.Data? && u.bn >= NDIRECT then log + AllocLog(sb, b) + {ind} else log + AllocLog(sb, b)
    ensures Took(sb, log, log', use, use', ind, lo, hi)
  {
    FreshOne(use, b, u, use');
    LogOne(sb, log, log', use, use', ind, b, u);
    hide FreshLog, AllocLog;
  }

  lemma LogOne(sb: Super, log: set<nat>, log': set<nat>, use: seq<Use>, use': seq<Use>, ind: nat, b: nat, u: Use)
    requires 0 < b < |use| && use' == use[b := u] && Fresh(use, use') == {b} &&
             (EntrySet(use, use') <==> IsEntry(use', b))
    requires log' == if u.Data? && u.bn >= NDIRECT then log + AllocLog(sb, b) + {ind} else log + AllocLog(sb, b)
    ensures log' == log + FreshLog(sb, use, use', ind)
  {
    hide Fresh, EntrySet;
    assert MapsOf(sb, {b}) == {BBlock(sb, b)};
    assert AllocLog(sb, b) == {b} + {BBlock(sb, b)};
    hide AllocLog, MapsOf, BBlock;
    if IsEntry(use', b) {
      assert FreshLog(sb, use, use', ind) == AllocLog(sb, b) + {ind};
    } else {
      assert FreshLog(sb, use, use', ind) == AllocLog(sb, b);
    }
  }

  lemma FreshJoin(use0: seq<Use>, use1: seq<Use>, use2: seq<Use>)
    requires Grows(use0, use1) && Grows(use1, use2)
    ensures Grows(use0, use2) && Fresh(use0, use2) == Fresh(use0, use1) + Fresh(use1, use2)
    ensures EntrySet(use0, use2) <==> EntrySet(use0, use1) || EntrySet(use1, use2)
  {
    assert Fresh(use0, use2) == Fresh(use0, use1) + Fresh(use1, use2);
    if EntrySet(use0, use1) {
      var b: nat :| b in Fresh(use0, use1) && IsEntry(use1, b);
      assert b in Fresh(use0, use2) && IsEntry(use2, b);
    }
    if EntrySet(use1, use2) {
      var b: nat :| b in Fresh(use1, use2) && IsEntry(use2, b);
      assert b in Fresh(use0, use2);
    }
    if EntrySet(use0, use2) {
      var b: nat :| b in Fresh(use0, use2) && IsEntry(use2, b);
      assert b in Fresh(use0, use1) ==> IsEntry(use1, b);
    }
  }

  lemma TookJoin(sb: Super, log0: set<nat>, log1: set<nat>, log2: set<nat>, use0: seq<Use>, use1: seq<Use>,
                 use2: seq<Use>, ind1: nat, ind2: nat, lo: nat, mid: nat, hi: nat)
    requires Took(sb, log0, log1, use0, use1, ind1, lo, mid) && Took(sb, log1, log2, use1, use2, ind2, lo, hi)
    requires mid <= hi && (ind1 == ind2 || !EntrySet(use0, use1))
    ensures Took(sb, log0, log2, use0, use2, ind2, lo, hi)
  {
    FreshJoin(use0, use1, use2);
    var f, g := Fresh(use0, use1), Fresh(use1, use2);
    assert MapsOf(sb, f + g) == MapsOf(sb, f) + MapsOf(sb, g);
  }

  /** Every block that differs has been given to log_write. */
  ghost predicate ChangesLogged(disk: Disk, disk': Disk, log: set<nat>, log': set<nat>) {
    |disk'| == |disk| && log <= log' && forall b: nat :: b < |disk| && disk'[b] != disk[b] ==> b in log'
  }

  lemma LoggedTransitive(disk0: Disk, disk1: Disk, disk2: Disk, log0: set<nat>, log1: set<nat>, log2: set<nat>)
    requires ChangesLogged(disk0, disk1, log0, log1) && ChangesLogged(disk1, disk2, log1, log2)
    ensures ChangesLogged(disk0, disk2, log0, log2)
  {
  }

  lemma WriteLogged1(disk: Disk, b: nat, x: Block, log: set<nat>)
    requires b < |disk|
    ensures ChangesLogged(disk, disk[b := x], log, log + {b})
  {
  }

  /** No inode but i has changed. */
  predicate OnlyInode(ino: Inodes, ino': Inodes, i: nat) { i in ino' && ino' == ino[i := ino'[i]] }

  /** The log writes of allocating a block. */
  function AllocLog(sb: Super, b: nat): set<nat> { if b == 0 then {} else {BBlock(sb, b), b} }

  class FileSystem {
    const sb: Super
    var disk: Disk
    var ino: Inodes
    ghost var use: seq<Use>
    ghost var logged: set<nat>

    ghost predicate Valid() reads this {
      Good(sb, disk, ino, use)
    }

    /** A free block is marked in use and zeroed. */
    method Claim(r: nat)
      requires Valid() && r < sb.size && use[r] == Free
      modifies this
      ensures Valid() && ino == old(ino)
      ensures disk == Allocated(sb, old(disk), r) && use == old(use)[r := Held] &&
              logged == old(logged) + AllocLog(sb, r) && ChangesLogged(old(disk), disk, old(logged), logged)
    {
      assert BlockGood(sb, disk, ino, use, 0);
      AllocGood(sb, disk, ino, use, r);
      BBlockInside(sb, r);
      disk := disk[BBlock(sb, r) := SetBit(disk[BBlock(sb, r)], r % BPB, true)];
      disk := disk[r := Zeroed()];
      use := use[r := Held];
      logged := logged + AllocLog(sb, r);
    }

    /** balloc: the first free block, zeroed, or 0 if there is none. */
    method Balloc() returns (r: nat)
      requires Valid()
      modifies this
      ensures Valid() && ino == old(ino)
      ensures r == 0 ==> disk == old(disk) && use == old(use) && logged == old(logged) &&
                         forall c: nat :: c < sb.size ==> use[c] != Free
      ensures r != 0 ==> r < sb.size && old(use)[r] == Free && (forall c: nat :: c < r ==> old(use)[c] != Free) &&
                         disk == Allocated(sb, old(disk), r) && use == old(use)[r := Held] &&
                         logged == old(logged) + AllocLog(sb, r)
      ensures ChangesLogged(old(disk), disk, old(logged), logged)
    {
      var b := 0;
      while b < sb.size
        invariant b % BPB == 0 && ino == old(ino) && disk == old(disk) && use == old(use) && logged == old(logged)
        invariant forall c: nat :: c < b && c < sb.size ==> InUse(sb, disk, c)
        decreases sb.size - b
      {
        BBlockInside(sb, b);
        var bp := disk[BBlock(sb, b)];
        var bi := 0;
        while bi < BPB && b + bi < sb.size
          invariant 0 <= bi <= BPB && b + bi <= sb.size
          invariant ino == old(ino) && disk == old(disk) && use == old(use) && logged == old(logged)
          invariant forall c: nat :: c < b + bi ==> InUse(sb, disk, c)
        {
          BitmapPosition(b, bi);
          if !Bit(bp, bi) {
            r := b + bi;
            AllUsed(sb, disk, ino, use, r);
            Claim(r);
            return;
          }
          bi := bi + 1;
        }
        b := b + BPB;
      }
      AllUsed(sb, disk, ino, use, sb.size);
      r := 0;
    }

    /** bfree, while the inodes are on the way to `after`. */
    method Bfree(b: nat, ghost after: Inodes)
      requires Good(sb, disk, after, use) && b < sb.size && use[b] == Held
      modifies this
      ensures Good(sb, disk, after, use) && ino == old(ino)
      ensures disk == PutUse(sb, old(disk), b, false) && use == old(use)[b := Free] &&
              logged == old(logged) + {BBlock(sb, b)} && ChangesLogged(old(disk), disk, old(logged), logged)
    {
      FreeGood(sb, disk, after, use, b);
      BBlockInside(sb, b);
      var bp, bi := disk[BBlock(sb, b)], b % BPB;
      assert Bit(bp, bi);  // not freeing a free block
      disk := disk[BBlock(sb, b) := SetBit(bp, bi, false)];
      use := use[b := Free];
      logged := logged + {BBlock(sb, b)};
    }

    /** A block for entry n of the inode itself. */
    method BmapDirect(i: nat, n: nat) returns (addr: nat)
      requires Valid() && i in ino && n < NDIRECT && ino[i].addrs[n] == 0
      modifies this
      ensures Valid() && Mapped(sb, old(disk), old(ino), old(use), disk, ino, use, i, n, addr)
      ensures Took(sb, old(logged), logged, old(use), use, ino[i].addrs[NDIRECT], n, n + 1)
      ensures ChangesLogged(old(disk), disk, old(logged), logged) && OnlyInode(old(ino), ino, i)
    {
      addr := Balloc();
      if addr == 0 {
        TookNothing(sb, logged, use, ino[i].addrs[NDIRECT], n, n + 1);
        return;
      }
      TookOne(sb, old(logged), logged, old(use), use[addr := Data(i, n)], ino[i].addrs[NDIRECT], addr, Data(i, n), n,
              n + 1);
      hide Took, Lowest;
      AllocGood(sb, old(disk), ino, old(use), addr);
      LinkDirect(sb, disk, ino, use, i, n, addr);
      MappedDirect(sb, old(disk), ino, old(use), i, n, addr);
      ino := SetAddr(ino, i, n, addr);
      use := use[addr := Data(i, n)];
    }

    /** The indirect block, allocated if need be. */
    method Indirect(i: nat, ghost lo: nat, ghost hi: nat) returns (ind: nat)
      requires Valid() && i in ino
      modifies this
      ensures Valid() && i in ino && ino.Keys == old(ino).Keys && AllKept(old(disk), old(ino), disk, ino)
      ensures ind == ino[i].addrs[NDIRECT] && ino[i].size == old(ino)[i].size
      ensures ind == 0 ==> forall b: nat :: b < sb.size ==> use[b] != Free
      ensures |use| == |old(use)| &&
              forall b: nat :: b < |use| ==> use[b] == old(use)[b] || (old(use)[b] == Free && use[b] == Ind(i))
      ensures old(ino)[i].addrs[NDIRECT] != 0 ==>
                disk == old(disk) && ino == old(ino) && use == old(use) && logged == old(logged)
      ensures Took(sb, old(logged), logged, old(use), use, ind, lo, hi) && !EntrySet(old(use), use)
      ensures ChangesLogged(old(disk), disk, old(logged), logged) && OnlyInode(old(ino), ino, i)
    {
      ind := ino[i].addrs[NDIRECT];
      TookNothing(sb, logged, use, ind, lo, hi);
      if ind == 0 {
        ind := Balloc();
        if ind != 0 {
          FreshOne(old(use), ind, Ind(i), use[ind := Ind(i)]);
          TookOne(sb, old(logged), logged, old(use), use[ind := Ind(i)], ind, ind, Ind(i), lo, hi);
          hide Took, EntrySet;
          AllocGood(sb, old(disk), ino, old(use), ind);
          LinkInd(sb, disk, ino, use, i, ind);
          AllTransitive(old(disk), ino, disk, ino, disk, SetAddr(ino, i, NDIRECT, ind));
          ino := SetAddr(ino, i, NDIRECT, ind);
          use := use[ind := Ind(i)];
        }
      }
    }

    /** A block for an entry of the indirect block. */
    method BmapIndirect(i: nat, n: nat, ind: nat) returns (addr: nat)
      requires Valid() && i in ino && NDIRECT <= n < MAXFILE && ind == ino[i].addrs[NDIRECT] && 0 < ind < sb.size &&
               Addr(disk, ino[i], n) == 0
      modifies this
      ensures Valid() && ino == old(ino) && Mapped(sb, old(disk), old(ino), old(use), disk, ino, use, i, n, addr)
      ensures Took(sb, old(logged), logged, old(use), use, ind, n, n + 1)
      ensures ChangesLogged(old(disk), disk, old(logged), logged)
    {
      addr := Balloc();
      if addr == 0 {
        TookNothing(sb, logged, use, ind, n, n + 1);
        return;
      }
      TookOne(sb, old(logged), logged + {ind}, old(use), use[addr := Data(i, n)], ind, addr, Data(i, n), n, n + 1);
      hide Took;
      MappedWord(sb, old(disk), ino, old(use), i, n, addr);
      disk := disk[ind := SetWord(disk[ind], n - NDIRECT, addr)];
      use := use[addr := Data(i, n)];
      logged := logged + {ind};
    }

    /** bmap */
    method Bmap(i: nat, bn: nat) returns (addr: nat)
      requires Valid() && i in ino && bn < MAXFILE
      modifies this
      ensures Valid() && i in ino
      ensures Addr(old(disk), old(ino)[i], bn) != 0 ==>
                addr == Addr(disk, ino[i], bn) && disk == old(disk) && ino == old(ino) && use == old(use) &&
                logged == old(logged)
      ensures Addr(old(disk), old(ino)[i], bn) == 0 ==>
                Mapped(sb, old(disk), old(ino), old(use), disk, ino, use, i, bn, addr)
      ensures Took(sb, old(logged), logged, old(use), use, ino[i].addrs[NDIRECT], bn, bn + 1)
      ensures ChangesLogged(old(disk), disk, old(logged), logged) && OnlyInode(old(ino), ino, i)
    {
      if bn < NDIRECT {
        addr := ino[i].addrs[bn];
        TookNothing(sb, logged, use, ino[i].addrs[NDIRECT], bn, bn + 1);
        if addr == 0 {
          addr := BmapDirect(i, bn);
        }
        return;
      }
      var ind := Indirect(i, bn, bn + 1);
      assert SameBlock(old(disk), old(ino), disk, ino, i, bn);
      if ind == 0 {
        OthersOfAll(old(disk), old(ino), disk, ino, i, bn);
        return 0;
      }
      assert IndGood(ino, use, i);
      addr := Word(disk[ind], bn - NDIRECT);
      if addr == 0 {
        ghost var disk1, ino1, use1, log1 := disk, ino, use, logged;
        addr := BmapIndirect(i, bn, ind);
        LoggedTransitive(old(disk), disk1, disk, old(logged), log1, logged);
        TookJoin(sb, old(logged), log1, logged, old(use), use1, use, ind, ind, bn, bn + 1, bn + 1);
        OthersOfAll(old(disk), old(ino), disk1, ino1, i, bn);
        OthersTransitive(old(disk), old(ino), disk1, ino1, disk, ino, i, bn);
      }
    }
  }

  lemma OthersOfAll(disk: Disk, ino: Inodes, disk': Disk, ino': Inodes, i: nat, n: nat)
    requires AllKept(disk, ino, disk', ino')
    ensures OthersKept(disk, ino, disk', ino', i, n)
  {
  }

  lemma MappedWord(sb: Super, disk: Disk, ino: Inodes, use: seq<Use>, i: nat, n: nat, b: nat)
    requires Good(sb, disk, ino, use) && 0 < b < sb.size && use[b] == Free && i in ino && NDIRECT <= n < MAXFILE
    requires 0 < ino[i].addrs[NDIRECT] < sb.size && Addr(disk, ino[i], n) == 0
    ensures var ind, disk1 := ino[i].addrs[NDIRECT], Allocated(sb, disk, b);
            var disk', use' := disk1[ind := SetWord(disk1[ind], n - NDIRECT, b)], use[b := Held][b := Data(i, n)];
            Mapped(sb, disk, ino, use, disk', ino, use', i, n, b) && Good(sb, disk', ino, use')
  {
    var disk1 := Allocated(sb, disk, b);
    AllocGood(sb, disk, ino, use, b);
    assert SameBlock(disk, ino, disk1, ino, i, n);
    LinkWord(sb, disk1, ino, use[b := Held], i, n, b);
    var ind := ino[i].addrs[NDIRECT];
    assert IndGood(ino, use, i);
    OthersTransitive(disk, ino, disk1, ino, disk1[ind := SetWord(disk1[ind], n - NDIRECT, b)], ino, i, n);
  }

  /** Block n of file i got an address, and nothing else changed; or there is no free block left. */
  ghost predicate Mapped(sb: Super, disk: Disk, ino: Inodes, use: seq<Use>, disk': Disk, ino': Inodes, use': seq<Use>,
                         i: nat, n: nat, addr: nat) {
    |disk'| == |use'| == sb.size && n < MAXFILE && ino'.Keys == ino.Keys && i in ino && ino'[i].size == ino[i].size &&
    (ino[i].addrs[NDIRECT] != 0 ==> ino'[i].addrs[NDIRECT] == ino[i].addrs[NDIRECT]) &&
    OthersKept(disk, ino, disk', ino', i, n) && Taken(use, use', i, n) &&
    (addr == 0 ==> Addr(disk', ino'[i], n) == 0 && forall b: nat :: b < sb.size ==> use'[b] != Free) &&
    (addr != 0 ==> addr < sb.size && Addr(disk', ino'[i], n) == addr && use'[addr] == Data(i, n) &&
                   disk'[addr] == Zeroed())
  }

  lemma MappedDirect(sb: Super, disk: Disk, ino: Inodes, use: seq<Use>, i: nat, n: nat, b: nat)
    requires Good(sb, disk, ino, use) && 0 < b < sb.size && use[b] == Free && i in ino && n < NDIRECT &&
             ino[i].addrs[n] == 0
    ensures Mapped(sb, disk, ino, use, Allocated(sb, disk, b), SetAddr(ino, i, n, b), use[b := Held][b := Data(i, n)],
                   i, n, b)
  {
    var disk' := Allocated(sb, disk, b);
    AllocGood(sb, disk, ino, use, b);
    LinkDirect(sb, disk', ino, use[b := Held], i, n, b);
    OthersTransitive(disk, ino, disk', ino, disk', SetAddr(ino, i, n, b), i, n);
  }

  lemma OthersTransitive(disk: Disk, ino: Inodes, disk1: Disk, ino1: Inodes, disk2: Disk, ino2: Inodes, i: nat, n: nat)
    requires OthersKept(disk, ino, disk1, ino1, i, n) && OthersKept(disk1, ino1, disk2, ino2, i, n)
    ensures OthersKept(disk, ino, disk2, ino2, i, n)
  {
    forall j: nat, k: nat | !(j == i && k == n) ensures SameBlock(disk, ino, disk2, ino2, j, k) {
      assert SameBlock(disk, ino, disk1, ino1, j, k) && SameBlock(disk1, ino1, disk2, ino2, j, k);
    }
  }

  lemma AllTransitive(disk: Disk, ino: Inodes, disk1: Disk, ino1: Inodes, disk2: Disk, ino2: Inodes)
    requires AllKept(disk, ino, disk1, ino1) && AllKept(disk1, ino1, disk2, ino2)
    ensures AllKept(disk, ino, disk2, ino2)
  {
    forall j: nat, k: nat ensures SameBlock(disk, ino, disk2, ino2, j, k) {
      assert SameBlock(disk, ino, disk1, ino1, j, k) && SameBlock(disk1, ino1, disk2, ino2, j, k);
    }
  }

  lemma BitmapPosition(b: nat, bi: nat)
    requires b % BPB == 0 && bi < BPB
    ensures (b + bi) / BPB == b / BPB && (b + bi) % BPB == bi
  {
    assert b + bi == BPB * (b / BPB) + bi;
  }

  lemma AllUsed(sb: Super, disk: Disk, ino: Inodes, use: seq<Use>, top: nat)
    requires Good(sb, disk, ino, use) && top <= sb.size && forall c: nat :: c < top ==> InUse(sb, disk, c)
    ensures forall c: nat :: c < top ==> use[c] != Free
    ensures top < sb.size && !InUse(sb, disk, top) ==> use[top] == Free && top >= sb.nmeta
  {
    forall c: nat | c < top ensures use[c] != Free {
      assert BlockGood(sb, disk, ino, use, c);
    }
    assert BlockGood(sb, disk, ino, use, top);
  }
}
