/**
 The initial file system (mkfs/mkfs.c): blocks are handed out in order, and the bitmap is written last.

 Until then the invariants are those of the image with the bitmap it will get.
 */
module Mkfs {
  import opened Blocks
  import opened BlockMaps
  import opened FileContents

  /** FSSIZE blocks: boot, super, 30 of log, 13 of inodes, one of bitmap, data. */
  const LAYOUT: Super := Super(2000, 45, 32, 46)

  // ---------------------------------------------------------------- the bitmap to come

  /** A bitmap block with the first n bits set, as balloc makes it. */
  function Marked(n: nat): Block
    requires n <= BPB
  {
    if n == 0 then Zeroed() else SetBit(Marked(n - 1), n - 1, true)
  }

  lemma {:induction false} MarkedBits(n: nat, j: nat)
    requires n <= BPB && j < BPB
    ensures Bit(Marked(n), j) <==> j < n
  {
    if n == 0 {
      assert Zeroed()[j / 8] == 0;
      NoBits(j % 8);
    } else {
      MarkedBits(n - 1, j);
      BitSet(Marked(n - 1), n - 1, true, j);
    }
  }

  lemma {:induction false} NoBits(k: nat)
    ensures !HasBit(0, k)
  {
    if k > 0 {
      NoBits(k - 1);
    }
  }

  /** The image as it will be once its bitmap is written. */
  function Finished(disk: Disk, free: nat): (d: Disk)
    requires |disk| == LAYOUT.size && free <= LAYOUT.size
    ensures |d| == |disk|
  {
    disk[LAYOUT.bmapstart := Marked(free)]
  }

  /** Taking the next block is allocating it in that image. */
  lemma NextBlock(disk: Disk, free: nat)
    requires |disk| == LAYOUT.size && LAYOUT.nmeta <= free < LAYOUT.size && disk[free] == Zeroed()
    ensures Allocated(LAYOUT, Finished(disk, free), free) == Finished(disk, free + 1)
  {
    assert BBlock(LAYOUT, free) == LAYOUT.bmapstart && free % BPB == free;
  }

  ghost predicate ZeroFrom(disk: Disk, use: seq<Use>, free: nat) {
    |disk| == |use| && forall b: nat :: free <= b < |disk| ==> disk[b] == Zeroed() && use[b] == Free
  }

  ghost predicate ImageGood(disk: Disk, ino: Inodes, use: seq<Use>, free: nat) {
    |disk| == LAYOUT.size == |use| && LAYOUT.nmeta <= free <= LAYOUT.size &&
    Good(LAYOUT, Finished(disk, free), ino, use) && ZeroFrom(disk, use, free) &&
    forall b: nat :: b < |use| ==> use[b] != Held
  }

  /** Blocks in use are those below free. */
  lemma UsedBelow(disk: Disk, ino: Inodes, use: seq<Use>, free: nat, b: nat)
    requires ImageGood(disk, ino, use, free) && b < LAYOUT.size
    ensures use[b] != Free <==> b < free
  {
    assert BlockGood(LAYOUT, Finished(disk, free), ino, use, b);
    assert BBlock(LAYOUT, b) == LAYOUT.bmapstart && b % BPB == b;
    MarkedBits(free, b);
  }

  // ---------------------------------------------------------------- an empty image

  function EmptyUse(): (use: seq<Use>)
    ensures |use| == LAYOUT.size
  {
    seq(LAYOUT.size, b => if b < LAYOUT.nmeta then Meta else Free)
  }

  lemma EmptyGood(disk: Disk)
    requires |disk| == LAYOUT.size && forall b: nat :: LAYOUT.nmeta <= b < LAYOUT.size ==> disk[b] == Zeroed()
    ensures ImageGood(disk, map[], EmptyUse(), LAYOUT.nmeta)
  {
    var d, use := Finished(disk, LAYOUT.nmeta), EmptyUse();
    forall b: nat ensures BlockGood(LAYOUT, d, map[], use, b) {
      if b < LAYOUT.size {
        assert BBlock(LAYOUT, b) == LAYOUT.bmapstart && b % BPB == b;
        MarkedBits(LAYOUT.nmeta, b);
      }
    }
  }

  /** A new inode has no blocks. */
  lemma NewInodeGood(sb: Super, disk: Disk, ino: Inodes, use: seq<Use>, i: nat, ino': Inodes)
    requires Good(sb, disk, ino, use) && i !in ino && ino' == ino[i := Inode(seq(NDIRECT + 1, _ => 0), 0)]
    ensures Good(sb, disk, ino', use) && Dense(disk, ino'[i]) && OtherFilesKept(disk, ino, disk, ino', i)
  {
    forall c: nat ensures BlockGood(sb, disk, ino', use, c) {
      assert BlockGood(sb, disk, ino, use, c);
    }
    forall j: nat, k: nat ensures AddrGood(disk, ino', use, j, k) {
      assert AddrGood(disk, ino, use, j, k);
    }
    forall j: nat ensures IndGood(ino', use, j) {
      assert IndGood(ino, use, j);
    }
  }

  // ---------------------------------------------------------------- handing out blocks

  lemma DirectNext(disk: Disk, ino: Inodes, use: seq<Use>, free: nat, i: nat, n: nat)
    requires ImageGood(disk, ino, use, free) && free < LAYOUT.size && i in ino && n < NDIRECT && ino[i].addrs[n] == 0
    ensures var ino', use' := SetAddr(ino, i, n, free), use[free := Held][free := Data(i, n)];
            ImageGood(disk, ino', use', free + 1) &&
            Mapped(LAYOUT, Finished(disk, free), ino, use, Finished(disk, free + 1), ino', use', i, n, free)
  {
    NextBlock(disk, free);
    AllocGood(LAYOUT, Finished(disk, free), ino, use, free);
    LinkDirect(LAYOUT, Finished(disk, free + 1), ino, use[free := Held], i, n, free);
    MappedDirect(LAYOUT, Finished(disk, free), ino, use, i, n, free);
  }

  lemma IndNext(disk: Disk, ino: Inodes, use: seq<Use>, free: nat, i: nat)
    requires ImageGood(disk, ino, use, free) && free < LAYOUT.size && i in ino && ino[i].addrs[NDIRECT] == 0
    ensures var ino', use' := SetAddr(ino, i, NDIRECT, free), use[free := Held][free := Ind(i)];
            ImageGood(disk, ino', use', free + 1) && AllKept(Finished(disk, free), ino, Finished(disk, free + 1), ino')
  {
    NextBlock(disk, free);
    var d, d' := Finished(disk, free), Finished(disk, free + 1);
    AllocGood(LAYOUT, d, ino, use, free);
    LinkInd(LAYOUT, d', ino, use[free := Held], i, free);
    AllTransitive(d, ino, d', ino, d', SetAddr(ino, i, NDIRECT, free));
  }

  lemma WordNext(disk: Disk, ino: Inodes, use: seq<Use>, free: nat, i: nat, n: nat, disk': Disk)
    requires ImageGood(disk, ino, use, free) && free < LAYOUT.size && i in ino && NDIRECT <= n < MAXFILE
    requires 0 < ino[i].addrs[NDIRECT] < LAYOUT.size && Addr(Finished(disk, free), ino[i], n) == 0
    requires var ind := ino[i].addrs[NDIRECT]; disk' == disk[ind := SetWord(disk[ind], n - NDIRECT, free)]
    ensures var use' := use[free := Held][free := Data(i, n)];
            ImageGood(disk', ino, use', free + 1) &&
            Mapped(LAYOUT, Finished(disk, free), ino, use, Finished(disk', free + 1), ino, use', i, n, free)
  {
    var ind, d := ino[i].addrs[NDIRECT], Finished(disk, free);
    assert IndGood(ino, use, i) && BlockGood(LAYOUT, d, ino, use, ind);
    UsedBelow(disk, ino, use, free, ind);
    NextBlock(disk, free);
    MappedWord(LAYOUT, d, ino, use, i, n, free);
    var d1 := Finished(disk, free + 1);
    assert Finished(disk', free + 1) == d1[ind := SetWord(d1[ind], n - NDIRECT, free)];
  }

  /** Overwriting a block in use leaves the blocks from `free` on alone. */
  lemma WrittenImage(disk: Disk, ino: Inodes, use: seq<Use>, free: nat, x: nat, b: Block)
    requires ImageGood(disk, ino, use, free) && x < LAYOUT.size && use[x].Data?
    ensures x >= LAYOUT.nmeta && Finished(disk[x := b], free) == Finished(disk, free)[x := b]
    ensures ImageGood(disk[x := b], ino, use, free)
  {
    assert BlockGood(LAYOUT, Finished(disk, free), ino, use, x);
    DataGood(LAYOUT, Finished(disk, free), ino, use, x, b);
    assert Finished(disk[x := b], free) == Finished(disk, free)[x := b];
  }

  // ---------------------------------------------------------------- files that end where their size says

  predicate BlockAbsent(disk: Disk, ip: Inode, size: nat, n: nat) {
    n < MAXFILE && n * BSIZE >= size ==> Addr(disk, ip, n) == 0
  }

  ghost predicate EmptyFrom(disk: Disk, ip: Inode, size: nat) {
    forall n: nat :: BlockAbsent(disk, ip, size, n)
  }

  /** The file's blocks are those below its size and no others. */
  ghost predicate Tidy(disk: Disk, ino: Inodes, i: nat) {
    i in ino ==> Dense(disk, ino[i]) && EmptyFrom(disk, ino[i], ino[i].size)
  }

  lemma TidyOther(disk: Disk, ino: Inodes, disk': Disk, ino': Inodes, i: nat, j: nat)
    requires OtherFilesKept(disk, ino, disk', ino', i) && j != i && Tidy(disk, ino, j) && (j in ino <==> j in ino')
    ensures Tidy(disk', ino', j)
  {
    if j in ino {
      assert SameBlock(disk, ino, disk', ino', j, 0);
      forall n: nat
        ensures BlockMapped(disk', ino'[j], ino'[j].size, n) && BlockAbsent(disk', ino'[j], ino'[j].size, n)
      {
        assert SameBlock(disk, ino, disk', ino', j, n) && BlockMapped(disk, ino[j], ino[j].size, n);
        assert BlockAbsent(disk, ino[j], ino[j].size, n);
      }
    }
  }

  /** Mapping the block of byte cur, which is then written, leaves nothing mapped behind the bytes. */
  lemma MapsNoFurther(sb: Super, disk: Disk, ino: Inodes, use: seq<Use>, disk': Disk, ino': Inodes, use': seq<Use>,
                      i: nat, cur: nat, x: nat, size: nat)
    requires i in ino && EmptyFrom(disk, ino[i], cur) && cur / BSIZE < MAXFILE
    requires Mapped(sb, disk, ino, use, disk', ino', use', i, cur / BSIZE, x)
    requires if x == 0 then size == cur else size > cur
    ensures EmptyFrom(disk', ino'[i], size)
  {
    var k := cur / BSIZE;
    assert k * BSIZE <= cur;
    forall n: nat ensures BlockAbsent(disk', ino'[i], size, n) {
      assert BlockAbsent(disk, ino[i], cur, n);
      if n != k {
        assert SameBlock(disk, ino, disk', ino', i, n);
      }
    }
  }

  lemma EmptyFurther(disk: Disk, ip: Inode, disk': Disk, ip': Inode, size: nat, size': nat)
    requires EmptyFrom(disk, ip, size) && size <= size' &&
             forall n: nat :: n < MAXFILE ==> Addr(disk', ip', n) == Addr(disk, ip, n)
    ensures EmptyFrom(disk', ip', size')
  {
    forall n: nat ensures BlockAbsent(disk', ip', size', n) {
      assert BlockAbsent(disk, ip, size, n);
    }
  }

  // ---------------------------------------------------------------- how many blocks a file takes

  function DataBlocks(size: nat): nat { (size + BSIZE - 1) / BSIZE }

  /** With its indirect block. */
  function FileBlocks(size: nat): nat { DataBlocks(size) + if DataBlocks(size) > NDIRECT then 1 else 0 }

  predicate HasIndirect(ip: Inode) { ip.addrs[NDIRECT] != 0 }

  /** The blocks that mapping block n takes, if it is not mapped. */
  function Cost(ind: bool, n: nat): nat { if n >= NDIRECT && !ind then 2 else 1 }

  /** The blocks that t more bytes behind the first size take. */
  function Need(ind: bool, size: nat, t: nat): nat {
    DataBlocks(size + t) - DataBlocks(size) + if DataBlocks(size + t) > NDIRECT && !ind then 1 else 0
  }

  lemma BlocksGrow(a: nat, b: nat)
    requires a <= b
    ensures DataBlocks(a) <= DataBlocks(b)
  {
  }

  /** One chunk takes a block exactly when it starts one. */
  lemma ChunkNeeds(ind: bool, size: nat, t: nat, m: nat)
    requires 0 < m <= BSIZE - (size + t) % BSIZE && (ind || DataBlocks(size) <= NDIRECT)
    ensures var cur, ind1 := size + t, ind || DataBlocks(size + t) > NDIRECT;
            Need(ind, size, t + m) == Need(ind, size, t) + (if cur % BSIZE == 0 then Cost(ind1, cur / BSIZE) else 0) &&
            (ind || DataBlocks(cur + m) > NDIRECT <==> ind1 || (cur % BSIZE == 0 && cur / BSIZE >= NDIRECT))
  {
    var cur := size + t;
    assert cur == BSIZE * (cur / BSIZE) + cur % BSIZE;
    assert DataBlocks(cur + m) == cur / BSIZE + 1;
    assert DataBlocks(cur) == if cur % BSIZE == 0 then cur / BSIZE else cur / BSIZE + 1;
    BlocksGrow(size, cur);
  }

  lemma NeedGrows(ind: bool, size: nat, t: nat, t': nat)
    requires t <= t'
    ensures Need(ind, size, t) <= Need(ind, size, t')
  {
    BlocksGrow(size + t, size + t');
  }

  lemma NeedIsMore(size: nat, t: nat)
    ensures FileBlocks(size + t) == FileBlocks(size) + Need(DataBlocks(size) > NDIRECT, size, t)
  {
    BlocksGrow(size, size + t);
  }

  /** In a file without holes the first byte of a block is where a block is missing. */
  lemma StartsBlock(disk: Disk, ip: Inode, cur: nat)
    requires DenseTo(disk, ip, cur) && EmptyFrom(disk, ip, cur) && cur / BSIZE < MAXFILE
    ensures Addr(disk, ip, cur / BSIZE) == 0 <==> cur % BSIZE == 0
  {
    var n := cur / BSIZE;
    assert cur == BSIZE * n + cur % BSIZE;
    assert BlockMapped(disk, ip, cur, n) && BlockAbsent(disk, ip, cur, n);
  }

  // ---------------------------------------------------------------- the image

  function RoundedSize(size: nat): nat { (size / BSIZE + 1) * BSIZE }

  /** The root directory has no hole after the correction exactly when its size was not a whole number of blocks. */
  lemma RoundedDense(disk: Disk, ino: Inodes, i: nat, ip: Inode)
    requires i in ino && Tidy(disk, ino, i) && RoundedSize(ino[i].size) <= MAXBYTES &&
             ip == Inode(ino[i].addrs, RoundedSize(ino[i].size))
    ensures Dense(disk, ip) <==> ino[i].size % BSIZE != 0
  {
    var size, last := ino[i].size, ino[i].size / BSIZE;
    assert size == last * BSIZE + size % BSIZE && last * BSIZE < RoundedSize(size);
    ResizedAddr(disk, ino[i], ip.size, last);
    if size % BSIZE == 0 {
      assert BlockAbsent(disk, ino[i], size, last);
      assert !BlockMapped(disk, ip, ip.size, last);
    } else {
      forall n: nat ensures BlockMapped(disk, ip, ip.size, n) {
        assert BlockMapped(disk, ino[i], size, n);
        if n < MAXFILE {
          ResizedAddr(disk, ino[i], ip.size, n);
          assert n * BSIZE < ip.size ==> n <= last;
        }
      }
    }
  }

  /** Mapping block n took what it costs, or there was not enough. */
  predicate TakenFor(ind: bool, n: nat, free: nat, x: nat, ind': bool, free': nat) {
    (x != 0 <==> free + Cost(ind, n) <= LAYOUT.size) &&
    (x != 0 ==> free' == free + Cost(ind, n) && (ind' <==> ind || n >= NDIRECT))
  }

  /** After t more bytes the blocks they take are gone, and the indirect block is there if it is needed. */
  predicate CountedTo(ind: bool, size: nat, t: nat, free: nat, ind': bool, free': nat) {
    free' == free + Need(ind, size, t) && (ind' <==> ind || DataBlocks(size + t) > NDIRECT)
  }

  /** What a chunk of c bytes does to the count. */
  predicate ChunkTaken(cur: nat, free: nat, ind: bool, m: nat, ind': bool, free': nat) {
    if cur % BSIZE == 0 then TakenFor(ind, cur / BSIZE, free, m, ind', free')
    else m > 0 && free' == free && (ind' <==> ind)
  }

  lemma CountNone(ind: bool, size: nat, free: nat)
    requires ind || DataBlocks(size) <= NDIRECT
    ensures CountedTo(ind, size, 0, free, ind, free)
  {
  }

  lemma CountChunk(ind: bool, size: nat, t: nat, c: nat, n: nat, free: nat, ind1: bool, free1: nat, m: nat, ind': bool,
                   free': nat)
    requires CountedTo(ind, size, t, free, ind1, free1) && ChunkTaken(size + t, free1, ind1, m, ind', free')
    requires 0 < c <= BSIZE - (size + t) % BSIZE && (ind || DataBlocks(size) <= NDIRECT) && t + c <= n && m in {0, c}
    requires free1 <= LAYOUT.size
    ensures m > 0 ==> CountedTo(ind, size, t + m, free, ind', free')
    ensures m == 0 ==> free + Need(ind, size, n) > LAYOUT.size
  {
    ChunkNeeds(ind, size, t, c);
    NeedGrows(ind, size, t + c, n);
  }

  /** A file without holes that reaches past the direct blocks has its indirect block. */
  lemma IndirectThere(disk: Disk, ip: Inode)
    requires Dense(disk, ip) && DataBlocks(ip.size) > NDIRECT
    ensures HasIndirect(ip)
  {
    assert BlockMapped(disk, ip, ip.size, NDIRECT);
  }

  /** tot bytes of data are behind the file's old ones, and nothing else changed. */
  ghost predicate Appended(disk0: Disk, ino0: Inodes, use0: seq<Use>, data: seq<Byte>, tot: nat, disk: Disk,
                           ino: Inodes,
                           use: seq<Use>, i: nat) {
    i in ino0 && i in ino && Writing(disk0, ino0, use0, data, ino0[i].size, tot, disk, ino, use, i) &&
    EmptyFrom(disk, ino[i], ino0[i].size + tot) && ino == ino0[i := ino[i]]
  }

  /** And they took the blocks they need. */
  ghost predicate Appending(disk0: Disk, ino0: Inodes, use0: seq<Use>, free0: nat, data: seq<Byte>, tot: nat,
                            disk: Disk,
                            ino: Inodes, use: seq<Use>, free: nat, i: nat) {
    Appended(disk0, ino0, use0, data, tot, disk, ino, use, i) &&
    (HasIndirect(ino0[i]) || DataBlocks(ino0[i].size) <= NDIRECT) &&
    CountedTo(HasIndirect(ino0[i]), ino0[i].size, tot, free0, HasIndirect(ino[i]), free)
  }

  lemma AppendingNone(disk: Disk, ino: Inodes, use: seq<Use>, free: nat, data: seq<Byte>, i: nat)
    requires i in ino && Tidy(disk, ino, i)
    ensures Appending(disk, ino, use, free, data, 0, disk, ino, use, free, i)
  {
    if DataBlocks(ino[i].size) > NDIRECT {
      IndirectThere(disk, ino[i]);
    }
    CountNone(HasIndirect(ino[i]), ino[i].size, free);
    NothingWritten(disk, ino, use, data, ino[i].size, i);
  }

  lemma AppendingFits(disk0: Disk, ino0: Inodes, use0: seq<Use>, free0: nat, data: seq<Byte>, disk: Disk, ino: Inodes,
                      use: seq<Use>, free: nat, i: nat)
    requires Appending(disk0, ino0, use0, free0, data, |data|, disk, ino, use, free, i) && free <= LAYOUT.size
    ensures Appended(disk0, ino0, use0, data, |data|, disk, ino, use, i)
    ensures free0 + Need(HasIndirect(ino0[i]), ino0[i].size, |data|) <= LAYOUT.size
  {
  }

  /** The boot block is empty and the super block is in its place. */
  predicate Starts(disk: Disk, superblock: Block) { |disk| > 1 && disk[0] == Zeroed() && disk[1] == superblock }

  class Image {
    const superblock: Block
    var disk: Disk
    var ino: Inodes
    var freeinode: nat
    var freeblock: nat
    ghost var use: seq<Use>

    ghost predicate Valid() reads this {
      ImageGood(disk, ino, use, freeblock) && Starts(disk, superblock) && forall i: nat :: i in ino ==> i < freeinode
    }

    ghost function Final(): Disk
      requires Valid()
      reads this
    {
      Finished(disk, freeblock)
    }

    /** main up to the first ialloc: every sector zeroed, then the super block written. */
    constructor (superblock: Block)
      ensures Valid() && ino == map[] && freeblock == LAYOUT.nmeta && freeinode == 1 && this.superblock == superblock
    {
      this.superblock := superblock;
      disk := seq(LAYOUT.size, _ => Zeroed())[1 := superblock];
      ino := map[];
      freeinode := 1;
      freeblock := LAYOUT.nmeta;
      use := EmptyUse();
      new;
      EmptyGood(disk);
    }

    /** ialloc */
    method Ialloc() returns (inum: nat)
      requires Valid()
      modifies this
      ensures Valid() && inum == old(freeinode) && freeinode == inum + 1 && inum !in old(ino)
      ensures |Final()| == |old(Final())| && freeblock == old(freeblock)
      ensures ino == old(ino)[inum := Inode(seq(NDIRECT + 1, _ => 0), 0)] && Tidy(Final(), ino, inum)
      ensures OtherFilesKept(old(Final()), old(ino), Final(), ino, inum)
    {
      inum := freeinode;
      freeinode := freeinode + 1;
      NewInodeGood(LAYOUT, Final(), ino, use, inum, ino[inum := Inode(seq(NDIRECT + 1, _ => 0), 0)]);
      ino := ino[inum := Inode(seq(NDIRECT + 1, _ => 0), 0)];
    }

    /** The block lookup inside iappend; 0 when the image has no block left. */
    method MapBlock(i: nat, fbn: nat) returns (x: nat)
      requires Valid() && i in ino && fbn < MAXFILE
      modifies this
      ensures Valid() && i in ino && freeinode == old(freeinode)
      ensures Addr(old(Final()), old(ino)[i], fbn) != 0 ==>
                x == Addr(Final(), ino[i], fbn) && disk == old(disk) && ino == old(ino) && use == old(use) &&
                freeblock == old(freeblock)
      ensures Addr(old(Final()), old(ino)[i], fbn) == 0 ==>
                Mapped(LAYOUT, old(Final()), old(ino), old(use), Final(), ino, use, i, fbn, x)
      ensures ino == old(ino)[i := ino[i]]
      ensures Addr(old(Final()), old(ino)[i], fbn) == 0 ==>
                TakenFor(HasIndirect(old(ino)[i]), fbn, old(freeblock), x, HasIndirect(ino[i]), freeblock)
    {
      hide Marked;
      if fbn < NDIRECT {
        if ino[i].addrs[fbn] == 0 {
          if freeblock == LAYOUT.size {
            NothingFree(disk, ino, use, freeblock);
            return 0;
          }
          DirectNext(disk, ino, use, freeblock, i, fbn);
          ino := SetAddr(ino, i, fbn, freeblock);
          use := use[freeblock := Held][freeblock := Data(i, fbn)];
          freeblock := freeblock + 1;
        }
        x := ino[i].addrs[fbn];
        return;
      }
      var ok := HaveIndirect(i);
      assert SameBlock(old(Final()), old(ino), Final(), ino, i, fbn);
      if !ok {
        OthersOfAll(old(Final()), old(ino), Final(), ino, i, fbn);
        NothingFree(disk, ino, use, freeblock);
        return 0;
      }
      ghost var disk1, ino1 := Final(), ino;
      x := MapWord(i, fbn);
      if Addr(old(Final()), old(ino)[i], fbn) == 0 {
        OthersOfAll(old(Final()), old(ino), disk1, ino1, i, fbn);
        OthersTransitive(old(Final()), old(ino), disk1, ino1, Final(), ino, i, fbn);
      }
    }

    /** The entry of the indirect block is there, or is the next block. */
    method MapWord(i: nat, fbn: nat) returns (x: nat)
      requires Valid() && i in ino && NDIRECT <= fbn < MAXFILE && ino[i].addrs[NDIRECT] != 0
      modifies this
      ensures Valid() && ino == old(ino) && freeinode == old(freeinode)
      ensures Addr(old(Final()), ino[i], fbn) != 0 ==>
                x == Addr(Final(), ino[i], fbn) && disk == old(disk) && use == old(use) && freeblock == old(freeblock)
      ensures Addr(old(Final()), ino[i], fbn) == 0 ==>
                Mapped(LAYOUT, old(Final()), old(ino), old(use), Final(), ino, use, i, fbn, x) &&
                TakenFor(true, fbn, old(freeblock), x, true, freeblock)
    {
      var ind := ino[i].addrs[NDIRECT];
      assert IndGood(ino, use, i) && BlockGood(LAYOUT, Final(), ino, use, ind);
      x := Word(disk[ind], fbn - NDIRECT);
      if x == 0 {
        if freeblock == LAYOUT.size {
          NothingFree(disk, ino, use, freeblock);
          return 0;
        }
        x := freeblock;
        ghost var disk' := disk[ind := SetWord(disk[ind], fbn - NDIRECT, x)];
        WordNext(disk, ino, use, freeblock, i, fbn, disk');
        disk := disk[ind := SetWord(disk[ind], fbn - NDIRECT, x)];
        use := use[freeblock := Held][freeblock := Data(i, fbn)];
        freeblock := freeblock + 1;
      }
    }

    /** One round of iappend's loop: m bytes, 0 when the image is full. */
    method AppendChunk(i: nat, data: seq<Byte>, off: nat, tot: nat,
                       ghost disk0: Disk, ghost ino0: Inodes, ghost use0: seq<Use>) returns (m: nat)
      requires Valid() && Writing(disk0, ino0, use0, data, off, tot, Final(), ino, use, i) && off <= ino0[i].size
      requires tot < |data| && off + |data| <= MAXBYTES && EmptyFrom(Final(), ino[i], off + tot)
      requires off == ino0[i].size && (ino0.Keys == ino.Keys)
      modifies this
      ensures Valid() && freeinode == old(freeinode) && tot + m <= |data| && i in ino &&
              EmptyFrom(Final(), ino[i], off + tot + m)
      ensures Writing(disk0, ino0, use0, data, off, tot + m, Final(), ino, use, i)
      ensures m == 0 ==> forall b: nat :: b < LAYOUT.size ==> use[b] != Free
      ensures ino == old(ino)[i := ino[i]] && (m == 0 || m == Chunk(off + tot, |data| - tot))
      ensures ChunkTaken(off + tot, old(freeblock), HasIndirect(old(ino)[i]), m, HasIndirect(ino[i]), freeblock)
    {
      var cur := off + tot;
      hide Marked, OtherFilesKept, TakenBy;
      StartsBlock(Final(), ino[i], cur);
      m := Chunk(cur, |data| - tot);
      var x := MapBlock(i, cur / BSIZE);
      if Addr(old(Final()), old(ino)[i], cur / BSIZE) == 0 {
        MapKeepsWriting(disk0, ino0, use0, data, off, tot, LAYOUT, old(Final()), old(ino), old(use), Final(), ino, use,
                        i, cur / BSIZE, x);
        MapsNoFurther(LAYOUT, old(Final()), old(ino), old(use), Final(), ino, use, i, cur, x,
                      if x == 0 then cur else cur + m);
      } else {
        EmptyFurther(Final(), ino[i], Final(), ino[i], cur, cur + m);
      }
      if x == 0 {
        return 0;
      }
      assert AddrGood(Final(), ino, use, i, cur / BSIZE);
      var b := Splice(disk[x], cur % BSIZE, data[tot..tot + m]);
      WrittenImage(disk, ino, use, freeblock, x, b);
      ChunkKeepsWriting(disk0, ino0, use0, data, off, tot, tot + m, LAYOUT, Final(), ino, use, i, cur, x,
                        Final()[x := b]);
      DataGood(LAYOUT, Final(), ino, use, x, b);
      EmptyFurther(Final(), ino[i], Final()[x := b], ino[i], cur + m, cur + m);
      disk := disk[x := b];
    }

    /** One round of iappend's loop, with the count of blocks. */
    method AppendRound(i: nat, data: seq<Byte>, tot: nat, ghost disk0: Disk, ghost ino0: Inodes, ghost use0: seq<Use>,
                       ghost free0: nat)
      returns (m: nat)
      requires Valid() && Appending(disk0, ino0, use0, free0, data, tot, Final(), ino, use, freeblock, i) &&
               tot < |data|
      requires ino0[i].size + |data| <= MAXBYTES
      modifies this
      ensures Valid() && freeinode == old(freeinode) && tot + m <= |data|
      ensures Appended(disk0, ino0, use0, data, tot + m, Final(), ino, use, i)
      ensures m > 0 ==> Appending(disk0, ino0, use0, free0, data, tot + m, Final(), ino, use, freeblock, i)
      ensures m == 0 ==> (forall b: nat :: b < LAYOUT.size ==> use[b] != Free) &&
                         free0 + Need(HasIndirect(ino0[i]), ino0[i].size, |data|) > LAYOUT.size
    {
      hide Good, CountedTo, Written, EmptyFrom, ChunkTaken, Need, OtherFilesKept, TakenBy, ZeroFrom, Finished, Marked;
      ghost var off, ind1, free1 := ino0[i].size, HasIndirect(ino[i]), freeblock;
      m := AppendChunk(i, data, ino[i].size, tot, disk0, ino0, use0);
      CountChunk(HasIndirect(ino0[i]), off, tot, Chunk(off + tot, |data| - tot), |data|, free0, ind1, free1, m,
                 HasIndirect(ino[i]), freeblock);
    }

    /** iappend's loop. */
    method AppendLoop(i: nat, data: seq<Byte>) returns (ok: bool, tot: nat)
      requires Valid() && i in ino && Tidy(Final(), ino, i) && ino[i].size + |data| <= MAXBYTES
      modifies this
      ensures Valid() && freeinode == old(freeinode) && tot <= |data| && (ok <==> tot == |data|)
      ensures Appended(old(Final()), old(ino), old(use), data, tot, Final(), ino, use, i)
      ensures !ok ==> forall b: nat :: b < LAYOUT.size ==> use[b] != Free
      ensures ok <==> old(freeblock) + Need(HasIndirect(old(ino)[i]), old(ino)[i].size, |data|) <= LAYOUT.size
      ensures ok ==> Appending(old(Final()), old(ino), old(use), old(freeblock), data, tot, Final(), ino, use,
                               freeblock, i)
    {
      AppendingNone(Final(), ino, use, freeblock, data, i);
      hide Good, Appending, Appended, Need, ZeroFrom, Finished, Marked;
      tot := 0;
      while tot < |data|
        invariant 0 <= tot <= |data| && Valid() && freeinode == old(freeinode)
        invariant Appending(old(Final()), old(ino), old(use), old(freeblock), data, tot, Final(), ino, use, freeblock,
                            i)
      {
        var m := AppendRound(i, data, tot, old(Final()), old(ino), old(use), old(freeblock));
        if m == 0 {
          return false, tot;
        }
        tot := tot + m;
      }
      AppendingFits(old(Final()), old(ino), old(use), old(freeblock), data, Final(), ino, use, freeblock, i);
      ok := true;
    }

    /** iappend: the bytes go behind those of the file, if there are blocks for them. */
    method Iappend(i: nat, data: seq<Byte>) returns (ok: bool, ghost t: nat)
      requires Valid() && i in ino && Tidy(Final(), ino, i) && ino[i].size + |data| <= MAXBYTES
      modifies this
      ensures Valid() && freeinode == old(freeinode) && t <= |data| && (ok <==> t == |data|) && Tidy(Final(), ino, i)
      ensures Wrote(old(Final()), old(ino), old(use), data, old(ino)[i].size, t, Final(), ino, use, i)
      ensures !ok ==> forall b: nat :: b < LAYOUT.size ==> use[b] != Free
      ensures ino == old(ino)[i := ino[i]]
      ensures ok <==> old(freeblock) + Need(HasIndirect(old(ino)[i]), old(ino)[i].size, |data|) <= LAYOUT.size
      ensures ok ==> CountedTo(HasIndirect(old(ino)[i]), old(ino)[i].size, |data|, old(freeblock), HasIndirect(ino[i]),
                               freeblock)
    {
      hide Good, CountedTo, Need, ZeroFrom, Finished, Marked, OtherFilesKept, TakenBy;
      var off := ino[i].size;
      var tot;
      ok, tot := AppendLoop(i, data);
      t := tot;
      ghost var ino' := Resized(ino, i, off + tot);
      WritingDone(old(Final()), old(ino), old(use), data, off, tot, Final(), ino, use, i, off + tot, ino');
      ResizedGood(LAYOUT, Final(), ino, use, i, off + tot, ino');
      forall n: nat | n < MAXFILE ensures Addr(Final(), ino'[i], n) == Addr(Final(), ino[i], n) {
        ResizedAddr(Final(), ino[i], off + tot, n);
      }
      EmptyFurther(Final(), ino[i], Final(), ino'[i], off + tot, off + tot);
      ino := Resized(ino, i, off + tot);
    }

    /** main's correction of the root directory's size: to the end of the block after its last whole one. */
    method FixRootSize(root: nat)
      requires Valid() && root in ino
      modifies this
      ensures Valid() && ino == Resized(old(ino), root, RoundedSize(old(ino)[root].size)) && Final() == old(Final()) &&
              use == old(use)
    {
      ghost var ino' := Resized(ino, root, RoundedSize(ino[root].size));
      ResizedGood(LAYOUT, Final(), ino, use, root, RoundedSize(ino[root].size), ino');
      ino := Resized(ino, root, (ino[root].size / BSIZE + 1) * BSIZE);
    }

    /** balloc: now the bitmap on the disk is the one the invariants are about. */
    method Balloc()
      requires Valid()
      modifies this
      ensures Good(LAYOUT, disk, ino, use) && disk == old(Final()) && ino == old(ino) && use == old(use)
      ensures forall b: nat :: b < LAYOUT.size ==> use[b] != Held
    {
      var buf := Zeroed();
      var i := 0;
      while i < freeblock
        invariant 0 <= i <= freeblock && buf == Marked(i)
      {
        buf := SetBit(buf, i, true);
        i := i + 1;
      }
      disk := disk[LAYOUT.bmapstart := buf];
    }

    /** The indirect block is there, or is the next block. */
    method HaveIndirect(i: nat) returns (ok: bool)
      requires Valid() && i in ino
      modifies this
      ensures Valid() && i in ino && freeinode == old(freeinode) && ino.Keys == old(ino).Keys &&
              ino[i].size == old(ino)[i].size
      ensures AllKept(old(Final()), old(ino), Final(), ino)
      ensures ok <==> ino[i].addrs[NDIRECT] != 0
      ensures !ok ==> freeblock == old(freeblock) == LAYOUT.size
      ensures ino == old(ino)[i := ino[i]] && (forall n :: 0 <= n < NDIRECT ==> ino[i].addrs[n] == old(ino)[i].addrs[n])
      ensures ok && !HasIndirect(old(ino)[i]) ==> freeblock == old(freeblock) + 1
      ensures |use| == |old(use)| &&
              forall b: nat :: b < |use| ==> use[b] == old(use)[b] || (old(use)[b] == Free && use[b] == Ind(i))
      ensures old(ino)[i].addrs[NDIRECT] != 0 ==>
                disk == old(disk) && ino == old(ino) && use == old(use) && freeblock == old(freeblock)
    {
      ok := true;
      if ino[i].addrs[NDIRECT] == 0 {
        if freeblock == LAYOUT.size {
          return false;
        }
        IndNext(disk, ino, use, freeblock, i);
        ino := SetAddr(ino, i, NDIRECT, freeblock);
        use := use[freeblock := Held][freeblock := Ind(i)];
        freeblock := freeblock + 1;
      }
    }
  }

  lemma NothingFree(disk: Disk, ino: Inodes, use: seq<Use>, free: nat)
    requires ImageGood(disk, ino, use, free) && free == LAYOUT.size
    ensures forall b: nat :: b < LAYOUT.size ==> use[b] != Free
  {
    forall b: nat | b < LAYOUT.size ensures use[b] != Free {
      UsedBelow(disk, ino, use, free, b);
    }
  }

  // ---------------------------------------------------------------- main

  const ENTRY: nat := 16  // sizeof(struct dirent)
  const ROOTINO: nat := 1

  predicate HoldsByte(disk: Disk, ip: Inode, data: seq<Byte>, k: nat) {
    k < |data| && k < MAXBYTES ==> ByteAt(disk, ip, k) == data[k]
  }

  /** File i is exactly these bytes. */
  ghost predicate Holds(disk: Disk, ino: Inodes, i: nat, data: seq<Byte>) {
    i in ino && ino[i].size == |data| <= MAXBYTES && forall k: nat :: HoldsByte(disk, ino[i], data, k)
  }

  lemma HoldsOther(disk: Disk, ino: Inodes, disk': Disk, ino': Inodes, i: nat, j: nat, data: seq<Byte>)
    requires OtherFilesKept(disk, ino, disk', ino', i) && j != i && |disk'| == |disk|
    requires Holds(disk, ino, j, data) && Tidy(disk, ino, j)
    ensures Holds(disk', ino', j, data)
  {
    assert SameBlock(disk, ino, disk', ino', j, 0);
    forall k: nat ensures HoldsByte(disk', ino'[j], data, k) {
      assert HoldsByte(disk, ino[j], data, k);
      assert SameBlock(disk, ino, disk', ino', j, k / BSIZE) && BlockMapped(disk, ino[j], ino[j].size, k / BSIZE);
    }
  }

  lemma AppendedHolds(disk: Disk, ino: Inodes, use: seq<Use>, disk': Disk, ino': Inodes, use': seq<Use>, i: nat,
                      data: seq<Byte>, more: seq<Byte>)
    requires Holds(disk, ino, i, data) && Wrote(disk, ino, use, more, |data|, |more|, disk', ino', use', i)
    ensures Holds(disk', ino', i, data + more)
  {
    forall k: nat ensures HoldsByte(disk', ino'[i], data + more, k) {
      assert ByteGood(disk, ino[i], more, |data|, |more|, ino'[i].size, disk', ino'[i], k);
      assert HoldsByte(disk, ino[i], data, k);
    }
  }

  function Flat(entries: seq<seq<Byte>>): seq<Byte> {
    if entries == [] then [] else Flat(entries[..|entries| - 1]) + entries[|entries| - 1]
  }

  ghost predicate FileThere(disk: Disk, ino: Inodes, files: seq<seq<Byte>>, k: nat) {
    k < |files| ==> Holds(disk, ino, ROOTINO + 1 + k, files[k])
  }

  /** A file has its indirect block exactly when it needs it. */
  predicate Indirected(ino: Inodes, j: nat) { j in ino ==>
                                             (HasIndirect(ino[j]) <==> DataBlocks(ino[j].size) > NDIRECT) }

  /** The image so far: no file has a hole, the root directory is dir, the files made after it are these, and so many
      data and indirect blocks are taken. */
  ghost predicate Populated(m: Image, dir: seq<Byte>, files: seq<seq<Byte>>, taken: nat)
    reads m
  {
    m.Valid() && ROOTINO + |files| < m.freeinode && (forall j: nat :: Tidy(m.Final(), m.ino, j)) &&
    (forall j: nat :: Indirected(m.ino, j)) && m.freeblock == LAYOUT.nmeta + taken &&
    Holds(m.Final(), m.ino, ROOTINO, dir) && forall k: nat :: FileThere(m.Final(), m.ino, files, k)
  }

  const ROOM: nat := LAYOUT.size - LAYOUT.nmeta

  /** The data and indirect blocks of these files. */
  function Total(files: seq<seq<Byte>>): nat {
    if files == [] then 0 else Total(files[..|files| - 1]) + FileBlocks(|files[|files| - 1]|)
  }

  lemma TotalStep(files: seq<seq<Byte>>, k: nat)
    requires k < |files|
    ensures Total(files[..k + 1]) == Total(files[..k]) + FileBlocks(|files[k]|)
  {
    assert files[..k + 1][..k] == files[..k];
  }

  lemma {:induction false} TotalGrows(files: seq<seq<Byte>>, k: nat)
    requires k <= |files|
    ensures Total(files[..k]) <= Total(files)
    decreases |files| - k
  {
    if k == |files| {
      assert files[..k] == files;
    } else {
      TotalStep(files, k);
      TotalGrows(files, k + 1);
    }
  }

  lemma FileBlocksGrow(a: nat, b: nat)
    requires a <= b
    ensures FileBlocks(a) <= FileBlocks(b)
  {
    BlocksGrow(a, b);
  }

  /** What iappend takes, in terms of whole files. */
  lemma AppendTakes(ino: Inodes, ino': Inodes, i: nat, size: nat, n: nat, free: nat, free': nat)
    requires i in ino && i in ino' && Indirected(ino, i) && ino[i].size == size && ino'[i].size == size + n
    requires CountedTo(HasIndirect(ino[i]), size, n, free, HasIndirect(ino'[i]), free')
    ensures Indirected(ino', i) && free' == free + FileBlocks(size + n) - FileBlocks(size)
  {
    NeedIsMore(size, n);
    BlocksGrow(size, size + n);
  }

  lemma OthersIndirected(ino: Inodes, ino': Inodes, i: nat)
    requires (forall j: nat :: Indirected(ino, j)) && i in ino' && ino' == ino[i := ino'[i]] && Indirected(ino', i)
    ensures forall j: nat :: Indirected(ino', j)
  {
    forall j: nat ensures Indirected(ino', j) {
      assert Indirected(ino, j);
    }
  }

  /** A step on file i leaves the image's other files tidy and as they were. */
  lemma OthersStay(disk: Disk, ino: Inodes, disk': Disk, ino': Inodes, i: nat, files: seq<seq<Byte>>)
    requires OtherFilesKept(disk, ino, disk', ino', i) && |disk'| == |disk| && ino'.Keys == ino.Keys + {i}
    requires (forall j: nat :: Tidy(disk, ino, j)) && Tidy(disk', ino', i)
    requires (i == ROOTINO || i > ROOTINO + |files|) && forall k: nat :: FileThere(disk, ino, files, k)
    ensures forall j: nat :: Tidy(disk', ino', j)
    ensures forall k: nat :: FileThere(disk', ino', files, k)
  {
    forall j: nat ensures Tidy(disk', ino', j) {
      if j != i {
        assert Tidy(disk, ino, j);
        TidyOther(disk, ino, disk', ino', i, j);
      }
    }
    forall k: nat ensures FileThere(disk', ino', files, k) {
      assert FileThere(disk, ino, files, k) && Tidy(disk, ino, ROOTINO + 1 + k);
      if k < |files| {
        HoldsOther(disk, ino, disk', ino', i, ROOTINO + 1 + k, files[k]);
      }
    }
  }

  /** iappend on a populated image: it takes what the longer file takes more. */
  method AppendTo(m: Image, i: nat, buf: seq<Byte>, ghost sofar: seq<Byte>, ghost dir: seq<Byte>,
                  ghost files: seq<seq<Byte>>, ghost taken: nat)
    returns (ok: bool)
    requires Populated(m, dir, files, taken) && Holds(m.Final(), m.ino, i, sofar) && |sofar| + |buf| <= MAXBYTES
    requires i == ROOTINO || i > ROOTINO + |files|
    modifies m
    ensures FileBlocks(|sofar|) <= FileBlocks(|sofar| + |buf|)
    ensures ok <==> taken + FileBlocks(|sofar| + |buf|) - FileBlocks(|sofar|) <= ROOM
    ensures ok ==> m.Valid() && m.freeinode == old(m.freeinode) && m.ino.Keys == old(m.ino).Keys &&
                   m.freeblock == LAYOUT.nmeta + taken + FileBlocks(|sofar| + |buf|) - FileBlocks(|sofar|) &&
                   (forall j: nat :: Tidy(m.Final(), m.ino, j)) && (forall j: nat :: Indirected(m.ino, j)) &&
                   (forall k: nat :: FileThere(m.Final(), m.ino, files, k)) &&
                   Holds(m.Final(), m.ino, i, sofar + buf) &&
                   OtherFilesKept(old(m.Final()), old(m.ino), m.Final(), m.ino, i)
  {
    hide Good, CountedTo, FileBlocks, Finished, Marked, ZeroFrom;
    ghost var t;
    assert Tidy(m.Final(), m.ino, i) && Indirected(m.ino, i);
    FileBlocksGrow(|sofar|, |sofar| + |buf|);
    NeedIsMore(|sofar|, |buf|);
    ok, t := m.Iappend(i, buf);
    if ok {
      AppendTakes(old(m.ino), m.ino, i, |sofar|, |buf|, old(m.freeblock), m.freeblock);
      OthersIndirected(old(m.ino), m.ino, i);
      AppendedHolds(old(m.Final()), old(m.ino), old(m.use), m.Final(), m.ino, m.use, i, sofar, buf);
      OthersStay(old(m.Final()), old(m.ino), m.Final(), m.ino, i, files);
    }
  }

  /** One more directory entry. */
  method AddEntry(m: Image, entry: seq<Byte>, ghost dir: seq<Byte>, ghost files: seq<seq<Byte>>, ghost taken: nat)
    returns (ok: bool)
    requires Populated(m, dir, files, taken) && |dir| + |entry| <= MAXBYTES
    modifies m
    ensures FileBlocks(|dir|) <= FileBlocks(|dir| + |entry|)
    ensures ok <==> taken + FileBlocks(|dir| + |entry|) - FileBlocks(|dir|) <= ROOM
    ensures ok ==> Populated(m, dir + entry, files, taken + FileBlocks(|dir| + |entry|) - FileBlocks(|dir|)) &&
                   m.freeinode == old(m.freeinode) && m.ino.Keys == old(m.ino).Keys &&
                   OtherFilesKept(old(m.Final()), old(m.ino), m.Final(), m.ino, ROOTINO)
  {
    hide Good, FileBlocks, Finished, Marked, ZeroFrom;
    ok := AppendTo(m, ROOTINO, entry, dir, dir, files, taken);
  }

  /** ialloc of the next file: empty, and nothing else changes. */
  method NewFile(m: Image, ghost dir: seq<Byte>, ghost files: seq<seq<Byte>>, ghost taken: nat) returns (inum: nat)
    requires Populated(m, dir, files, taken)
    modifies m
    ensures Populated(m, dir, files, taken) && inum == old(m.freeinode) && m.freeinode == inum + 1 &&
            Holds(m.Final(), m.ino, inum, [])
  {
    hide Good, Finished, Marked, ZeroFrom;
    inum := m.Ialloc();
    assert Holds(old(m.Final()), old(m.ino), ROOTINO, dir) && Tidy(old(m.Final()), old(m.ino), ROOTINO);
    OthersIndirected(old(m.ino), m.ino, inum);
    OthersStay(old(m.Final()), old(m.ino), m.Final(), m.ino, inum, files);
    HoldsOther(old(m.Final()), old(m.ino), m.Final(), m.ino, inum, ROOTINO, dir);
  }

  /** What one read of the host file gave goes behind the bytes of the newest file. */
  method AppendRead(m: Image, inum: nat, buf: seq<Byte>, ghost sofar: seq<Byte>, ghost dir: seq<Byte>,
                    ghost files: seq<seq<Byte>>, ghost taken: nat)
    returns (ok: bool)
    requires Populated(m, dir, files, taken + FileBlocks(|sofar|)) && inum == ROOTINO + 1 + |files|
    requires Holds(m.Final(), m.ino, inum, sofar) && |sofar| + |buf| <= MAXBYTES
    modifies m
    ensures ok <==> taken + FileBlocks(|sofar| + |buf|) <= ROOM
    ensures ok ==> Populated(m, dir, files, taken + FileBlocks(|sofar| + |buf|)) &&
                   Holds(m.Final(), m.ino, inum, sofar + buf) && m.freeinode == old(m.freeinode)
  {
    hide Good, FileBlocks, Finished, Marked, ZeroFrom;
    assert Tidy(m.Final(), m.ino, ROOTINO);
    ok := AppendTo(m, inum, buf, sofar, dir, files, taken + FileBlocks(|sofar|));
    if ok {
      HoldsOther(old(m.Final()), old(m.ino), m.Final(), m.ino, inum, ROOTINO, dir);
    }
  }

  /** The contents of the newest file, a block at a time. */
  method Fill(m: Image, inum: nat, data: seq<Byte>, ghost dir: seq<Byte>, ghost files: seq<seq<Byte>>, ghost taken: nat)
    returns (ok: bool)
    requires Populated(m, dir, files, taken) && inum == ROOTINO + 1 + |files| && Holds(m.Final(), m.ino, inum, []) &&
             |data| <= MAXBYTES
    modifies m
    ensures ok <==> taken + FileBlocks(|data|) <= ROOM
    ensures ok ==> Populated(m, dir, files + [data], taken + FileBlocks(|data|)) && m.freeinode == old(m.freeinode)
  {
    assert FileBlocks(0) == 0;
    TakenFits(m, dir, files, taken);
    hide Holds, FileBlocks, Good, Finished, Marked, ZeroFrom;
    ok := true;
    var pos := 0;
    assert data[..0] == [];
    while ok && pos < |data|
      invariant 0 <= pos <= |data| && (ok <==> taken + FileBlocks(pos) <= ROOM)
      invariant ok ==> Populated(m, dir, files, taken + FileBlocks(pos)) &&
                       Holds(m.Final(), m.ino, inum, data[..pos]) && m.freeinode == old(m.freeinode)
    {
      var cc := if |data| - pos < BSIZE then |data| - pos else BSIZE;
      assert data[..pos] + data[pos..pos + cc] == data[..pos + cc];
      ok := AppendRead(m, inum, data[pos..pos + cc], data[..pos], dir, files, taken);
      pos := pos + cc;
    }
    if ok {
      assert data[..pos] == data;
      NewestThere(m, inum, data, dir, files, taken + FileBlocks(|data|));
    } else {
      FileBlocksGrow(pos, |data|);
    }
  }

  lemma TakenFits(m: Image, dir: seq<Byte>, files: seq<seq<Byte>>, taken: nat)
    requires Populated(m, dir, files, taken)
    ensures taken <= ROOM
  {
  }

  lemma NewestThere(m: Image, inum: nat, data: seq<Byte>, dir: seq<Byte>, files: seq<seq<Byte>>, taken: nat)
    requires Populated(m, dir, files, taken) && inum == ROOTINO + 1 + |files| && Holds(m.Final(), m.ino, inum, data)
    ensures Populated(m, dir, files + [data], taken)
  {
    forall k: nat ensures FileThere(m.Final(), m.ino, files + [data], k) {
      assert FileThere(m.Final(), m.ino, files, k);
    }
  }

  /** A new file with its directory entry and its contents, if there are blocks for both. */
  method AddFile(m: Image, entry: seq<Byte>, data: seq<Byte>, ghost dir: seq<Byte>, ghost files: seq<seq<Byte>>,
                 ghost taken: nat)
    returns (ok: bool)
    requires Populated(m, dir, files, FileBlocks(|dir|) + taken) && m.freeinode == ROOTINO + 1 + |files| &&
             |dir| + |entry| <= MAXBYTES && |data| <= MAXBYTES
    modifies m
    ensures ok <==> FileBlocks(|dir| + |entry|) + taken + FileBlocks(|data|) <= ROOM
    ensures ok ==> Populated(m, dir + entry, files + [data],
                             FileBlocks(|dir| + |entry|) + (taken + FileBlocks(|data|))) &&
                   m.freeinode == ROOTINO + 2 + |files|
  {
    hide FileBlocks, Good, Finished, Marked, ZeroFrom;
    var inum := NewFile(m, dir, files, FileBlocks(|dir|) + taken);
    ghost var disk, ino := m.Final(), m.ino;
    assert Tidy(disk, ino, inum);
    ok := AddEntry(m, entry, dir, files, FileBlocks(|dir|) + taken);
    if ok {
      HoldsOther(disk, ino, m.Final(), m.ino, ROOTINO, inum, []);
      ok := Fill(m, inum, data, dir + entry, files, FileBlocks(|dir| + |entry|) + taken);
    }
  }

  /** main: mkfs succeeds if and only if the files, their indirect blocks and the directory fit the image. It then has
      exact block maps and holds these files and this directory. No file has a hole except the root directory, and it
      has one exactly when its entries fill whole blocks. */
  method MakeImage(superblock: Block, entries: seq<seq<Byte>>, files: seq<seq<Byte>>) returns (ok: bool, m: Image)
    requires Inputs(entries, files)
    ensures ok <==> FileBlocks(|entries| * ENTRY) + Total(files) <= ROOM
    ensures ok ==> Good(LAYOUT, m.disk, m.ino, m.use) && ROOTINO in m.ino
    ensures ok ==> forall k :: 0 <= k < |files| ==> Holds(m.disk, m.ino, ROOTINO + 1 + k, files[k])
    ensures ok ==> forall k: nat :: HoldsByte(m.disk, m.ino[ROOTINO], Flat(entries), k)
    ensures ok ==> forall i: nat :: i in m.ino && i != ROOTINO ==> Dense(m.disk, m.ino[i])
    ensures ok ==> (Dense(m.disk, m.ino[ROOTINO]) <==> |entries| % 64 != 0)
    ensures ok ==> (InodesApart(m.ino) <==> |files| < 207)
    ensures ok ==> |m.disk| > 1 && m.disk[0] == Zeroed() && m.disk[1] == superblock
  {
    hide Good, Flat, Populated, Holds, HoldsByte, Dense, FileBlocks, Total, InodesApart;
    m := new Image(superblock);
    MakeRoot(m, entries);
    assert files[..0] == [] && Takes(files, 0) == FileBlocks(2 * ENTRY) by { NothingTaken(files); }
    ok := AddFiles(m, entries, files);
    assert entries[..|files| + 2] == entries && files[..|files|] == files;
    if ok {
      FlatLength(entries);
      Close(m, entries, files, Takes(files, |files|));
    }
  }

  /** The blocks of the first k files and of the directory with their entries. */
  function Takes(files: seq<seq<Byte>>, k: nat): nat
    requires k <= |files|
  {
    FileBlocks((k + 2) * ENTRY) + Total(files[..k])
  }

  lemma TakesGrows(files: seq<seq<Byte>>, k: nat)
    requires k <= |files|
    ensures Takes(files, k) <= Takes(files, |files|)
  {
    assert files[..|files|] == files;
    TotalGrows(files, k);
    FileBlocksGrow((k + 2) * ENTRY, (|files| + 2) * ENTRY);
  }

  predicate Inputs(entries: seq<seq<Byte>>, files: seq<seq<Byte>>) {
    |entries| == |files| + 2 && |entries| * ENTRY < MAXBYTES &&
    (forall k :: 0 <= k < |entries| ==> |entries[k]| == ENTRY) &&
    forall k :: 0 <= k < |files| ==> |files[k]| <= MAXBYTES
  }

  lemma NothingTaken(files: seq<seq<Byte>>)
    ensures files[..0] == [] && Takes(files, 0) == FileBlocks(2 * ENTRY)
  {
    assert files[..0] == [];
  }

  /** The first k files are made. */
  ghost predicate Made(m: Image, entries: seq<seq<Byte>>, files: seq<seq<Byte>>, k: nat)
    requires k <= |files| && k + 2 <= |entries|
    reads m
  {
    Populated(m, Flat(entries[..k + 2]), files[..k], Takes(files, k)) && m.freeinode == ROOTINO + 1 + k
  }

  method AddNext(m: Image, entries: seq<seq<Byte>>, files: seq<seq<Byte>>, k: nat) returns (ok: bool)
    requires Inputs(entries, files) && k < |files| && Made(m, entries, files, k)
    modifies m
    ensures ok <==> Takes(files, k + 1) <= ROOM
    ensures ok ==> Made(m, entries, files, k + 1)
  {
    hide Flat, Populated, FileBlocks, Total;
    ghost var dir := Flat(entries[..k + 2]);
    FlatLength(entries[..k + 2]);
    FlatStep(entries, k + 2);
    TotalStep(files, k);
    assert files[..k] + [files[k]] == files[..k + 1];
    assert |dir| == (k + 2) * ENTRY && |dir| + ENTRY == (k + 3) * ENTRY <= |entries| * ENTRY;
    ok := AddFile(m, entries[k + 2], files[k], dir, files[..k], Total(files[..k]));
  }

  method AddFiles(m: Image, entries: seq<seq<Byte>>, files: seq<seq<Byte>>) returns (ok: bool)
    requires Inputs(entries, files) && Made(m, entries, files, 0)
    modifies m
    ensures ok <==> Takes(files, |files|) <= ROOM
    ensures ok ==> Made(m, entries, files, |files|)
  {
    TakenFits(m, Flat(entries[..2]), files[..0], Takes(files, 0));
    hide Made, Takes;
    ok := true;
    var k := 0;
    while ok && k < |files|
      invariant 0 <= k <= |files| && (ok <==> Takes(files, k) <= ROOM) && (ok ==> Made(m, entries, files, k))
    {
      ok := AddNext(m, entries, files, k);
      k := k + 1;
    }
    if !ok {
      TakesGrows(files, k);
    }
  }

  lemma FlatStep(entries: seq<seq<Byte>>, k: nat)
    requires k < |entries|
    ensures Flat(entries[..k + 1]) == Flat(entries[..k]) + entries[k]
  {
    assert entries[..k + 1][..k] == entries[..k];
  }

  lemma {:induction false} FlatLength(entries: seq<seq<Byte>>)
    requires forall k :: 0 <= k < |entries| ==> |entries[k]| == ENTRY
    ensures |Flat(entries)| == |entries| * ENTRY
  {
    if entries != [] {
      FlatLength(entries[..|entries| - 1]);
    }
  }

  /** The empty root directory. */
  method NewRoot(m: Image)
    requires m.Valid() && m.ino == map[] && m.freeinode == ROOTINO && m.freeblock == LAYOUT.nmeta
    modifies m
    ensures Populated(m, [], [], 0) && m.freeinode == ROOTINO + 1
  {
    hide Good, Finished, Marked, ZeroFrom;
    assert !HasIndirect(Inode(seq(NDIRECT + 1, _ => 0), 0)) && DataBlocks(0) == 0;
    var root := m.Ialloc();
    assert forall j: nat :: j != root ==> Tidy(m.Final(), m.ino, j);
    assert forall j: nat :: Indirected(m.ino, j);
  }

  /** The root directory with its entries for itself and its parent. */
  method MakeRoot(m: Image, entries: seq<seq<Byte>>)
    requires m.Valid() && m.ino == map[] && m.freeinode == ROOTINO && m.freeblock == LAYOUT.nmeta && |entries| >= 2 &&
             |entries[0]| == ENTRY == |entries[1]|
    modifies m
    ensures Populated(m, Flat(entries[..2]), [], FileBlocks(2 * ENTRY)) && m.freeinode == ROOTINO + 1
  {
    assert FileBlocks(0) == 0 && FileBlocks(ENTRY) == 1 == FileBlocks(2 * ENTRY);
    hide Populated, FileBlocks;
    NewRoot(m);
    var ok := AddEntry(m, entries[0], [], [], 0);
    assert [] + entries[0] == entries[0];
    ok := AddEntry(m, entries[1], entries[0], [], 1);
    FlatStep(entries, 0);
    FlatStep(entries, 1);
    assert Flat(entries[..0]) == [];
  }

  /** No inode lies on the bitmap block, which is written last. */
  ghost predicate InodesApart(ino: Inodes) { forall i: nat :: i in ino ==> IBlock(LAYOUT, i) < LAYOUT.bmapstart }

  lemma InodesFit(disk: Disk, ino: Inodes, files: seq<seq<Byte>>)
    requires (forall i: nat :: i in ino ==> i < ROOTINO + 1 + |files|) &&
             forall k: nat :: FileThere(disk, ino, files, k)
    ensures InodesApart(ino) <==> |files| < 207
  {
    if |files| >= 207 {
      assert FileThere(disk, ino, files, 206);
      assert IBlock(LAYOUT, 208) == LAYOUT.bmapstart;
    }
  }

  /** The end of main: the root directory's size is corrected and the bitmap written. */
  method Close(m: Image, entries: seq<seq<Byte>>, files: seq<seq<Byte>>, ghost taken: nat)
    requires Populated(m, Flat(entries), files, taken) && |Flat(entries)| == |entries| * ENTRY < MAXBYTES
    requires m.freeinode == ROOTINO + 1 + |files|
    modifies m
    ensures Good(LAYOUT, m.disk, m.ino, m.use) && ROOTINO in m.ino
    ensures forall k :: 0 <= k < |files| ==> Holds(m.disk, m.ino, ROOTINO + 1 + k, files[k])
    ensures forall k: nat :: HoldsByte(m.disk, m.ino[ROOTINO], Flat(entries), k)
    ensures forall i: nat :: i in m.ino && i != ROOTINO ==> Dense(m.disk, m.ino[i])
    ensures Dense(m.disk, m.ino[ROOTINO]) <==> |entries| % 64 != 0
    ensures InodesApart(m.ino) <==> |files| < 207
    ensures Starts(m.disk, m.superblock)
  {
    ghost var d, ino := m.Final(), m.ino;
    assert Tidy(d, ino, ROOTINO);
    InodesFit(d, ino, files);
    Rounds(|entries|);
    m.FixRootSize(ROOTINO);
    RoundedDense(d, ino, ROOTINO, m.ino[ROOTINO]);
    m.Balloc();
    forall i: nat | i in m.ino && i != ROOTINO ensures Dense(m.disk, m.ino[i]) {
      assert Tidy(d, ino, i);
    }
    forall k: nat ensures HoldsByte(m.disk, m.ino[ROOTINO], Flat(entries), k) {
      assert HoldsByte(d, ino[ROOTINO], Flat(entries), k);
    }
    forall k | 0 <= k < |files| ensures Holds(m.disk, m.ino, ROOTINO + 1 + k, files[k]) {
      assert FileThere(d, ino, files, k);
    }
  }

  lemma Rounds(n: nat)
    requires n * ENTRY < MAXBYTES
    ensures RoundedSize(n * ENTRY) <= MAXBYTES && (n * ENTRY % BSIZE == 0 <==> n % 64 == 0)
  {
    var q, r := n / 64, n % 64;
    assert n * ENTRY == BSIZE * q + r * ENTRY && r * ENTRY < BSIZE;
    assert n * ENTRY % BSIZE == r * ENTRY;
  }
}
