/**
 filewrite on an inode (kernel/file.c): a long write as a run of transactions that each fit the log.
 */
module FileWrites {
  import opened Blocks
  import opened BlockMaps
  import opened FileContents
  import opened Finite
  import opened Params

  const MAXWRITE: nat := 3072  // ((MAXOPBLOCKS - 1 - 1 - 2) / 2) * BSIZE

  // ---------------------------------------------------------------- how many blocks a chunk logs

  /** The number of bitmap blocks of a file system. */
  function NBitmap(sb: Super): nat { if sb.size == 0 then 0 else (sb.size - 1) / BPB + 1 }

  function Min(a: nat, b: nat): nat { if a < b then a else b }

  /** What one chunk can log: four data blocks, the bitmap blocks of three of them and of the indirect block as far as
      there are so many, the indirect block and the inode's block. */
  function ChunkBudget(sb: Super): nat { 6 + Min(4, NBitmap(sb)) }

  lemma {:induction false} MapsSize(sb: Super, s: set<nat>)
    ensures |MapsOf(sb, s)| <= |s|
    decreases |s|
  {
    if s == {} {
      assert MapsOf(sb, s) == {};
    } else {
      var x :| x in s;
      MapsSize(sb, s - {x});
      UnionSize(MapsOf(sb, s - {x}), {BBlock(sb, x)});
      assert MapsOf(sb, s) == MapsOf(sb, s - {x}) + {BBlock(sb, x)};
    }
  }

  /** NBitmap counts exactly the blocks that have a bit for some block of the disk. */
  lemma BitmapBlocks(sb: Super, m: nat)
    ensures sb.bmapstart <= m < sb.bmapstart + NBitmap(sb) <==> exists b: nat :: b < sb.size && BBlock(sb, b) == m
  {
    if sb.bmapstart <= m < sb.bmapstart + NBitmap(sb) {
      var b := (m - sb.bmapstart) * BPB;
      assert m - sb.bmapstart <= (sb.size - 1) / BPB;
      assert b / BPB == m - sb.bmapstart && BBlock(sb, b) == m;
    }
    if b: nat :| b < sb.size && BBlock(sb, b) == m {
      assert b / BPB <= (sb.size - 1) / BPB;
    }
  }

  lemma MapsInBitmap(sb: Super, s: set<nat>)
    requires forall b :: b in s ==> b < sb.size
    ensures |MapsOf(sb, s)| <= NBitmap(sb)
  {
    forall m | m in MapsOf(sb, s) ensures sb.bmapstart <= m < sb.bmapstart + NBitmap(sb) {
      var b :| b in s && BBlock(sb, b) == m;
      assert b / BPB <= (sb.size - 1) / BPB;
    }
    RangeSize(MapsOf(sb, s), sb.bmapstart, NBitmap(sb));
  }

  lemma {:induction false} BlocksOfSize(sb: Super, disk: Disk, ino: Inodes, use: seq<Use>, i: nat, lo: nat, hi: nat)
    requires Good(sb, disk, ino, use) && i in ino && lo <= hi <= MAXFILE
    ensures |BlocksOf(use, i, lo, hi)| <= hi - lo
    decreases hi
  {
    if lo == hi {
      assert BlocksOf(use, i, lo, hi) == {};
    } else {
      BlocksOfSize(sb, disk, ino, use, i, lo, hi - 1);
      var a := Addr(disk, ino[i], hi - 1);
      forall b | b in BlocksOf(use, i, lo, hi) ensures b in BlocksOf(use, i, lo, hi - 1) + {a} {
        assert BlockGood(sb, disk, ino, use, b);
      }
      UnionSize(BlocksOf(use, i, lo, hi - 1), {a});
      SubsetSize(BlocksOf(use, i, lo, hi), BlocksOf(use, i, lo, hi - 1) + {a});
    }
  }

  /** The first block that a write which starts inside a block can be new in. */
  function FirstNew(off: nat): nat { if off % BSIZE == 0 then off / BSIZE else off / BSIZE + 1 }

  /** The blocks a write took are the indirect block and new blocks of the file. */
  lemma FreshBlocks(sb: Super, disk0: Disk, ino0: Inodes, use0: seq<Use>, disk: Disk, ino: Inodes, use: seq<Use>,
                    i: nat,
                    off: nat, end: nat)
    requires Good(sb, disk0, ino0, use0) && i in ino0 && Dense(disk0, ino0[i]) && off <= ino0[i].size && off < MAXBYTES
    requires Good(sb, disk, ino, use) && i in ino && TakenBy(use0, use, i) && FreshIn(use0, use, off / BSIZE, end)
    ensures Fresh(use0, use) <= BlocksOf(use, i, FirstNew(off), end) + {ino[i].addrs[NDIRECT]}
    ensures forall b :: b in Fresh(use0, use) ==> b < sb.size
  {
    var n := off / BSIZE;
    assert off == BSIZE * n + off % BSIZE;
    assert BlockMapped(disk0, ino0[i], ino0[i].size, n) && AddrGood(disk0, ino0, use0, i, n);
    if off % BSIZE != 0 {
      var a := Addr(disk0, ino0[i], n);
      assert use0[a] == Data(i, n) && use[a] == use0[a] && BlockGood(sb, disk, ino, use, a);
    }
    forall b | b in Fresh(use0, use) ensures b in BlocksOf(use, i, FirstNew(off), end) + {ino[i].addrs[NDIRECT]} {
      assert BlockGood(sb, disk, ino, use, b);
    }
  }

  /** How much a write of n bytes logs, at most. */
  lemma WriteLogSize(sb: Super, disk0: Disk, ino0: Inodes, use0: seq<Use>, disk: Disk, ino: Inodes, use: seq<Use>,
                     i: nat, off: nat, r: nat, n: nat, log: set<nat>)
    requires Good(sb, disk0, ino0, use0) && i in ino0 && Dense(disk0, ino0[i]) && off <= ino0[i].size
    requires Good(sb, disk, ino, use) && i in ino && TakenBy(use0, use, i) && 0 < n && r <= n && off + n <= MAXBYTES
    requires WriteiLogged(sb, {}, log, use0, use, ino[i].addrs[NDIRECT], i, off, r, n)
    ensures var end := EndBlock(off, off + n);
            FirstNew(off) <= end && |log| <= end - off / BSIZE + Min(end - FirstNew(off) + 1, NBitmap(sb)) + 2
  {
    var end, lo, ind := EndBlock(off, off + n), off / BSIZE, ino[i].addrs[NDIRECT];
    assert off == BSIZE * lo + off % BSIZE && (off + n - 1) / BSIZE < MAXFILE;
    var f, maps, data := Fresh(use0, use), MapsOf(sb, Fresh(use0, use)), BlocksOf(use, i, lo, end);
    FreshBlocks(sb, disk0, ino0, use0, disk, ino, use, i, off, end);
    BlocksOfSize(sb, disk, ino, use, i, lo, end);
    BlocksOfSize(sb, disk, ino, use, i, FirstNew(off), end);
    var new' := BlocksOf(use, i, FirstNew(off), end);
    UnionSize(new', {ind});
    SubsetSize(f, new' + {ind});
    MapsSize(sb, f);
    MapsInBitmap(sb, f);
    LogWithin(sb, log, use0, use, ind, i, off, r, n);
    UnionSize(data, maps);
    UnionSize(data + maps, {ind});
    UnionSize(data + maps + {ind}, {IBlock(sb, i)});
    SubsetSize(log, data + maps + {ind} + {IBlock(sb, i)});
  }

  lemma LogWithin(sb: Super, log: set<nat>, use0: seq<Use>, use: seq<Use>, ind: nat, i: nat, off: nat, r: nat, n: nat)
    requires WriteiLogged(sb, {}, log, use0, use, ind, i, off, r, n) && r <= n
    requires Fresh(use0, use) <= BlocksOf(use, i, FirstNew(off), EndBlock(off, off + n)) + {ind}
    ensures log <= BlocksOf(use, i, off / BSIZE, EndBlock(off, off + n)) + MapsOf(sb, Fresh(use0, use)) + {ind} +
                   {IBlock(sb, i)}
  {
    assert r > 0 ==> (off + r - 1) / BSIZE <= (off + n - 1) / BSIZE;
    assert EndBlock(off, off + r) <= EndBlock(off, off + n);
    assert BlocksOf(use, i, off / BSIZE, EndBlock(off, off + r)) <= BlocksOf(use, i, off / BSIZE,
                                                                             EndBlock(off, off + n));
    assert BlocksOf(use, i, FirstNew(off), EndBlock(off, off + n)) <=
           BlocksOf(use, i, off / BSIZE, EndBlock(off, off + n));
  }

  lemma NothingToLog(sb: Super, disk: Disk, ino: Inodes, use0: seq<Use>, use: seq<Use>, i: nat, off: nat, log: set<nat>)
    requires Good(sb, disk, ino, use) && i in ino && TakenBy(use0, use, i)
    requires WriteiLogged(sb, {}, log, use0, use, ino[i].addrs[NDIRECT], i, off, 0, 0)
    ensures |log| <= 4
  {
    var f, ind := Fresh(use0, use), ino[i].addrs[NDIRECT];
    forall b | b in f ensures b == ind {
      assert BlockGood(sb, disk, ino, use, b);
    }
    assert BlocksOf(use, i, off / BSIZE, off / BSIZE) == {};
    SubsetSize(f, {ind});
    MapsSize(sb, f);
    UnionSize(f, MapsOf(sb, f));
    UnionSize(f + MapsOf(sb, f), {ind});
    UnionSize(f + MapsOf(sb, f) + {ind}, {IBlock(sb, i)});
    SubsetSize(log, f + MapsOf(sb, f) + {ind} + {IBlock(sb, i)});
  }

  lemma ChunkSpan(off: nat, n: nat)
    requires 0 < n <= MAXWRITE
    ensures EndBlock(off, off + n) - off / BSIZE <= 4 && EndBlock(off, off + n) - FirstNew(off) <= 3
  {
    var o := off % BSIZE;
    assert off == BSIZE * (off / BSIZE) + o;
    assert (off + n - 1) / BSIZE == off / BSIZE + (o + n - 1) / BSIZE;
  }

  /** A write of at most MAXWRITE bytes to a file without holes logs at most MAXOPBLOCKS blocks, and fewer where there
      are fewer than four bitmap blocks. */
  lemma ChunkFits(sb: Super, disk0: Disk, ino0: Inodes, use0: seq<Use>, disk: Disk, ino: Inodes, use: seq<Use>, i: nat,
                  off: nat, r: nat, n: nat, log: set<nat>)
    requires Good(sb, disk0, ino0, use0) && i in ino0 && Dense(disk0, ino0[i]) && off <= ino0[i].size
    requires Good(sb, disk, ino, use) && i in ino && TakenBy(use0, use, i) && r <= n <= MAXWRITE && off + n <= MAXBYTES
    requires WriteiLogged(sb, {}, log, use0, use, ino[i].addrs[NDIRECT], i, off, r, n)
    ensures |log| <= ChunkBudget(sb) <= MAXOPBLOCKS
  {
    if n == 0 {
      NothingToLog(sb, disk, ino, use0, use, i, off, log);
    } else {
      WriteLogSize(sb, disk0, ino0, use0, disk, ino, use, i, off, r, n, log);
      ChunkSpan(off, n);
    }
  }

  // ---------------------------------------------------------------- a chunk that logs ten blocks

  /** The file ends inside its last direct block, and the first free blocks, of which there are five or more, are
      f[0..4],
      each under a bitmap block of its own. */
  ghost predicate Spread(sb: Super, ip: Inode, use: seq<Use>, i: nat, f: seq<nat>) {
    ip.size / BSIZE == NDIRECT - 1 && ip.size % BSIZE != 0 && ip.addrs[NDIRECT] == 0 && IBlock(sb, i) < sb.bmapstart &&
    |f| == 5 && f[0] < f[1] < f[2] < f[3] < f[4] < |use| && (forall k :: 0 <= k < 5 ==> use[f[k]] == Free) &&
    (forall c: nat :: c < f[3] && c < |use| && use[c] == Free ==> c in f[..4]) &&
    f[0] / BPB < f[1] / BPB < f[2] / BPB < f[3] / BPB
  }

  /** The four blocks taken are the first four that were free. */
  lemma FirstFour(use0: seq<Use>, use: seq<Use>, f: seq<nat>)
    requires Grows(use0, use) && Lowest(use0, use) && |Fresh(use0, use)| == 4
    requires |f| == 5 && f[0] < f[1] < f[2] < f[3] < f[4] < |use| && forall k :: 0 <= k < 5 ==> use0[f[k]] == Free
    requires forall c: nat :: c < f[3] && c < |use0| && use0[c] == Free ==> c in f[..4]
    ensures Fresh(use0, use) == {f[0], f[1], f[2], f[3]}
  {
    var four := {f[0], f[1], f[2], f[3]};
    forall k | 0 <= k < 4 ensures f[k] in Fresh(use0, use) {
      if use[f[k]] == Free {
        forall b | b in Fresh(use0, use) ensures b in four - {f[3]} {
          assert b < f[k] <= f[3] && b in f[..4];
        }
        SubsetSize(Fresh(use0, use), {f[0], f[1], f[2]});
      }
    }
    SameSize(four, Fresh(use0, use));
  }

  /** At most four blocks are taken, so one of the five stays free. */
  lemma NotAllTaken(sb: Super, disk0: Disk, ino0: Inodes, use0: seq<Use>, disk: Disk, ino: Inodes, use: seq<Use>,
                    i: nat, f: seq<nat>)
    requires Good(sb, disk0, ino0, use0) && i in ino0 && Dense(disk0, ino0[i]) && Spread(sb, ino0[i], use0, i, f)
    requires Good(sb, disk, ino, use) && i in ino && TakenBy(use0, use, i)
    requires FreshIn(use0, use, NDIRECT - 1, NDIRECT + 3)
    ensures |Fresh(use0, use)| <= 4 && exists b: nat :: b < |use| && use[b] == Free
  {
    var off := ino0[i].size;
    assert off == BSIZE * (NDIRECT - 1) + off % BSIZE;
    FreshBlocks(sb, disk0, ino0, use0, disk, ino, use, i, off, NDIRECT + 3);
    var new', ind := BlocksOf(use, i, NDIRECT, NDIRECT + 3), ino[i].addrs[NDIRECT];
    BlocksOfSize(sb, disk, ino, use, i, NDIRECT, NDIRECT + 3);
    UnionSize(new', {ind});
    SubsetSize(Fresh(use0, use), new' + {ind});
    hide Good, BlocksOf;
    OneLeft(use0, use, f);
  }

  lemma OneLeft(use0: seq<Use>, use: seq<Use>, f: seq<nat>)
    requires |use| == |use0| && |Fresh(use0, use)| <= 4
    requires |f| == 5 && f[0] < f[1] < f[2] < f[3] < f[4] < |use| && forall k :: 0 <= k < 5 ==> use0[f[k]] == Free
    ensures exists b: nat :: b < |use| && use[b] == Free
  {
    if forall k :: 0 <= k < 5 ==> use[f[k]] != Free {
      var five := {f[0], f[1], f[2], f[3], f[4]};
      forall b | b in five ensures b in Fresh(use0, use) {
      }
      SubsetSize(five, Fresh(use0, use));
    }
  }

  /** A block that is mapped now and was not before is new. */
  lemma MappedNow(sb: Super, disk0: Disk, ino0: Inodes, use0: seq<Use>, disk: Disk, ino: Inodes, use: seq<Use>, i: nat,
                  n: nat)
    requires Good(sb, disk0, ino0, use0) && i in ino0 && Good(sb, disk, ino, use) && i in ino && TakenBy(use0, use, i)
    requires n < MAXFILE && Addr(disk0, ino0[i], n) == 0 && Addr(disk, ino[i], n) != 0
    ensures var a := Addr(disk, ino[i], n); a in Fresh(use0, use) && use[a] == Data(i, n)
  {
    var a := Addr(disk, ino[i], n);
    assert AddrGood(disk, ino, use, i, n) && BlockGood(sb, disk0, ino0, use0, a);
  }

  lemma IndirectNow(sb: Super, disk0: Disk, ino0: Inodes, use0: seq<Use>, disk: Disk, ino: Inodes, use: seq<Use>,
                    i: nat)
    requires Good(sb, disk0, ino0, use0) && i in ino0 && Good(sb, disk, ino, use) && i in ino && TakenBy(use0, use, i)
    requires ino0[i].addrs[NDIRECT] == 0 && ino[i].addrs[NDIRECT] != 0
    ensures var a := ino[i].addrs[NDIRECT]; a in Fresh(use0, use) && use[a] == Ind(i)
  {
    assert IndGood(ino, use, i) && BlockGood(sb, disk0, ino0, use0, ino[i].addrs[NDIRECT]);
  }

  /** Three data blocks and the indirect block are new. */
  lemma FourTaken(sb: Super, disk0: Disk, ino0: Inodes, use0: seq<Use>, disk: Disk, ino: Inodes, use: seq<Use>, i: nat)
    requires Good(sb, disk0, ino0, use0) && i in ino0 && ino0[i].addrs[NDIRECT] == 0
    requires Good(sb, disk, ino, use) && i in ino && TakenBy(use0, use, i) && |Fresh(use0, use)| <= 4
    requires forall n :: NDIRECT <= n < NDIRECT + 3 ==> Addr(disk, ino[i], n) != 0
    ensures Fresh(use0, use) == {Addr(disk, ino[i], NDIRECT), Addr(disk, ino[i], NDIRECT + 1),
                                 Addr(disk, ino[i], NDIRECT + 2), ino[i].addrs[NDIRECT]}
    ensures |Fresh(use0, use)| == 4 && EntrySet(use0, use)
  {
    var a, b, c, d := Addr(disk, ino[i], NDIRECT), Addr(disk, ino[i], NDIRECT + 1), Addr(disk, ino[i], NDIRECT + 2),
                      ino[i].addrs[NDIRECT];
    MappedNow(sb, disk0, ino0, use0, disk, ino, use, i, NDIRECT);
    MappedNow(sb, disk0, ino0, use0, disk, ino, use, i, NDIRECT + 1);
    MappedNow(sb, disk0, ino0, use0, disk, ino, use, i, NDIRECT + 2);
    IndirectNow(sb, disk0, ino0, use0, disk, ino, use, i);
    assert IsEntry(use, a);
    SameSize({a, b, c, d}, Fresh(use0, use));
  }

  /** The blocks of the four block numbers written. */
  lemma FourWritten(sb: Super, disk: Disk, ino: Inodes, use: seq<Use>, i: nat)
    requires Good(sb, disk, ino, use) && i in ino
    requires forall n :: NDIRECT - 1 <= n < NDIRECT + 3 ==> Addr(disk, ino[i], n) != 0
    ensures BlocksOf(use, i, NDIRECT - 1, NDIRECT + 3) ==
            {Addr(disk, ino[i], NDIRECT - 1), Addr(disk, ino[i], NDIRECT), Addr(disk, ino[i], NDIRECT + 1),
             Addr(disk, ino[i], NDIRECT + 2)}
  {
    assert BlocksOf(use, i, NDIRECT - 1, NDIRECT - 1) == {};
    BlocksNext(sb, disk, ino, use, i, NDIRECT - 1, NDIRECT - 1, NDIRECT);
    BlocksNext(sb, disk, ino, use, i, NDIRECT - 1, NDIRECT, NDIRECT + 1);
    BlocksNext(sb, disk, ino, use, i, NDIRECT - 1, NDIRECT + 1, NDIRECT + 2);
    BlocksNext(sb, disk, ino, use, i, NDIRECT - 1, NDIRECT + 2, NDIRECT + 3);
  }

  /** Four bitmap blocks for four blocks far apart. */
  lemma FourMaps(sb: Super, f: seq<nat>)
    requires |f| == 5 && f[0] / BPB < f[1] / BPB < f[2] / BPB < f[3] / BPB
    ensures |MapsOf(sb, {f[0], f[1], f[2], f[3]})| == 4
  {
    var m := {BBlock(sb, f[0]), BBlock(sb, f[1]), BBlock(sb, f[2]), BBlock(sb, f[3])};
    assert MapsOf(sb, {f[0], f[1], f[2], f[3]}) == m;
  }

  /** A block of a file and the bitmap block of any block are different. */
  lemma DataNotMeta(sb: Super, disk: Disk, ino: Inodes, use: seq<Use>, b: nat)
    requires Good(sb, disk, ino, use) && b < sb.size && (use[b].Data? || use[b].Ind?)
    ensures b >= sb.nmeta && forall c: nat :: c < sb.size ==> sb.bmapstart <= BBlock(sb, c) < sb.nmeta
  {
    assert BlockGood(sb, disk, ino, use, b);
    forall c: nat | c < sb.size ensures sb.bmapstart <= BBlock(sb, c) < sb.nmeta {
      BBlockInside(sb, c);
    }
  }

  /** Block 11 and the new blocks of the file, the bitmap blocks and the inode's block are all different. */
  lemma TenApart(sb: Super, disk: Disk, ino: Inodes, use: seq<Use>, i: nat, a: nat, new': set<nat>)
    requires Good(sb, disk, ino, use) && IBlock(sb, i) < sb.bmapstart && a < sb.size && use[a] == Data(i, NDIRECT - 1)
    requires forall b :: b in new' ==> b < sb.size && (use[b].Ind? || (use[b].Data? && use[b].bn >= NDIRECT))
    ensures var maps := MapsOf(sb, new'); new' !! maps && a !in new' + maps && IBlock(sb, i) !in new' + maps + {a}
  {
    DataNotMeta(sb, disk, ino, use, a);
    forall b | b in new' ensures b >= sb.nmeta && b != a {
      DataNotMeta(sb, disk, ino, use, b);
    }
    forall m | m in MapsOf(sb, new') ensures sb.bmapstart <= m < sb.nmeta {
    }
  }

  lemma TenSet(new': set<nat>, maps: set<nat>, ind: nat, written: set<nat>, a: nat, ib: nat, log: set<nat>)
    requires |new'| == 4 == |maps| && new' !! maps && a !in new' + maps && ib !in new' + maps + {a}
    requires ind in new' && a in written && written <= new' + {a}
    requires log == new' + maps + {ind} + written + {ib}
    ensures |log| == 10
  {
    assert log == new' + maps + {a} + {ib};
  }

  lemma TenOwners(sb: Super, disk: Disk, ino: Inodes, use: seq<Use>, i: nat, new': set<nat>)
    requires Good(sb, disk, ino, use) && i in ino
    requires forall n :: NDIRECT - 1 <= n < NDIRECT + 3 ==> Addr(disk, ino[i], n) != 0
    requires new' == {Addr(disk, ino[i], NDIRECT), Addr(disk, ino[i], NDIRECT + 1), Addr(disk, ino[i], NDIRECT + 2),
                      ino[i].addrs[NDIRECT]}
    ensures var a, written := Addr(disk, ino[i], NDIRECT - 1), BlocksOf(use, i, NDIRECT - 1, NDIRECT + 3);
            a < sb.size && use[a] == Data(i, NDIRECT - 1) && a in written && written <= new' + {a}
    ensures forall b :: b in new' ==> b < sb.size && (use[b].Ind? || (use[b].Data? && use[b].bn >= NDIRECT))
  {
    FourWritten(sb, disk, ino, use, i);
    assert AddrGood(disk, ino, use, i, NDIRECT - 1) && AddrGood(disk, ino, use, i, NDIRECT);
    assert AddrGood(disk, ino, use, i, NDIRECT + 1) && AddrGood(disk, ino, use, i, NDIRECT + 2) && IndGood(ino, use, i);
    assert ino[i].addrs[NDIRECT] != 0;
  }

  lemma CountTen(sb: Super, disk: Disk, ino: Inodes, use0: seq<Use>, use: seq<Use>, i: nat, f: seq<nat>, log: set<nat>)
    requires Good(sb, disk, ino, use) && i in ino && IBlock(sb, i) < sb.bmapstart
    requires |f| == 5 && f[0] / BPB < f[1] / BPB < f[2] / BPB < f[3] / BPB
    requires forall n :: NDIRECT - 1 <= n < NDIRECT + 3 ==> Addr(disk, ino[i], n) != 0
    requires Fresh(use0, use) == {f[0], f[1], f[2], f[3]} && |Fresh(use0, use)| == 4 && EntrySet(use0, use)
    requires Fresh(use0, use) == {Addr(disk, ino[i], NDIRECT), Addr(disk, ino[i], NDIRECT + 1),
                                  Addr(disk, ino[i], NDIRECT + 2), ino[i].addrs[NDIRECT]}
    requires log == FreshLog(sb, use0, use, ino[i].addrs[NDIRECT]) + BlocksOf(use, i, NDIRECT - 1, NDIRECT + 3) +
                    {IBlock(sb, i)}
    ensures |log| == MAXOPBLOCKS
  {
    var a, ind, new', maps := Addr(disk, ino[i], NDIRECT - 1), ino[i].addrs[NDIRECT], Fresh(use0, use),
                              MapsOf(sb, Fresh(use0, use));
    var written := BlocksOf(use, i, NDIRECT - 1, NDIRECT + 3);
    hide Good, Fresh, MapsOf, EntrySet, BlocksOf, Addr;
    assert FreshLog(sb, use0, use, ind) == new' + maps + {ind};
    hide FreshLog;
    TenOwners(sb, disk, ino, use, i, new');
    FourMaps(sb, f);
    TenApart(sb, disk, ino, use, i, a, new');
    TenSet(new', maps, ind, written, a, IBlock(sb, i), log);
  }

  /** The whole chunk written: exactly ten blocks are logged. */
  lemma TenLogged(sb: Super, disk0: Disk, ino0: Inodes, use0: seq<Use>, disk: Disk, ino: Inodes, use: seq<Use>, i: nat,
                  f: seq<nat>, src: seq<Byte>, log: set<nat>)
    requires Good(sb, disk0, ino0, use0) && i in ino0 && Dense(disk0, ino0[i]) && Spread(sb, ino0[i], use0, i, f)
    requires Good(sb, disk, ino, use) && |src| == MAXWRITE
    requires Wrote(disk0, ino0, use0, src, ino0[i].size, MAXWRITE, disk, ino, use, i)
    requires WriteiLogged(sb, {}, log, use0, use, ino[i].addrs[NDIRECT], i, ino0[i].size, MAXWRITE, MAXWRITE)
    ensures |log| == MAXOPBLOCKS
  {
    var off, ind := ino0[i].size, ino[i].addrs[NDIRECT];
    assert off == BSIZE * (NDIRECT - 1) + off % BSIZE;
    assert (off + MAXWRITE - 1) / BSIZE == NDIRECT + 2;
    NotAllTaken(sb, disk0, ino0, use0, disk, ino, use, i, f);
    forall n | NDIRECT - 1 <= n < NDIRECT + 3 ensures Addr(disk, ino[i], n) != 0 {
      assert BlockMapped(disk, ino[i], ino[i].size, n);
    }
    FourTaken(sb, disk0, ino0, use0, disk, ino, use, i);
    FirstFour(use0, use, f);
    CountTen(sb, disk, ino, use0, use, i, f, log);
  }

  /** The bound is met: in every such state, writing a whole chunk at the end of the file logs exactly ten blocks. */
  method TenBlocks(fs: FileSystem, i: nat, src: seq<Byte>, f: seq<nat>) returns (r: int)
    requires fs.Valid() && i in fs.ino && Dense(fs.disk, fs.ino[i]) && Spread(fs.sb, fs.ino[i], fs.use, i, f)
    requires |src| == MAXWRITE && fs.logged == {}
    modifies fs
    ensures r == MAXWRITE && |fs.logged| == MAXOPBLOCKS
  {
    var off := fs.ino[i].size;
    assert off == BSIZE * (NDIRECT - 1) + off % BSIZE;
    r := Writei(fs, i, src, off, MAXWRITE);
    assert (off + MAXWRITE - 1) / BSIZE == NDIRECT + 2;
    NotAllTaken(fs.sb, old(fs.disk), old(fs.ino), old(fs.use), fs.disk, fs.ino, fs.use, i, f);
    assert r == MAXWRITE;
    TenLogged(fs.sb, old(fs.disk), old(fs.ino), old(fs.use), fs.disk, fs.ino, fs.use, i, f, src, fs.logged);
  }

  /** Two writes one after the other are one write. */
  lemma WroteTwice(disk0: Disk, ino0: Inodes, use0: seq<Use>, src: seq<Byte>, off: nat, t: nat, n: nat,
                   disk1: Disk, ino1: Inodes, use1: seq<Use>, part: seq<Byte>, r: nat, disk2: Disk, ino2: Inodes,
                   use2: seq<Use>, i: nat)
    requires Wrote(disk0, ino0, use0, src, off, t, disk1, ino1, use1, i) && off <= ino0[i].size
    requires t + n <= |src| && part == src[t..t + n] && r <= n &&
             Wrote(disk1, ino1, use1, part, off + t, r, disk2, ino2, use2, i)
    ensures Wrote(disk0, ino0, use0, src, off, t + r, disk2, ino2, use2, i)
  {
    var size, cur, all := ino2[i].size, off + t, t + r;
    forall k: nat ensures ByteGood(disk0, ino0[i], src, off, all, size, disk2, ino2[i], k) {
      assert ByteGood(disk0, ino0[i], src, off, t, ino1[i].size, disk1, ino1[i], k);
      assert ByteGood(disk1, ino1[i], part, cur, r, size, disk2, ino2[i], k);
    }
    OtherFilesTransitive(disk0, ino0, disk1, ino1, disk2, ino2, i);
  }

  lemma WroteNothing(disk: Disk, ino: Inodes, use: seq<Use>, src: seq<Byte>, off: nat, i: nat)
    requires i in ino && Dense(disk, ino[i]) && off <= ino[i].size
    ensures Wrote(disk, ino, use, src, off, 0, disk, ino, use, i)
  {
    NothingWritten(disk, ino, use, src, off, i);
  }

  class OpenFile {
    const inum: nat
    var off: nat
  }

  /** t bytes written from off0 on, and the offset advanced past them. */
  ghost predicate Advanced(disk0: Disk, ino0: Inodes, use0: seq<Use>, src: seq<Byte>, off0: nat, t: nat, disk: Disk,
                           ino: Inodes, use: seq<Use>, i: nat) {
    i in ino0 && t <= |src| &&
    if off0 <= ino0[i].size then Wrote(disk0, ino0, use0, src, off0, t, disk, ino, use, i)
    else t == 0 && disk == disk0 && ino == ino0 && use == use0
  }

  /** One transaction of filewrite. */
  method WriteOp(fs: FileSystem, f: OpenFile, src: seq<Byte>, avail: nat) returns (r: int)
    requires fs.Valid() && f.inum in fs.ino && Dense(fs.disk, fs.ino[f.inum]) && |src| <= MAXWRITE
    modifies fs, f
    ensures fs.Valid() && f.inum in fs.ino && Dense(fs.disk, fs.ino[f.inum])
    ensures |fs.logged| <= ChunkBudget(fs.sb) <= MAXOPBLOCKS
    ensures ChangesLogged(old(fs.disk), fs.disk, {}, fs.logged) &&
            InodeLogged(fs.sb, old(fs.ino), fs.ino, f.inum, fs.logged)
    ensures -1 <= r <= |src| && r <= avail && f.off == old(f.off) + (if r > 0 then r else 0)
    ensures r < 0 ==> fs.disk == old(fs.disk) && fs.ino == old(fs.ino) && fs.use == old(fs.use) &&
                      Refused(old(fs.ino)[f.inum].size, old(f.off), |src|)
    ensures 0 <= r < |src| ==> Stuck(old(f.off), r, |src|, avail, fs.use)
    ensures r >= 0 ==> old(f.off) <= old(fs.ino)[f.inum].size &&
                       Wrote(old(fs.disk), old(fs.ino), old(fs.use), src, old(f.off), r, fs.disk, fs.ino, fs.use,
                             f.inum)
  {
    fs.logged := {};  // begin_op
    r := Writei(fs, f.inum, src, f.off, avail);
    if r >= 0 {
      ChunkFits(fs.sb, old(fs.disk), old(fs.ino), old(fs.use), fs.disk, fs.ino, fs.use, f.inum, old(f.off), r, |src|,
                fs.logged);
    }
    if r > 0 {
      f.off := f.off + r;
    }
  }

  /** All that was logged in these transactions. */
  ghost function AllOf(ops: seq<set<nat>>): set<nat> { set k, b | 0 <= k < |ops| && b in ops[k] :: b }

  lemma OpLogged(disk0: Disk, disk1: Disk, disk: Disk, ops: seq<set<nat>>, log: set<nat>)
    requires ChangesLogged(disk0, disk1, {}, AllOf(ops)) && ChangesLogged(disk1, disk, {}, log)
    ensures ChangesLogged(disk0, disk, {}, AllOf(ops + [log]))
    ensures AllOf(ops) <= AllOf(ops + [log]) && log <= AllOf(ops + [log])
  {
    var more := ops + [log];
    forall b | b in AllOf(ops) ensures b in AllOf(more) {
      var k :| 0 <= k < |ops| && b in ops[k];
      assert more[k] == ops[k];
    }
    assert more[|ops|] == log;
  }

  /** No inode but i has changed, and if it has then its block is logged. */
  ghost predicate InodeLogged(sb: Super, ino0: Inodes, ino: Inodes, i: nat, log: set<nat>) {
    OnlyInode(ino0, ino, i) && (ino != ino0 ==> IBlock(sb, i) in log)
  }

  lemma InodeOpLogged(sb: Super, ino0: Inodes, ino1: Inodes, ino: Inodes, i: nat, ops: seq<set<nat>>, log: set<nat>)
    requires InodeLogged(sb, ino0, ino1, i, AllOf(ops)) && InodeLogged(sb, ino1, ino, i, log)
    requires AllOf(ops) <= AllOf(ops + [log]) && log <= AllOf(ops + [log])
    ensures InodeLogged(sb, ino0, ino, i, AllOf(ops + [log]))
  {
    hide AllOf;
  }

  lemma NothingAdvanced(disk: Disk, ino: Inodes, use: seq<Use>, src: seq<Byte>, off: nat, i: nat)
    requires i in ino && Dense(disk, ino[i])
    ensures Advanced(disk, ino, use, src, off, 0, disk, ino, use, i)
  {
    if off <= ino[i].size {
      WroteNothing(disk, ino, use, src, off, i);
    }
  }

  /** One transaction more. */
  lemma Advances(disk0: Disk, ino0: Inodes, use0: seq<Use>, src: seq<Byte>, off: nat, done: nat, n1: nat, disk1: Disk,
                 ino1: Inodes, use1: seq<Use>, part: seq<Byte>, r: int, disk: Disk, ino: Inodes, use: seq<Use>, i: nat)
    requires Advanced(disk0, ino0, use0, src, off, done, disk1, ino1, use1, i) && i in ino1
    requires done + n1 <= |src| && part == src[done..done + n1] && r <= n1
    requires r < 0 ==> disk == disk1 && ino == ino1 && use == use1
    requires r >= 0 ==> off + done <= ino1[i].size && Wrote(disk1, ino1, use1, part, off + done, r, disk, ino, use, i)
    ensures Advanced(disk0, ino0, use0, src, off, done + (if r > 0 then r else 0), disk, ino, use, i)
  {
    hide Wrote;
    if r >= 0 && off <= ino0[i].size {
      WroteTwice(disk0, ino0, use0, src, off, done, n1, disk1, ino1, use1, part, r, disk, ino, use, i);
    }
  }

  /** Why filewrite gives up with n bytes of a chunk to go: refused, not copied in, or no block is free. */
  ghost predicate Stopped(size: nat, off: nat, n: nat, sofar: nat, avail: nat, use: seq<Use>) {
    Refused(size, off, n) || sofar + Chunk(off, n) > avail || forall b: nat :: b < |use| ==> use[b] != Free
  }

  lemma WhyStopped(size: nat, off0: nat, i: nat, r: int, n: nat, avail: nat, use: seq<Use>)
    requires r < n && i <= avail && (r < 0 ==> Refused(size, off0 + i, n))
    requires 0 <= r ==> Stuck(off0 + i, r, n, avail - i, use)
    ensures r < 0 ==> Stopped(size, off0 + i, n, i, avail, use)
    ensures 0 <= r ==> Stopped(size, off0 + i + r, n - r, i + r, avail, use)
  {
  }

  /** i bytes written in transactions that logged `ops`. */
  ghost predicate Underway(sb: Super, disk0: Disk, ino0: Inodes, use0: seq<Use>, src: seq<Byte>, off0: nat, i: nat,
                           disk: Disk, ino: Inodes, use: seq<Use>, inum: nat, ops: seq<set<nat>>) {
    Advanced(disk0, ino0, use0, src, off0, i, disk, ino, use, inum) && ChangesLogged(disk0, disk, {}, AllOf(ops)) &&
    InodeLogged(sb, ino0, ino, inum, AllOf(ops)) &&
    forall k :: 0 <= k < |ops| ==> |ops[k]| <= ChunkBudget(sb) <= MAXOPBLOCKS
  }

  lemma NothingDone(sb: Super, disk: Disk, ino: Inodes, use: seq<Use>, src: seq<Byte>, off: nat, i: nat)
    requires i in ino && Dense(disk, ino[i])
    ensures Underway(sb, disk, ino, use, src, off, 0, disk, ino, use, i, [])
  {
    NothingAdvanced(disk, ino, use, src, off, i);
  }

  lemma Undertaken(sb: Super, disk0: Disk, ino0: Inodes, use0: seq<Use>, src: seq<Byte>, off0: nat, i: nat,
                   disk: Disk, ino: Inodes, use: seq<Use>, inum: nat, ops: seq<set<nat>>)
    requires Underway(sb, disk0, ino0, use0, src, off0, i, disk, ino, use, inum, ops)
    ensures Advanced(disk0, ino0, use0, src, off0, i, disk, ino, use, inum) &&
            ChangesLogged(disk0, disk, {}, AllOf(ops))
    ensures InodeLogged(sb, ino0, ino, inum, AllOf(ops))
    ensures forall k :: 0 <= k < |ops| ==> |ops[k]| <= ChunkBudget(sb) <= MAXOPBLOCKS
  {
  }

  /** The next chunk, in a transaction of its own. */
  method WriteNext(fs: FileSystem, f: OpenFile, src: seq<Byte>, i: nat, avail: nat, ghost disk0: Disk,
                   ghost ino0: Inodes, ghost use0: seq<Use>, ghost off0: nat, ghost ops: seq<set<nat>>)
    returns (n1: nat, r: int, ghost ops': seq<set<nat>>)
    requires fs.Valid() && f.inum in fs.ino && Dense(fs.disk, fs.ino[f.inum]) && i < |src| && i <= avail
    requires f.off == off0 + i
    requires Underway(fs.sb, disk0, ino0, use0, src, off0, i, fs.disk, fs.ino, fs.use, f.inum, ops)
    modifies fs, f
    ensures fs.Valid() && f.inum in fs.ino && Dense(fs.disk, fs.ino[f.inum]) && 0 < n1 <= |src| - i && -1 <= r <= n1
    ensures f.off == off0 + i + (if r > 0 then r else 0) <= off0 + avail
    ensures Underway(fs.sb, disk0, ino0, use0, src, off0, f.off - off0, fs.disk, fs.ino, fs.use, f.inum, ops')
    ensures r != n1 ==>
              var left := if r < 0 then n1 else n1 - r;
              Stopped(fs.ino[f.inum].size, f.off, left, f.off - off0, avail, fs.use)
  {
    hide Good, Wrote, DenseTo, Chunk, Stuck, Stopped, Refused, ChangesLogged, AllOf, InodeLogged, Advanced;
    n1 := if |src| - i > MAXWRITE then MAXWRITE else |src| - i;
    ghost var disk1, ino1, use1 := fs.disk, fs.ino, fs.use;
    r := WriteOp(fs, f, src[i..i + n1], avail - i);
    OpLogged(disk0, disk1, fs.disk, ops, fs.logged);
    InodeOpLogged(fs.sb, ino0, ino1, fs.ino, f.inum, ops, fs.logged);
    ops' := ops + [fs.logged];
    Advances(disk0, ino0, use0, src, off0, i, n1, disk1, ino1, use1, src[i..i + n1], r, fs.disk, fs.ino, fs.use,
             f.inum);
    if r != n1 {
      WhyStopped(fs.ino[f.inum].size, off0, i, r, n1, avail, fs.use);
    }
  }

  /** filewrite, its FD_INODE case. */
  method Filewrite(fs: FileSystem, f: OpenFile, src: seq<Byte>, avail: nat)
    returns (ret: int, ghost ops: seq<set<nat>>, ghost left: nat)
    requires fs.Valid() && f.inum in fs.ino && Dense(fs.disk, fs.ino[f.inum])
    modifies fs, f
    ensures fs.Valid() && f.off >= old(f.off)
    ensures Advanced(old(fs.disk), old(fs.ino), old(fs.use), src, old(f.off), f.off - old(f.off), fs.disk, fs.ino,
                     fs.use, f.inum)
    ensures ret == |src| || ret == -1
    ensures ret == |src| <==> f.off == old(f.off) + |src|
    ensures ret == -1 ==> f.inum in fs.ino && 0 < left <= |src| - (f.off - old(f.off)) &&
                          Stopped(fs.ino[f.inum].size, f.off, left, f.off - old(f.off), avail, fs.use)
    ensures forall k :: 0 <= k < |ops| ==> |ops[k]| <= ChunkBudget(fs.sb) <= MAXOPBLOCKS
    ensures f.off - old(f.off) <= avail && ChangesLogged(old(fs.disk), fs.disk, {}, AllOf(ops))
    ensures InodeLogged(fs.sb, old(fs.ino), fs.ino, f.inum, AllOf(ops))
  {
    ops, left := [], 0;
    NothingDone(fs.sb, fs.disk, fs.ino, fs.use, src, f.off, f.inum);
    hide Good, DenseTo, Underway, Stopped;
    var i := 0;
    while i < |src|
      invariant 0 <= i <= |src| && i <= avail && f.off == old(f.off) + i && fs.Valid() && f.inum in fs.ino &&
                Dense(fs.disk, fs.ino[f.inum])
      invariant Underway(fs.sb, old(fs.disk), old(fs.ino), old(fs.use), src, old(f.off), i, fs.disk, fs.ino, fs.use,
                         f.inum, ops)
    {
      var n1, r;
      n1, r, ops := WriteNext(fs, f, src, i, avail, old(fs.disk), old(fs.ino), old(fs.use), old(f.off), ops);
      if r != n1 {
        left := if r < 0 then n1 else n1 - r;
        break;
      }
      i := i + r;
    }
    Undertaken(fs.sb, old(fs.disk), old(fs.ino), old(fs.use), src, old(f.off), f.off - old(f.off), fs.disk, fs.ino,
               fs.use, f.inum, ops);
    ret := if i == |src| then |src| else -1;
  }
}
