/**
 Reading and writing file contents (kernel/fs.c): readi and writei against a flat sequence of bytes.

 User copies succeed or fail as a whole: a copy reaching past the first `room` (or `avail`) bytes of
 the user's buffer fails.
 */
module FileContents {
  import opened Blocks
  import opened BlockMaps

  const MAXBYTES: nat := 274432  // MAXFILE * BSIZE

  /** Byte k of a file. */
  function ByteAt(disk: Disk, ip: Inode, k: nat): Byte
    requires k < MAXBYTES
  {
    var a := Addr(disk, ip, k / BSIZE);
    if a < |disk| then disk[a][k % BSIZE] else 0
  }

  /** Where the bytes of a file are: twelve blocks of 1024 that the inode names, then blocks named by four-byte
      numbers, low
      byte first, in the block that it names last. */
  lemma ByteLocation(disk: Disk, ip: Inode, k: nat)
    requires k < 268 * 1024 && ip.addrs[12] != 0
    requires forall n :: 0 <= n <= 12 ==> ip.addrs[n] < |disk|
    ensures k < 12 * 1024 ==> ByteAt(disk, ip, k) == disk[ip.addrs[k / 1024]][k % 1024]
    ensures k >= 12 * 1024 ==>
              var ind, at := disk[ip.addrs[12]], 4 * (k / 1024 - 12);
              var b0: nat, b1: nat, b2: nat, b3: nat := ind[at], ind[at + 1], ind[at + 2], ind[at + 3];
              var a := b0 + 256 * b1 + 65536 * b2 + 16777216 * b3;
              a < |disk| ==> ByteAt(disk, ip, k) == disk[a][k % 1024]
  {
  }

  predicate BlockMapped(disk: Disk, ip: Inode, size: nat, n: nat) {
    n < MAXFILE && n * BSIZE < size ==> Addr(disk, ip, n) != 0
  }

  /** Every block below this size is mapped. */
  ghost predicate DenseTo(disk: Disk, ip: Inode, size: nat) {
    size <= MAXBYTES && forall n: nat :: BlockMapped(disk, ip, size, n)
  }

  ghost predicate Dense(disk: Disk, ip: Inode) { DenseTo(disk, ip, ip.size) }

  lemma InBlock(cur: nat, m: nat, k: nat)
    requires m <= BSIZE - cur % BSIZE
    ensures cur <= k < cur + m <==> k / BSIZE == cur / BSIZE && cur % BSIZE <= k % BSIZE < cur % BSIZE + m
    ensures cur <= k < cur + m ==> k % BSIZE - cur % BSIZE == k - cur
  {
    var q := cur / BSIZE;
    assert cur == BSIZE * q + cur % BSIZE && k == BSIZE * (k / BSIZE) + k % BSIZE;
    if k / BSIZE < q {
      assert k < BSIZE * q;
    } else if k / BSIZE > q {
      assert k >= BSIZE * (q + 1);
    }
  }

  lemma DenseByte(disk: Disk, ip: Inode, size: nat, k: nat)
    requires DenseTo(disk, ip, size) && k < size
    ensures k / BSIZE < MAXFILE && Addr(disk, ip, k / BSIZE) != 0
  {
    assert k / BSIZE * BSIZE <= k;
    assert BlockMapped(disk, ip, size, k / BSIZE);
  }

  // ---------------------------------------------------------------- reading

  /** readi: t bytes from off on, with nothing allocated on the way. */
  method Readi(fs: FileSystem, i: nat, off: nat, n: nat, room: nat) returns (out: seq<Byte>, r: int)
    requires fs.Valid() && i in fs.ino && Dense(fs.disk, fs.ino[i]) && off < UINT && n < UINT
    modifies fs
    ensures fs.disk == old(fs.disk) && fs.ino == old(fs.ino) && fs.use == old(fs.use) && fs.logged == old(fs.logged)
    ensures var t := if off > fs.ino[i].size || off + n >= UINT then 0
                     else if off + n > fs.ino[i].size then fs.ino[i].size - off else n;
            r == (if t <= room then t else -1) &&
            (r >= 0 ==> |out| == t && forall k: nat :: k < t ==> out[k] == ByteAt(fs.disk, fs.ino[i], off + k))
  {
    out := [];
    if off > fs.ino[i].size || off + n >= UINT {
      return out, 0;
    }
    var size := fs.ino[i].size;
    var n' := if off + n > size then size - off else n;
    var tot, cur := 0, off;
    while tot < n'
      invariant 0 <= tot <= n' && cur == off + tot && |out| == tot && tot <= room
      invariant fs.disk == old(fs.disk) && fs.ino == old(fs.ino) && fs.use == old(fs.use) && fs.logged == old(fs.logged)
      invariant forall k: nat :: k < tot ==> out[k] == ByteAt(fs.disk, fs.ino[i], off + k)
    {
      DenseByte(fs.disk, fs.ino[i], size, cur);
      var addr := fs.Bmap(i, cur / BSIZE);
      assert AddrGood(fs.disk, fs.ino, fs.use, i, cur / BSIZE);
      var bp := fs.disk[addr];
      var m := if n' - tot <= BSIZE - cur % BSIZE then n' - tot else BSIZE - cur % BSIZE;
      if tot + m > room {
        return out, -1;
      }
      var more := out + bp[cur % BSIZE..cur % BSIZE + m];
      forall k: nat | tot <= k < tot + m ensures more[k] == ByteAt(fs.disk, fs.ino[i], off + k) {
        InBlock(cur, m, off + k);
      }
      out := more;
      tot, cur := tot + m, cur + m;
    }
    r := tot;
  }

  // ---------------------------------------------------------------- writing

  /** The bytes of data over those of b, from position o on. */
  function Splice(b: Block, o: nat, data: seq<Byte>): Block
    requires o + |data| <= BSIZE
  {
    seq(BSIZE, k requires 0 <= k < BSIZE => if o <= k < o + |data| then data[k - o] else b[k])
  }

  /** Overwriting a data block keeps every block map. */
  lemma DataGood(sb: Super, disk: Disk, ino: Inodes, use: seq<Use>, a: nat, b: Block)
    requires Good(sb, disk, ino, use) && a < sb.size && use[a].Data?
    ensures Good(sb, disk[a := b], ino, use)
    ensures forall j: nat, k: nat :: j in ino && k < MAXFILE ==> Addr(disk[a := b], ino[j], k) == Addr(disk, ino[j], k)
  {
    var disk' := disk[a := b];
    assert BlockGood(sb, disk, ino, use, a);
    forall c: nat | c < sb.size ensures InUse(sb, disk', c) <==> use[c] != Free {
      BBlockInside(sb, c);
      assert BlockGood(sb, disk, ino, use, c);
    }
    KeptGood(sb, disk, ino, use, disk', use);
    forall j: nat, k: nat | j in ino && k < MAXFILE ensures Addr(disk', ino[j], k) == Addr(disk, ino[j], k) {
      KeptAddr(sb, disk, ino, use, disk', j, k);
    }
  }

  /** What byte k of the file should be after t bytes of src have been written at off. */
  function Want(disk: Disk, ip: Inode, src: seq<Byte>, off: nat, t: nat, k: nat): Byte
    requires k < MAXBYTES && t <= |src|
  {
    if off <= k < off + t then src[k - off] else ByteAt(disk, ip, k)
  }

  predicate ByteGood(disk0: Disk, ip0: Inode, src: seq<Byte>, off: nat, t: nat, size: nat, disk: Disk, ip: Inode,
                     k: nat) {
    k < size <= MAXBYTES && t <= |src| ==> ByteAt(disk, ip, k) == Want(disk0, ip0, src, off, t, k)
  }

  /** The file holds src[..t] at off, what it held elsewhere, and has no hole below size. */
  ghost predicate Written(disk0: Disk, ip0: Inode, src: seq<Byte>, off: nat, t: nat, size: nat, disk: Disk, ip: Inode) {
    t <= |src| && DenseTo(disk, ip, size) && forall k: nat :: ByteGood(disk0, ip0, src, off, t, size, disk, ip, k)
  }

  /** Mapping a block that the file did not have does not show in its bytes so far. */
  lemma MapKeepsWritten(disk0: Disk, ip0: Inode, src: seq<Byte>, off: nat, t: nat, size: nat,
                        sb: Super, disk: Disk, ino: Inodes, use: seq<Use>, disk': Disk, ino': Inodes, use': seq<Use>,
                        i: nat, n: nat, addr: nat)
    requires Good(sb, disk, ino, use) && i in ino && Written(disk0, ip0, src, off, t, size, disk, ino[i])
    requires n < MAXFILE && Addr(disk, ino[i], n) == 0 && Mapped(sb, disk, ino, use, disk', ino', use', i, n, addr)
    ensures Written(disk0, ip0, src, off, t, size, disk', ino'[i])
  {
    forall k: nat ensures BlockMapped(disk', ino'[i], size, k) {
      assert BlockMapped(disk, ino[i], size, k);
      if k != n {
        assert SameBlock(disk, ino, disk', ino', i, k);
      }
    }
    forall k: nat ensures ByteGood(disk0, ip0, src, off, t, size, disk', ino'[i], k) {
      assert ByteGood(disk0, ip0, src, off, t, size, disk, ino[i], k);
      if k < size {
        DenseByte(disk, ino[i], size, k);
        assert SameBlock(disk, ino, disk', ino', i, k / BSIZE) && AddrGood(disk, ino, use, i, k / BSIZE);
      }
    }
  }

  function Max(x: nat, y: nat): nat { if x < y then y else x }

  /** One chunk written into block cur / BSIZE: t bytes become t', and the extent `size` becomes size'. */
  lemma ChunkWritten(disk0: Disk, ip0: Inode, src: seq<Byte>, off: nat, t: nat, t': nat, size: nat, size': nat,
                     sb: Super, disk: Disk, ino: Inodes, use: seq<Use>, i: nat, cur: nat, addr: nat, disk': Disk)
    requires Good(sb, disk, ino, use) && i in ino && Written(disk0, ip0, src, off, t, size, disk, ino[i])
    requires cur == off + t && cur <= size && t <= t' <= |src| && t' - t <= BSIZE - cur % BSIZE &&
             off + t' <= MAXBYTES && cur / BSIZE < MAXFILE
    requires size' == Max(size, off + t') && addr != 0 && addr == Addr(disk, ino[i], cur / BSIZE)
    requires addr < |disk| ==> disk' == disk[addr := Splice(disk[addr], cur % BSIZE, src[t..t'])]
    ensures addr < |disk| && use[addr] == Data(i, cur / BSIZE) &&
            Written(disk0, ip0, src, off, t', size', disk', ino[i])
  {
    assert AddrGood(disk, ino, use, i, cur / BSIZE);
    DataGood(sb, disk, ino, use, addr, Splice(disk[addr], cur % BSIZE, src[t..t']));
    forall n: nat ensures BlockMapped(disk', ino[i], size', n) {
      assert BlockMapped(disk, ino[i], size, n);
      ChunkBlocks(cur, t' - t, n);
    }
    forall k: nat ensures ByteGood(disk0, ip0, src, off, t', size', disk', ino[i], k) {
      assert ByteGood(disk0, ip0, src, off, t, size, disk, ino[i], k);
      InBlock(cur, t' - t, k);
      if k < MAXBYTES {
        assert AddrGood(disk, ino, use, i, k / BSIZE);
      }
    }
  }

  lemma ChunkBlocks(cur: nat, m: nat, n: nat)
    requires m <= BSIZE - cur % BSIZE
    ensures n * BSIZE < cur + m ==> n * BSIZE < cur || n == cur / BSIZE
  {
  }

  /** Blocks change hands only from free to file i. */
  ghost predicate TakenBy(use: seq<Use>, use': seq<Use>, i: nat) {
    |use'| == |use| &&
    forall b: nat :: b < |use| ==>
      use'[b] == use[b] || (use[b] == Free && ((use'[b].Data? && use'[b].inum == i) || use'[b] == Ind(i)))
  }

  ghost predicate OtherFilesKept(disk: Disk, ino: Inodes, disk': Disk, ino': Inodes, i: nat) {
    forall j: nat, k: nat :: j != i ==> SameBlock(disk, ino, disk', ino', j, k)
  }

  lemma OtherFilesTransitive(disk: Disk, ino: Inodes, disk1: Disk, ino1: Inodes, disk2: Disk, ino2: Inodes, i: nat)
    requires OtherFilesKept(disk, ino, disk1, ino1, i) && OtherFilesKept(disk1, ino1, disk2, ino2, i)
    ensures OtherFilesKept(disk, ino, disk2, ino2, i)
  {
    forall j: nat, k: nat | j != i ensures SameBlock(disk, ino, disk2, ino2, j, k) {
      assert SameBlock(disk, ino, disk1, ino1, j, k) && SameBlock(disk1, ino1, disk2, ino2, j, k);
    }
  }

  lemma DataKeepsOthers(sb: Super, disk: Disk, ino: Inodes, use: seq<Use>, a: nat, b: Block, disk': Disk, i: nat)
    requires Good(sb, disk, ino, use) && a < sb.size && use[a].Data? && use[a].inum == i && disk' == disk[a := b]
    ensures OtherFilesKept(disk, ino, disk', ino, i)
  {
    DataGood(sb, disk, ino, use, a, b);
    forall j: nat, k: nat | j != i ensures SameBlock(disk, ino, disk', ino, j, k) {
      assert AddrGood(disk, ino, use, j, k);
    }
  }

  /** writei after t bytes, before it sets the size. */
  ghost predicate Writing(disk0: Disk, ino0: Inodes, use0: seq<Use>, src: seq<Byte>, off: nat, t: nat, disk: Disk,
                          ino: Inodes, use: seq<Use>, i: nat) {
    i in ino0 && ino.Keys == ino0.Keys && ino[i].size == ino0[i].size &&
    Written(disk0, ino0[i], src, off, t, Max(ino0[i].size, off + t), disk, ino[i]) &&
    OtherFilesKept(disk0, ino0, disk, ino, i) && TakenBy(use0, use, i)
  }

  lemma MapKeepsWriting(disk0: Disk, ino0: Inodes, use0: seq<Use>, src: seq<Byte>, off: nat, t: nat,
                        sb: Super, disk: Disk, ino: Inodes, use: seq<Use>, disk': Disk, ino': Inodes, use': seq<Use>,
                        i: nat, n: nat, addr: nat)
    requires Good(sb, disk, ino, use) && Writing(disk0, ino0, use0, src, off, t, disk, ino, use, i)
    requires n < MAXFILE && Addr(disk, ino[i], n) == 0 && Mapped(sb, disk, ino, use, disk', ino', use', i, n, addr)
    ensures Writing(disk0, ino0, use0, src, off, t, disk', ino', use', i)
  {
    MapKeepsWritten(disk0, ino0[i], src, off, t, Max(ino0[i].size, off + t), sb, disk, ino, use, disk', ino', use', i,
                    n, addr);
    OtherFilesTransitive(disk0, ino0, disk, ino, disk', ino', i);
  }

  lemma ChunkKeepsWriting(disk0: Disk, ino0: Inodes, use0: seq<Use>, src: seq<Byte>, off: nat, t: nat, t': nat,
                          sb: Super, disk: Disk, ino: Inodes, use: seq<Use>, i: nat, cur: nat, addr: nat, disk': Disk)
    requires Good(sb, disk, ino, use) && Writing(disk0, ino0, use0, src, off, t, disk, ino, use, i) &&
             off <= ino0[i].size
    requires cur == off + t && t <= t' <= |src| && t' - t <= BSIZE - cur % BSIZE && off + t' <= MAXBYTES &&
             cur / BSIZE < MAXFILE
    requires addr != 0 && addr == Addr(disk, ino[i], cur / BSIZE)
    requires addr < |disk| ==> disk' == disk[addr := Splice(disk[addr], cur % BSIZE, src[t..t'])]
    ensures addr < |disk| && Good(sb, disk', ino, use) && Writing(disk0, ino0, use0, src, off, t', disk', ino, use, i)
  {
    ChunkWritten(disk0, ino0[i], src, off, t, t', Max(ino0[i].size, cur), Max(ino0[i].size, off + t'), sb, disk, ino,
                 use, i, cur, addr, disk');
    DataGood(sb, disk, ino, use, addr, disk'[addr]);
    DataKeepsOthers(sb, disk, ino, use, addr, disk'[addr], disk', i);
    OtherFilesTransitive(disk0, ino0, disk, ino, disk', ino, i);
  }

  function Chunk(cur: nat, left: nat): nat {
    if left <= BSIZE - cur % BSIZE then left else BSIZE - cur % BSIZE
  }

  /** Why writei stops short: the next chunk cannot be copied in, or no block is free. */
  ghost predicate Stuck(off: nat, tot: nat, n: nat, avail: nat, use: seq<Use>)
    requires tot <= n
  {
    tot + Chunk(off + tot, n - tot) > avail || forall b: nat :: b < |use| ==> use[b] != Free
  }

  /** One round of writei's loop: m bytes written, 0 if it has to stop. */
  method WriteChunk(fs: FileSystem, i: nat, src: seq<Byte>, off: nat, tot: nat, avail: nat,
                    ghost disk0: Disk, ghost ino0: Inodes, ghost use0: seq<Use>)
    returns (m: nat, ghost log: set<nat>)
    requires fs.Valid() && Writing(disk0, ino0, use0, src, off, tot, fs.disk, fs.ino, fs.use, i) && off <= ino0[i].size
    requires tot < |src| && off + |src| <= MAXBYTES
    modifies fs
    ensures fs.Valid() && tot + m <= |src| && Writing(disk0, ino0, use0, src, off, tot + m, fs.disk, fs.ino, fs.use, i)
    ensures m == 0 ==> Stuck(off, tot, |src|, avail, fs.use)
    ensures m != 0 ==> m == Chunk(off + tot, |src| - tot) && tot + m <= avail
    ensures var n := (off + tot) / BSIZE;
            Took(fs.sb, old(fs.logged), log, old(fs.use), fs.use, fs.ino[i].addrs[NDIRECT], n, n + 1) &&
            fs.logged == if m == 0 then log else log + {Addr(fs.disk, fs.ino[i], n)}
    ensures m != 0 ==> Addr(fs.disk, fs.ino[i], (off + tot) / BSIZE) != 0
    ensures old(fs.ino)[i].addrs[NDIRECT] != 0 ==> fs.ino[i].addrs[NDIRECT] == old(fs.ino)[i].addrs[NDIRECT]
    ensures ChangesLogged(old(fs.disk), fs.disk, old(fs.logged), fs.logged) && OnlyInode(old(fs.ino), fs.ino, i)
  {
    hide Took, ChangesLogged;
    var cur := off + tot;
    var addr := fs.Bmap(i, cur / BSIZE);
    ghost var isNew := Addr(old(fs.disk), old(fs.ino)[i], cur / BSIZE) == 0;
    if isNew {
      MapKeepsWriting(disk0, ino0, use0, src, off, tot, fs.sb, old(fs.disk), old(fs.ino), old(fs.use), fs.disk, fs.ino,
                      fs.use, i, cur / BSIZE, addr);
    }
    log := fs.logged;
    m := 0;
    if addr == 0 {
      return;
    }
    var c := Chunk(cur, |src| - tot);
    if tot + c > avail {
      return;
    }
    var disk' := if addr < |fs.disk| then fs.disk[addr := Splice(fs.disk[addr], cur % BSIZE, src[tot..tot + c])]
                 else fs.disk;
    ChunkKeepsWriting(disk0, ino0, use0, src, off, tot, tot + c, fs.sb, fs.disk, fs.ino, fs.use, i, cur, addr, disk');
    assert AddrGood(fs.disk, fs.ino, fs.use, i, cur / BSIZE);
    KeptAddr(fs.sb, fs.disk, fs.ino, fs.use, disk', i, cur / BSIZE);
    WriteLogged1(fs.disk, addr, disk'[addr], fs.logged);
    LoggedTransitive(old(fs.disk), fs.disk, disk', old(fs.logged), fs.logged, fs.logged + {addr});
    fs.disk := disk';
    fs.logged := fs.logged + {addr};
    m := c;
  }

  // ---------------------------------------------------------------- what writei logs

  /** Blocks lo..hi of file i. */
  ghost function BlocksOf(use: seq<Use>, i: nat, lo: nat, hi: nat): set<nat> {
    set b: nat | b < |use| && use[b].Data? && use[b].inum == i && lo <= use[b].bn < hi
  }

  /** The number of the block behind bytes off..cur. */
  function EndBlock(off: nat, cur: nat): nat { if cur <= off then off / BSIZE else (cur - 1) / BSIZE + 1 }

  /** What bmap logged for the blocks it took, below `end`, and the data blocks written, below `hi`. */
  ghost predicate WriteLogged(sb: Super, log0: set<nat>, log: set<nat>, use0: seq<Use>, use: seq<Use>, ind: nat, i: nat,
                              lo: nat, hi: nat, end: nat) {
    Grows(use0, use) && FreshIn(use0, use, lo, end) && Lowest(use0, use) &&
    log == log0 + FreshLog(sb, use0, use, ind) + BlocksOf(use, i, lo, hi)
  }

  lemma NothingLogged(sb: Super, log: set<nat>, use: seq<Use>, ind: nat, i: nat, lo: nat)
    ensures WriteLogged(sb, log, log, use, use, ind, i, lo, lo, lo)
  {
    TookNothing(sb, log, use, ind, lo, lo);
    assert BlocksOf(use, i, lo, lo) == {};
  }

  /** A new entry of an indirect block is in this file's, which is there. */
  lemma EntryHasIndirect(sb: Super, disk: Disk, ino: Inodes, use0: seq<Use>, use: seq<Use>, i: nat)
    requires Good(sb, disk, ino, use) && i in ino && TakenBy(use0, use, i) && EntrySet(use0, use)
    ensures ino[i].addrs[NDIRECT] != 0
  {
    var b: nat :| b in Fresh(use0, use) && IsEntry(use, b);
    assert BlockGood(sb, disk, ino, use, b) && BlockGood(sb, disk, ino, use, 0);
  }

  /** Block n of the file is where the map says and nowhere else. */
  lemma BlocksNext(sb: Super, disk: Disk, ino: Inodes, use: seq<Use>, i: nat, lo: nat, n: nat, next: nat)
    requires Good(sb, disk, ino, use) && i in ino && lo <= n < MAXFILE && Addr(disk, ino[i], n) != 0 && next == n + 1
    ensures BlocksOf(use, i, lo, next) == BlocksOf(use, i, lo, n) + {Addr(disk, ino[i], n)}
  {
    assert AddrGood(disk, ino, use, i, n);
    forall b: nat | b < |use| && use[b] == Data(i, n) ensures b == Addr(disk, ino[i], n) {
      assert BlockGood(sb, disk, ino, use, b);
    }
    forall b: nat ensures b in BlocksOf(use, i, lo, next) <==> b in BlocksOf(use, i, lo, n) + {Addr(disk, ino[i], n)} {
      if b in BlocksOf(use, i, lo, next) && use[b].bn == n {
        assert use[b] == Data(i, n);
      }
    }
  }

  /** Taking blocks from number n on does not change which blocks are below. */
  lemma BlocksBelow(use: seq<Use>, use1: seq<Use>, i: nat, lo: nat, n: nat, end: nat)
    requires Grows(use, use1) && FreshIn(use, use1, n, end)
    ensures BlocksOf(use1, i, lo, n) == BlocksOf(use, i, lo, n)
  {
    forall b: nat ensures b in BlocksOf(use1, i, lo, n) <==> b in BlocksOf(use, i, lo, n) {
      if b < |use| && use[b] == Free && use1[b] != Free {
        assert b in Fresh(use, use1);
      }
    }
  }

  /** bmap for block n. */
  lemma LoggedMap(sb: Super, log0: set<nat>, log: set<nat>, log1: set<nat>, use0: seq<Use>, use: seq<Use>,
                  use1: seq<Use>, ind: nat, ind1: nat, i: nat, lo: nat, n: nat, next: nat)
    requires WriteLogged(sb, log0, log, use0, use, ind, i, lo, n, n) && Took(sb, log, log1, use, use1, ind1, n, next)
    requires lo <= n && next == n + 1 && (ind == ind1 || !EntrySet(use0, use))
    ensures WriteLogged(sb, log0, log1, use0, use1, ind1, i, lo, n, next)
  {
    FreshJoin(use0, use, use1);
    BlocksBelow(use, use1, i, lo, n, next);
    hide BlocksOf, Fresh, EntrySet;
    var f, g := Fresh(use0, use), Fresh(use, use1);
    assert MapsOf(sb, f + g) == MapsOf(sb, f) + MapsOf(sb, g);
  }

  /** The data written to it. */
  lemma LoggedData(sb: Super, log0: set<nat>, log: set<nat>, use0: seq<Use>, use: seq<Use>, ind: nat, i: nat, lo: nat,
                   n: nat, next: nat, b: nat)
    requires WriteLogged(sb, log0, log, use0, use, ind, i, lo, n, next)
    requires BlocksOf(use, i, lo, next) == BlocksOf(use, i, lo, n) + {b}
    ensures WriteLogged(sb, log0, log + {b}, use0, use, ind, i, lo, next, next)
  {
    hide FreshLog, BlocksOf;
  }

  lemma LoggedFurther(sb: Super, log0: set<nat>, log: set<nat>, use0: seq<Use>, use: seq<Use>, ind: nat, i: nat,
                      lo: nat, hi: nat, end: nat, end': nat)
    requires WriteLogged(sb, log0, log, use0, use, ind, i, lo, hi, end) && end <= end'
    ensures WriteLogged(sb, log0, log, use0, use, ind, i, lo, hi, end')
  {
  }

  /** A chunk lies in one block, and the next one starts the next block. */
  lemma ChunkEnds(off: nat, cur: nat, left: nat)
    requires off <= cur && left > 0 && (cur == off || cur % BSIZE == 0)
    ensures var next := cur + Chunk(cur, left);
            EndBlock(off, cur) == cur / BSIZE && EndBlock(off, next) == cur / BSIZE + 1 <= EndBlock(off, cur + left) &&
            (next % BSIZE == 0 || next == cur + left) && next <= cur + left
  {
    var c := Chunk(cur, left);
    assert (cur + c - 1) / BSIZE == cur / BSIZE by {
      InBlock(cur, c, cur + c - 1);
    }
    if cur > off {
      assert (cur - 1) / BSIZE == cur / BSIZE - 1;
    }
    if c == BSIZE - cur % BSIZE {
      assert cur + c == BSIZE * (cur / BSIZE + 1);
    }
    assert (cur + c - 1) / BSIZE <= (cur + left - 1) / BSIZE;
  }

  // ---------------------------------------------------------------- writei

  /** t bytes of src are in file i at off; its size covers them; every other byte of every file is as it was. */
  ghost predicate Wrote(disk0: Disk, ino0: Inodes, use0: seq<Use>, src: seq<Byte>, off: nat, t: nat, disk: Disk,
                        ino: Inodes, use: seq<Use>, i: nat) {
    i in ino0 && ino.Keys == ino0.Keys && ino[i].size == Max(ino0[i].size, off + t) &&
    Written(disk0, ino0[i], src, off, t, ino[i].size, disk, ino[i]) && OtherFilesKept(disk0, ino0, disk, ino, i) &&
    TakenBy(use0, use, i)
  }

  lemma WritingDone(disk0: Disk, ino0: Inodes, use0: seq<Use>, src: seq<Byte>, off: nat, t: nat, disk: Disk,
                    ino: Inodes, use: seq<Use>, i: nat, size: nat, ino': Inodes)
    requires Writing(disk0, ino0, use0, src, off, t, disk, ino, use, i) && size == Max(ino0[i].size, off + t) &&
             ino' == Resized(ino, i, size)
    ensures Wrote(disk0, ino0, use0, src, off, t, disk, ino', use, i)
  {
    forall n: nat ensures BlockMapped(disk, ino'[i], size, n) {
      assert BlockMapped(disk, ino[i], size, n);
    }
    forall k: nat ensures ByteGood(disk0, ino0[i], src, off, t, size, disk, ino'[i], k) {
      assert ByteGood(disk0, ino0[i], src, off, t, size, disk, ino[i], k);
      if k < MAXBYTES {
        ResizedAddr(disk, ino[i], size, k / BSIZE);
      }
    }
    forall j: nat, k: nat | j != i ensures SameBlock(disk0, ino0, disk, ino', j, k) {
      assert SameBlock(disk0, ino0, disk, ino, j, k);
    }
  }

  lemma NothingWritten(disk: Disk, ino: Inodes, use: seq<Use>, src: seq<Byte>, off: nat, i: nat)
    requires i in ino && Dense(disk, ino[i]) && off <= ino[i].size
    ensures Writing(disk, ino, use, src, off, 0, disk, ino, use, i)
  {
    assert Max(ino[i].size, off + 0) == ino[i].size;
  }

  /** The blocks one call of writei hands to log_write: those of the bytes written, whatever bmap took, and the
      inode's. */
  ghost predicate WriteiLogged(sb: Super, log0: set<nat>, log: set<nat>, use0: seq<Use>, use: seq<Use>, ind: nat,
                               i: nat, off: nat, r: nat, n: nat) {
    Grows(use0, use) && FreshIn(use0, use, off / BSIZE, EndBlock(off, off + n)) && Lowest(use0, use) &&
    log == log0 + FreshLog(sb, use0, use, ind) + BlocksOf(use, i, off / BSIZE, EndBlock(off, off + r)) + {IBlock(sb, i)}
  }

  predicate Refused(size: nat, off: nat, n: nat) {
    off > size || off + n >= UINT || off + n > MAXBYTES
  }

  /** tot bytes are written and logged; bmap may have gone as far as `end`. */
  ghost predicate WriteDone(sb: Super, disk0: Disk, ino0: Inodes, use0: seq<Use>, log0: set<nat>, src: seq<Byte>,
                            off: nat, tot: nat, end: nat, disk: Disk, ino: Inodes, use: seq<Use>, log: set<nat>,
                            i: nat) {
    tot <= |src| && i in ino && Writing(disk0, ino0, use0, src, off, tot, disk, ino, use, i) &&
    WriteLogged(sb, log0, log, use0, use, ino[i].addrs[NDIRECT], i, off / BSIZE, EndBlock(off, off + tot), end)
  }

  /** At the head of the loop, no block beyond the bytes written is taken, and the next byte starts a block. */
  ghost predicate AtRound(sb: Super, disk0: Disk, ino0: Inodes, use0: seq<Use>, log0: set<nat>, src: seq<Byte>,
                          off: nat, tot: nat, disk: Disk, ino: Inodes, use: seq<Use>, log: set<nat>, i: nat) {
    WriteDone(sb, disk0, ino0, use0, log0, src, off, tot, EndBlock(off, off + tot), disk, ino, use, log, i) &&
    (tot == 0 || (off + tot) % BSIZE == 0 || tot == |src|)
  }

  lemma FirstRound(sb: Super, disk: Disk, ino: Inodes, use: seq<Use>, log: set<nat>, src: seq<Byte>, off: nat, i: nat)
    requires i in ino && Dense(disk, ino[i]) && off <= ino[i].size
    ensures AtRound(sb, disk, ino, use, log, src, off, 0, disk, ino, use, log, i)
  {
    NothingWritten(disk, ino, use, src, off, i);
    NothingLogged(sb, log, use, ino[i].addrs[NDIRECT], i, off / BSIZE);
  }

  lemma RoundLogged(sb: Super, log0: set<nat>, log1: set<nat>, log2: set<nat>, log: set<nat>, use0: seq<Use>,
                    use1: seq<Use>, use: seq<Use>, ind1: nat, ind: nat, i: nat, lo: nat, n: nat, next: nat, m: nat,
                    b: nat, end: nat)
    requires WriteLogged(sb, log0, log1, use0, use1, ind1, i, lo, n, n) && Took(sb, log1, log2, use1, use, ind, n, next)
    requires lo <= n && next == n + 1 <= end && (ind1 == ind || !EntrySet(use0, use1))
    requires m != 0 ==> BlocksOf(use, i, lo, next) == BlocksOf(use, i, lo, n) + {b}
    requires log == if m == 0 then log2 else log2 + {b}
    ensures WriteLogged(sb, log0, log, use0, use, ind, i, lo, if m == 0 then n else next, end)
    ensures m != 0 ==> WriteLogged(sb, log0, log, use0, use, ind, i, lo, next, next)
  {
    hide WriteLogged, EntrySet, Took, BlocksOf;
    LoggedMap(sb, log0, log1, log2, use0, use1, use, ind1, ind, i, lo, n, next);
    if m != 0 {
      LoggedData(sb, log0, log2, use0, use, ind, i, lo, n, next, b);
      LoggedFurther(sb, log0, log, use0, use, ind, i, lo, next, next, end);
    } else {
      LoggedFurther(sb, log0, log, use0, use, ind, i, lo, n, next, end);
    }
  }

  lemma RoundEnds(off: nat, tot: nat, m: nat, total: nat)
    requires tot < total && (tot == 0 || (off + tot) % BSIZE == 0) && (m == 0 || m == Chunk(off + tot, total - tot))
    ensures var n := (off + tot) / BSIZE;
            off / BSIZE <= n && EndBlock(off, off + tot) == n && n + 1 <= EndBlock(off, off + total) &&
            tot + m <= total &&
            EndBlock(off, off + tot + m) == (if m == 0 then n else n + 1) &&
            (m != 0 ==> (off + tot + m) % BSIZE == 0 || tot + m == total)
  {
    ChunkEnds(off, off + tot, total - tot);
  }

  /** The indirect block is the same as before the round, unless nothing was entered into one so far. */
  lemma SameIndirect(sb: Super, disk0: Disk, ino0: Inodes, use0: seq<Use>, src: seq<Byte>, off: nat, tot: nat,
                     disk: Disk,
                     ino: Inodes, use: seq<Use>, i: nat)
    requires Good(sb, disk, ino, use) && Writing(disk0, ino0, use0, src, off, tot, disk, ino, use, i)
    ensures i in ino && (ino[i].addrs[NDIRECT] != 0 || !EntrySet(use0, use))
  {
    if EntrySet(use0, use) {
      EntryHasIndirect(sb, disk, ino, use0, use, i);
    }
  }

  /** One round of writei's loop, with its log writes. */
  method WriteRound(fs: FileSystem, i: nat, src: seq<Byte>, off: nat, tot: nat, avail: nat, ghost disk0: Disk,
                    ghost ino0: Inodes, ghost use0: seq<Use>, ghost log0: set<nat>)
    returns (m: nat)
    requires fs.Valid() && tot < |src| && off + |src| <= MAXBYTES && i in ino0 && off <= ino0[i].size
    requires AtRound(fs.sb, disk0, ino0, use0, log0, src, off, tot, fs.disk, fs.ino, fs.use, fs.logged, i)
    modifies fs
    ensures fs.Valid() && tot + m <= |src| && (m == 0 ==> Stuck(off, tot, |src|, avail, fs.use)) &&
            (m != 0 ==> tot + m <= avail)
    ensures WriteDone(fs.sb, disk0, ino0, use0, log0, src, off, tot + m, EndBlock(off, off + |src|), fs.disk, fs.ino,
                      fs.use, fs.logged, i)
    ensures m != 0 ==>
              AtRound(fs.sb, disk0, ino0, use0, log0, src, off, tot + m, fs.disk, fs.ino, fs.use, fs.logged, i)
    ensures ChangesLogged(old(fs.disk), fs.disk, old(fs.logged), fs.logged) && OnlyInode(old(fs.ino), fs.ino, i)
  {
    ghost var ino1, use1, log1 := fs.ino, fs.use, fs.logged;
    ghost var n: nat, lo: nat := (off + tot) / BSIZE, off / BSIZE;
    SameIndirect(fs.sb, disk0, ino0, use0, src, off, tot, fs.disk, fs.ino, fs.use, i);
    hide Good, Written, WriteLogged, Took, Stuck, TakenBy, OtherFilesKept, EndBlock, EntrySet, BlocksOf, Chunk,
      ChangesLogged;
    ghost var log;
    m, log := WriteChunk(fs, i, src, off, tot, avail, disk0, ino0, use0);
    RoundEnds(off, tot, m, |src|);
    if m != 0 {
      BlocksNext(fs.sb, fs.disk, fs.ino, fs.use, i, lo, n, n + 1);
    }
    RoundLogged(fs.sb, log0, log1, log, fs.logged, use0, use1, fs.use, ino1[i].addrs[NDIRECT],
                fs.ino[i].addrs[NDIRECT], i, lo, n, n + 1, m, Addr(fs.disk, fs.ino[i], n), EndBlock(off, off + |src|));
  }

  /** writei's loop. */
  method WriteLoop(fs: FileSystem, i: nat, src: seq<Byte>, off: nat, avail: nat) returns (tot: nat)
    requires fs.Valid() && i in fs.ino && Dense(fs.disk, fs.ino[i]) && off <= fs.ino[i].size && off + |src| <= MAXBYTES
    modifies fs
    ensures fs.Valid() && tot <= |src| && tot <= avail
    ensures WriteDone(fs.sb, old(fs.disk), old(fs.ino), old(fs.use), old(fs.logged), src, off, tot,
                      EndBlock(off, off + |src|), fs.disk, fs.ino, fs.use, fs.logged, i)
    ensures tot < |src| ==> Stuck(off, tot, |src|, avail, fs.use)
    ensures ChangesLogged(old(fs.disk), fs.disk, old(fs.logged), fs.logged) && OnlyInode(old(fs.ino), fs.ino, i)
  {
    FirstRound(fs.sb, fs.disk, fs.ino, fs.use, fs.logged, src, off, i);
    assert ChangesLogged(fs.disk, fs.disk, fs.logged, fs.logged);
    hide Good, WriteDone, Stuck, ChangesLogged;
    tot := 0;
    while tot < |src|
      invariant 0 <= tot <= |src| && tot <= avail && fs.Valid() &&
                ChangesLogged(old(fs.disk), fs.disk, old(fs.logged), fs.logged)
      invariant OnlyInode(old(fs.ino), fs.ino, i)
      invariant AtRound(fs.sb, old(fs.disk), old(fs.ino), old(fs.use), old(fs.logged), src, off, tot, fs.disk, fs.ino,
                        fs.use, fs.logged, i)
    {
      ghost var disk1, log1 := fs.disk, fs.logged;
      var m := WriteRound(fs, i, src, off, tot, avail, old(fs.disk), old(fs.ino), old(fs.use), old(fs.logged));
      LoggedTransitive(old(fs.disk), disk1, fs.disk, old(fs.logged), log1, fs.logged);
      if m == 0 {
        return;
      }
      tot := tot + m;
    }
  }

  /** writei */
  method Writei(fs: FileSystem, i: nat, src: seq<Byte>, off: nat, avail: nat)
    returns (r: int)
    requires fs.Valid() && i in fs.ino && Dense(fs.disk, fs.ino[i])
    modifies fs
    ensures fs.Valid() && i in fs.ino
    ensures Refused(old(fs.ino)[i].size, off, |src|) ==>
              r == -1 && fs.disk == old(fs.disk) && fs.ino == old(fs.ino) && fs.use == old(fs.use) &&
              fs.logged == old(fs.logged)
    ensures !Refused(old(fs.ino)[i].size, off, |src|) ==>
              0 <= r <= |src| && Wrote(old(fs.disk), old(fs.ino), old(fs.use), src, off, r, fs.disk, fs.ino, fs.use, i)
    ensures !Refused(old(fs.ino)[i].size, off, |src|) ==>
              WriteiLogged(fs.sb, old(fs.logged), fs.logged, old(fs.use), fs.use, fs.ino[i].addrs[NDIRECT], i, off, r,
                           |src|)
    ensures 0 <= r < |src| ==> Stuck(off, r, |src|, avail, fs.use)
    ensures r <= avail && (r == -1 <==> off > old(fs.ino)[i].size || off + |src| > 268 * 1024)
    ensures ChangesLogged(old(fs.disk), fs.disk, old(fs.logged), fs.logged)
    ensures OnlyInode(old(fs.ino), fs.ino, i) && (fs.ino != old(fs.ino) ==> IBlock(fs.sb, i) in fs.logged)
  {
    if off > fs.ino[i].size || off + |src| >= UINT {
      return -1;
    }
    if off + |src| > MAXBYTES {
      return -1;
    }
    var tot := WriteLoop(fs, i, src, off, avail);
    ghost var size := Max(old(fs.ino)[i].size, off + tot);
    ghost var ino' := Resized(fs.ino, i, size);
    WritingDone(old(fs.disk), old(fs.ino), old(fs.use), src, off, tot, fs.disk, fs.ino, fs.use, i, size, ino');
    ResizedGood(fs.sb, fs.disk, fs.ino, fs.use, i, size, ino');
    if off + tot > fs.ino[i].size {
      fs.ino := Resized(fs.ino, i, off + tot);
    }
    assert fs.ino == ino';
    fs.logged := fs.logged + {IBlock(fs.sb, i)};
    r := tot;
  }

  /** What writei wrote is what readi reads back, whatever blocks it crossed; the rest of the file reads as before. */
  method WriteThenRead(fs: FileSystem, i: nat, src: seq<Byte>, off: nat, avail: nat) returns (out: seq<Byte>, r: int)
    requires fs.Valid() && i in fs.ino && Dense(fs.disk, fs.ino[i])
    modifies fs
    ensures r >= 0 ==> r <= |src| && out == src[..r]
    ensures r >= 0 ==> i in fs.ino && fs.ino[i].size == Max(old(fs.ino)[i].size, off + r) <= MAXBYTES
    ensures r >= 0 ==> forall k: nat :: k < old(fs.ino)[i].size && !(off <= k < off + r) ==>
                         ByteAt(fs.disk, fs.ino[i], k) == ByteAt(old(fs.disk), old(fs.ino)[i], k)
  {
    r := Writei(fs, i, src, off, avail);
    if r >= 0 {
      ghost var disk0, ip0 := old(fs.disk), old(fs.ino)[i];
      var got;
      out, got := Readi(fs, i, off, r, r);
      forall k | 0 <= k < r ensures out[k] == src[k] {
        assert ByteGood(disk0, ip0, src, off, r, fs.ino[i].size, fs.disk, fs.ino[i], off + k);
      }
      forall k: nat | k < ip0.size && !(off <= k < off + r)
        ensures ByteAt(fs.disk, fs.ino[i], k) == ByteAt(disk0, ip0, k)
      {
        assert ByteGood(disk0, ip0, src, off, r, fs.ino[i].size, fs.disk, fs.ino[i], k);
      }
    } else {
      out := [];
    }
  }
}
