/**
 Truncating a file (kernel/fs.c): itrunc gives every block of the file back to the bitmap.
 */
module Truncation {
  import opened Blocks
  import opened BlockMaps

  /** What becomes of a block when blocks below hi of file i are freed and, once `gone`, the rest of the file is only
      held. */
  function After(u: Use, i: nat, hi: nat, gone: bool): Use {
    if u.Data? && u.inum == i && u.bn < hi then Free
    else if gone && ((u.Data? && u.inum == i) || u == Ind(i)) then Held
    else u
  }

  ghost predicate Dropped(use: seq<Use>, use': seq<Use>, i: nat, hi: nat, gone: bool) {
    |use'| == |use| && forall b: nat :: b < |use| ==> use'[b] == After(use[b], i, hi, gone)
  }

  ghost predicate FilesKept(sb: Super, disk: Disk, disk': Disk) {
    |disk'| == |disk| && forall b: nat :: sb.nmeta <= b < |disk| ==> disk'[b] == disk[b]
  }

  lemma PutUseKeeps(sb: Super, disk: Disk, b: nat, on: bool)
    requires SuperGood(sb) && |disk| == sb.size && b < sb.size
    ensures FilesKept(sb, disk, PutUse(sb, disk, b, on))
  {
    BBlockInside(sb, b);
  }

  // ---------------------------------------------------------------- direct blocks

  lemma UnlinkDirect(sb: Super, disk: Disk, ino: Inodes, use: seq<Use>, i: nat, n: nat)
    requires Good(sb, disk, ino, use) && i in ino && n < NDIRECT && ino[i].addrs[n] != 0
    ensures ino[i].addrs[n] < sb.size && use[ino[i].addrs[n]] == Data(i, n)
    ensures Good(sb, disk, SetAddr(ino, i, n, 0), use[ino[i].addrs[n] := Held])
  {
    var b := ino[i].addrs[n];
    assert AddrGood(disk, ino, use, i, n);
    var ino', use' := SetAddr(ino, i, n, 0), use[b := Held];
    forall c: nat ensures BlockGood(sb, disk, ino', use', c) {
      assert BlockGood(sb, disk, ino, use, c);
    }
    forall j: nat, k: nat ensures AddrGood(disk, ino', use', j, k) {
      assert AddrGood(disk, ino, use, j, k);
    }
    forall j: nat ensures IndGood(ino', use', j) {
      assert IndGood(ino, use, j);
    }
  }

  lemma DropDirect(sb: Super, disk0: Disk, ino0: Inodes, use0: seq<Use>, disk: Disk, ino: Inodes, use: seq<Use>, i: nat,
                   n: nat, next: nat)
    requires Good(sb, disk0, ino0, use0) && Dropped(use0, use, i, n, false) && n < NDIRECT && next == n + 1 && i in ino0
    ensures var b := ino0[i].addrs[n];
            if b == 0 then Dropped(use0, use, i, next, false)
            else b < |use0| && Dropped(use0, use[b := Held][b := Free], i, next, false)
  {
    var b := ino0[i].addrs[n];
    assert AddrGood(disk0, ino0, use0, i, n);
    forall c: nat | c < |use0| && c != b ensures use0[c] != Data(i, n) {
      assert BlockGood(sb, disk0, ino0, use0, c);
    }
    assert BlockGood(sb, disk0, ino0, use0, 0);
  }

  // ---------------------------------------------------------------- what is logged

  /** The blocks that became free. */
  ghost function Released(use: seq<Use>, use': seq<Use>): set<nat> {
    set b: nat | b < |use| && b < |use'| && use[b] != Free && use'[b] == Free
  }

  /** The bitmap blocks of all blocks freed were logged, and no others. */
  ghost predicate FreesLogged(sb: Super, use: seq<Use>, use': seq<Use>, log: set<nat>, log': set<nat>) {
    |use'| == |use| && (forall b: nat :: b < |use| && use[b] == Free ==> use'[b] == Free) &&
    log' == log + MapsOf(sb, Released(use, use'))
  }

  lemma NoneReleased(sb: Super, use: seq<Use>, use': seq<Use>, log: set<nat>)
    requires |use'| == |use| && forall b: nat :: b < |use| ==> (use'[b] == Free <==> use[b] == Free)
    ensures FreesLogged(sb, use, use', log, log)
  {
    assert Released(use, use') == {};
  }

  /** One more block freed, which others may have held in between. */
  lemma OneReleased(sb: Super, use0: seq<Use>, use: seq<Use>, use1: seq<Use>, log0: set<nat>, log: set<nat>, b: nat)
    requires FreesLogged(sb, use0, use, log0, log) && b < |use| && use[b] != Free && |use1| == |use|
    requires forall c: nat :: c < |use| && c != b ==> (use1[c] == Free <==> use[c] == Free)
    requires use1[b] == Free
    ensures FreesLogged(sb, use0, use1, log0, log + {BBlock(sb, b)})
  {
    assert Released(use0, use1) == Released(use0, use) + {b};
    assert MapsOf(sb, Released(use0, use) + {b}) == MapsOf(sb, Released(use0, use)) + {BBlock(sb, b)};
  }

  lemma HeldNotFree(sb: Super, use0: seq<Use>, use: seq<Use>, log0: set<nat>, log: set<nat>, b: nat)
    requires FreesLogged(sb, use0, use, log0, log) && b < |use| && use[b] != Free
    ensures FreesLogged(sb, use0, use[b := Held], log0, log)
  {
    assert Released(use0, use[b := Held]) == Released(use0, use);
  }

  lemma ReleasedJoin(sb: Super, use0: seq<Use>, use1: seq<Use>, use2: seq<Use>, log0: set<nat>, log1: set<nat>,
                     log2: set<nat>)
    requires FreesLogged(sb, use0, use1, log0, log1) && FreesLogged(sb, use1, use2, log1, log2)
    ensures FreesLogged(sb, use0, use2, log0, log2)
  {
    var f, g := Released(use0, use1), Released(use1, use2);
    assert Released(use0, use2) == f + g;
    assert MapsOf(sb, f + g) == MapsOf(sb, f) + MapsOf(sb, g);
  }

  /** The inode's own entries below n cleared. */
  predicate EntriesCleared(ip0: Inode, ip: Inode, n: nat) {
    n <= NDIRECT && ip.size == ip0.size && (forall k :: 0 <= k < n ==> ip.addrs[k] == 0) &&
    forall k :: n <= k <= NDIRECT ==> ip.addrs[k] == ip0.addrs[k]
  }

  method FreeDirect(fs: FileSystem, i: nat)
    requires fs.Valid() && i in fs.ino
    modifies fs
    ensures fs.Valid() && i in fs.ino && fs.ino == old(fs.ino)[i := fs.ino[i]] &&
            EntriesCleared(old(fs.ino)[i], fs.ino[i], NDIRECT)
    ensures Dropped(old(fs.use), fs.use, i, NDIRECT, false) && FilesKept(fs.sb, old(fs.disk), fs.disk)
    ensures ChangesLogged(old(fs.disk), fs.disk, old(fs.logged), fs.logged)
    ensures FreesLogged(fs.sb, old(fs.use), fs.use, old(fs.logged), fs.logged)
  {
    NoneReleased(fs.sb, fs.use, fs.use, fs.logged);
    assert ChangesLogged(fs.disk, fs.disk, fs.logged, fs.logged);
    hide FreesLogged, ChangesLogged;
    var n := 0;
    while n < NDIRECT
      invariant 0 <= n <= NDIRECT && fs.Valid() && i in fs.ino && fs.ino == old(fs.ino)[i := fs.ino[i]]
      invariant EntriesCleared(old(fs.ino)[i], fs.ino[i], n)
      invariant Dropped(old(fs.use), fs.use, i, n, false) && FilesKept(fs.sb, old(fs.disk), fs.disk)
      invariant ChangesLogged(old(fs.disk), fs.disk, old(fs.logged), fs.logged)
      invariant FreesLogged(fs.sb, old(fs.use), fs.use, old(fs.logged), fs.logged)
    {
      DropDirect(fs.sb, old(fs.disk), old(fs.ino), old(fs.use), fs.disk, fs.ino, fs.use, i, n, n + 1);
      var b := fs.ino[i].addrs[n];
      if b != 0 {
        UnlinkDirect(fs.sb, fs.disk, fs.ino, fs.use, i, n);
        PutUseKeeps(fs.sb, fs.disk, b, false);
        HeldNotFree(fs.sb, old(fs.use), fs.use, old(fs.logged), fs.logged, b);
        fs.use := fs.use[b := Held];
        FreeHeld(fs, b, SetAddr(fs.ino, i, n, 0), old(fs.use), old(fs.disk), old(fs.logged));
        fs.ino := SetAddr(fs.ino, i, n, 0);
      }
      n := n + 1;
    }
  }

  // ---------------------------------------------------------------- the indirect block

  /** With its indirect block given up, a file's later blocks are merely held. */
  lemma UnlinkInd(sb: Super, disk: Disk, ino: Inodes, use: seq<Use>, use': seq<Use>, i: nat)
    requires Good(sb, disk, ino, use) && i in ino && ino[i].addrs[NDIRECT] != 0 &&
             (forall k :: 0 <= k < NDIRECT ==> ino[i].addrs[k] == 0)
    requires |use'| == |use| && forall b: nat :: b < |use| ==> use'[b] == After(use[b], i, 0, true)
    ensures Good(sb, disk, SetAddr(ino, i, NDIRECT, 0), use')
  {
    var ino' := SetAddr(ino, i, NDIRECT, 0);
    assert BlockGood(sb, disk, ino, use, 0);
    forall c: nat ensures BlockGood(sb, disk, ino', use', c) {
      assert BlockGood(sb, disk, ino, use, c);
    }
    forall j: nat, k: nat ensures AddrGood(disk, ino', use', j, k) {
      assert AddrGood(disk, ino, use, j, k);
    }
    forall j: nat ensures IndGood(ino', use', j) {
      assert IndGood(ino, use, j);
    }
  }

  lemma DropWord(sb: Super, disk0: Disk, ino0: Inodes, use0: seq<Use>, use: seq<Use>, i: nat, n: nat, b: nat, next: nat)
    requires Good(sb, disk0, ino0, use0) && Dropped(use0, use, i, n, true) && NDIRECT <= n < MAXFILE && next == n + 1 &&
             i in ino0
    requires b == Addr(disk0, ino0[i], n)
    ensures b == 0 ==> Dropped(use0, use, i, next, true)
    ensures b != 0 ==> b < |use0| && use[b] == Held && Dropped(use0, use[b := Free], i, next, true)
  {
    assert AddrGood(disk0, ino0, use0, i, n);
    forall c: nat | c < |use0| && c != b ensures use0[c] != Data(i, n) {
      assert BlockGood(sb, disk0, ino0, use0, c);
    }
    assert BlockGood(sb, disk0, ino0, use0, 0);
  }

  lemma StartInd(sb: Super, disk: Disk, ino: Inodes, use: seq<Use>, use': seq<Use>, i: nat)
    requires Good(sb, disk, ino, use) && i in ino && (forall k :: 0 <= k < NDIRECT ==> ino[i].addrs[k] == 0)
    requires |use'| == |use| && forall b: nat :: b < |use| ==> use'[b] == After(use[b], i, 0, true)
    ensures Dropped(use, use', i, NDIRECT, true)
  {
    forall b: nat | b < |use| ensures use'[b] == After(use[b], i, NDIRECT, true) {
      assert BlockGood(sb, disk, ino, use, b);
    }
  }

  /** Every block of file i is free and no other block has changed hands. */
  ghost predicate AllFreed(use: seq<Use>, use': seq<Use>, i: nat) {
    |use'| == |use| &&
    forall b: nat :: b < |use| ==>
      use'[b] == if (use[b].Data? && use[b].inum == i) || use[b] == Ind(i) then Free else use[b]
  }

  lemma EndInd(sb: Super, disk0: Disk, ino0: Inodes, use0: seq<Use>, use: seq<Use>, i: nat)
    requires Good(sb, disk0, ino0, use0) && Dropped(use0, use, i, MAXFILE, true) && i in ino0 &&
             ino0[i].addrs[NDIRECT] != 0
    ensures var ind := ino0[i].addrs[NDIRECT]; ind < |use| && use[ind] == Held && AllFreed(use0, use[ind := Free], i)
  {
    var ind := ino0[i].addrs[NDIRECT];
    assert IndGood(ino0, use0, i);
    forall b: nat | b < |use0|
      ensures use[ind := Free][b] == if (use0[b].Data? && use0[b].inum == i) || use0[b] == Ind(i) then Free else use0[b]
    {
      assert BlockGood(sb, disk0, ino0, use0, b);
    }
  }

  /** bfree of a block the file has given up, with its log write. */
  method FreeHeld(fs: FileSystem, b: nat, ghost after: Inodes, ghost use0: seq<Use>, ghost disk0: Disk,
                  ghost log0: set<nat>)
    requires Good(fs.sb, fs.disk, after, fs.use) && b < fs.sb.size && fs.use[b] == Held
    requires ChangesLogged(disk0, fs.disk, log0, fs.logged) && FreesLogged(fs.sb, use0, fs.use, log0, fs.logged)
    modifies fs
    ensures Good(fs.sb, fs.disk, after, fs.use) && fs.ino == old(fs.ino)
    ensures fs.disk == PutUse(fs.sb, old(fs.disk), b, false) && fs.use == old(fs.use)[b := Free]
    ensures ChangesLogged(disk0, fs.disk, log0, fs.logged) && FreesLogged(fs.sb, use0, fs.use, log0, fs.logged)
  {
    OneReleased(fs.sb, use0, fs.use, fs.use[b := Free], log0, fs.logged, b);
    ghost var disk1, log1 := fs.disk, fs.logged;
    fs.Bfree(b, after);
    LoggedTransitive(disk0, disk1, fs.disk, log0, log1, fs.logged);
  }

  method FreeIndirect(fs: FileSystem, i: nat)
    requires fs.Valid() && i in fs.ino && fs.ino[i].addrs[NDIRECT] != 0 &&
             (forall k :: 0 <= k < NDIRECT ==> fs.ino[i].addrs[k] == 0)
    modifies fs
    ensures fs.Valid() && fs.ino == SetAddr(old(fs.ino), i, NDIRECT, 0)
    ensures AllFreed(old(fs.use), fs.use, i) && FilesKept(fs.sb, old(fs.disk), fs.disk)
    ensures ChangesLogged(old(fs.disk), fs.disk, old(fs.logged), fs.logged)
    ensures FreesLogged(fs.sb, old(fs.use), fs.use, old(fs.logged), fs.logged)
  {
    var ind := fs.ino[i].addrs[NDIRECT];
    assert IndGood(fs.ino, fs.use, i) && BlockGood(fs.sb, fs.disk, fs.ino, fs.use, ind);
    ghost var after := SetAddr(fs.ino, i, NDIRECT, 0);
    ghost var use0 := fs.use;
    fs.use := seq(|use0|, b requires 0 <= b < |use0| => After(use0[b], i, 0, true));
    UnlinkInd(fs.sb, fs.disk, fs.ino, use0, fs.use, i);
    StartInd(fs.sb, fs.disk, fs.ino, use0, fs.use, i);
    NoneReleased(fs.sb, use0, fs.use, fs.logged);
    assert ChangesLogged(fs.disk, fs.disk, fs.logged, fs.logged);
    hide FreesLogged, ChangesLogged;
    var j := 0;
    while j < NINDIRECT
      invariant 0 <= j <= NINDIRECT && fs.ino == old(fs.ino) && Good(fs.sb, fs.disk, after, fs.use)
      invariant Dropped(use0, fs.use, i, NDIRECT + j, true) && FilesKept(fs.sb, old(fs.disk), fs.disk)
      invariant ChangesLogged(old(fs.disk), fs.disk, old(fs.logged), fs.logged)
      invariant FreesLogged(fs.sb, use0, fs.use, old(fs.logged), fs.logged)
    {
      var a := Word(fs.disk[ind], j);
      DropWord(fs.sb, old(fs.disk), old(fs.ino), use0, fs.use, i, NDIRECT + j, a, NDIRECT + j + 1);
      if a != 0 {
        PutUseKeeps(fs.sb, fs.disk, a, false);
        FreeHeld(fs, a, after, use0, old(fs.disk), old(fs.logged));
      }
      j := j + 1;
    }
    EndInd(fs.sb, old(fs.disk), old(fs.ino), use0, fs.use, i);
    PutUseKeeps(fs.sb, fs.disk, ind, false);
    FreeHeld(fs, ind, after, use0, old(fs.disk), old(fs.logged));
    fs.ino := SetAddr(fs.ino, i, NDIRECT, 0);
  }

  /** The other files, when no block outside the bitmap has changed. */
  lemma OtherFiles(sb: Super, disk: Disk, ino: Inodes, use: seq<Use>, disk': Disk, ino': Inodes, i: nat, j: nat, k: nat)
    requires Good(sb, disk, ino, use) && FilesKept(sb, disk, disk') && j != i &&
             (j in ino ==> j in ino' && ino'[j] == ino[j])
    ensures SameBlock(disk, ino, disk', ino', j, k)
  {
    assert AddrGood(disk, ino, use, j, k) && IndGood(ino, use, j);
    if j in ino && k < MAXFILE {
      assert BlockGood(sb, disk, ino, use, ino[j].addrs[NDIRECT]);
      assert BlockGood(sb, disk, ino, use, Addr(disk, ino[j], k));
    }
  }

  lemma NothingLeft(sb: Super, disk: Disk, ino: Inodes, use: seq<Use>, use': seq<Use>, i: nat)
    requires Good(sb, disk, ino, use) && i in ino && ino[i].addrs[NDIRECT] == 0 && Dropped(use, use', i, NDIRECT, false)
    ensures AllFreed(use, use', i)
  {
    forall b: nat | b < |use|
      ensures use'[b] == if (use[b].Data? && use[b].inum == i) || use[b] == Ind(i) then Free else use[b]
    {
      assert BlockGood(sb, disk, ino, use, b) && BlockGood(sb, disk, ino, use, 0);
    }
  }

  lemma FreedTwice(use: seq<Use>, use1: seq<Use>, use2: seq<Use>, i: nat)
    requires Dropped(use, use1, i, NDIRECT, false) && AllFreed(use1, use2, i)
    ensures AllFreed(use, use2, i)
  {
  }

  /** itrunc */
  method Itrunc(fs: FileSystem, i: nat)
    requires fs.Valid() && i in fs.ino
    modifies fs
    ensures fs.Valid() && fs.ino == old(fs.ino)[i := Inode(seq(NDIRECT + 1, _ => 0), 0)]
    ensures AllFreed(old(fs.use), fs.use, i)
    ensures forall j: nat, k: nat :: j != i ==> SameBlock(old(fs.disk), old(fs.ino), fs.disk, fs.ino, j, k)
    ensures ChangesLogged(old(fs.disk), fs.disk, old(fs.logged), fs.logged)
    ensures fs.logged == old(fs.logged) + MapsOf(fs.sb, Released(old(fs.use), fs.use)) + {IBlock(fs.sb, i)}
  {
    FreeDirect(fs, i);
    ghost var use1, disk1, log1 := fs.use, fs.disk, fs.logged;
    if fs.ino[i].addrs[NDIRECT] != 0 {
      FreeIndirect(fs, i);
      FreedTwice(old(fs.use), use1, fs.use, i);
      LoggedTransitive(old(fs.disk), disk1, fs.disk, old(fs.logged), log1, fs.logged);
      ReleasedJoin(fs.sb, old(fs.use), use1, fs.use, old(fs.logged), log1, fs.logged);
    } else {
      NothingLeft(fs.sb, old(fs.disk), old(fs.ino), old(fs.use), use1, i);
    }
    ResizedGood(fs.sb, fs.disk, fs.ino, fs.use, i, 0, Resized(fs.ino, i, 0));
    assert fs.ino[i].addrs == seq(NDIRECT + 1, _ => 0);
    fs.ino := fs.ino[i := Inode(fs.ino[i].addrs, 0)];
    fs.logged := fs.logged + {IBlock(fs.sb, i)};
    forall j: nat, k: nat | j != i ensures SameBlock(old(fs.disk), old(fs.ino), fs.disk, fs.ino, j, k) {
      OtherFiles(fs.sb, old(fs.disk), old(fs.ino), old(fs.use), fs.disk, fs.ino, i, j, k);
    }
  }
}
