/**
 The redo log of kernel/log.c as it runs: the in-memory header, the cached blocks, and the
 loops that copy blocks and write the disk.  Every write to disk is recorded, in order, in
 `writes`, so that what a crash between two of them leaves behind can be stated.
 */
module RedoLog {
  import opened LogDisk
  import opened Params

  type Cache = map<nat, Block>

  /** Log absorption: a block is recorded once, in the order of its first write. */
  function Absorb(blocks: seq<nat>, b: nat): seq<nat> {
    if b in blocks then blocks else blocks + [b]
  }

  /** What bread returns for block `b`. */
  function Seen(d: Disk, c: Cache, b: nat): Block {
    if b in c then c[b] else if b < |d| then d[b] else seq(WORDS, _ => 0)
  }

  /** The data of a transaction. */
  function SeenAll(d: Disk, c: Cache, blocks: seq<nat>): seq<Block> {
    seq(|blocks|, i requires 0 <= i < |blocks| => Seen(d, c, blocks[i]))
  }

  /** Only the blocks of the transaction may differ between cache and disk. */
  predicate Coherent(d: Disk, c: Cache, blocks: seq<nat>) {
    forall b: nat :: b < |d| && b !in blocks ==> Seen(d, c, b) == d[b]
  }

  predicate SameHomeSeen(l: Layout, d: Disk, c: Cache, d': Disk, c': Cache) {
    |d| == |d'| && forall b: nat :: b < |d| && IsHome(l, b) ==> Seen(d, c, b) == Seen(d', c', b)
  }

  /** The blocks of the log that hold n logged blocks. */
  function LogArea(l: Layout, n: nat): (r: seq<nat>)
    ensures |r| == n && forall i :: 0 <= i < n ==> r[i] == l.start + 1 + i
  {
    if n == 0 then [] else LogArea(l, n - 1) + [l.start + n]
  }

  /** Pins left once the first k of `blocks` are installed; recovery pins nothing. */
  function Unpinned(pins: set<nat>, blocks: seq<nat>, k: nat, recovering: bool): set<nat>
    requires k <= |blocks|
  {
    if recovering || k == 0 then pins else Unpinned(pins, blocks, k - 1, recovering) - {blocks[k - 1]}
  }

  lemma {:induction false} UnpinnedCount(pins: set<nat>, blocks: seq<nat>, k: nat)
    requires k <= |blocks|
    ensures Unpinned(pins, blocks, k, false) == pins - (set b | b in blocks[..k])
  {
    if k > 0 {
      UnpinnedCount(pins, blocks, k - 1);
      assert blocks[..k] == blocks[..k - 1] + [blocks[k - 1]];
    }
  }

  // ---------------------------------------------------------------- copying blocks

  /** Disk, cache and the writes done. */
  datatype Store = Store(disk: Disk, cache: Cache, writes: seq<Write>)

  /** bread both blocks, memmove, bwrite: the body of the loops of write_log and install_trans. */
  function CopyBlock(s: Store, to: nat, from: nat): Store {
    var data := Seen(s.disk, s.cache, from);
    Store(Put(s.disk, Write(to, data)), s.cache[from := data][to := data], s.writes + [Write(to, data)])
  }

  function CopyLoop(s: Store, to: seq<nat>, from: seq<nat>, k: nat): Store
    requires k <= |to| == |from|
  {
    if k == 0 then s else CopyBlock(CopyLoop(s, to, from, k - 1), to[k - 1], from[k - 1])
  }

  lemma CopyLoopStep(s: Store, to: seq<nat>, from: seq<nat>, k: nat)
    requires k < |to| == |from|
    ensures CopyLoop(s, to, from, k + 1) == CopyBlock(CopyLoop(s, to, from, k), to[k], from[k])
  {
  }

  function Copies(s: Store, to: seq<nat>, from: seq<nat>): seq<Write>
    requires |to| == |from|
  {
    seq(|to|, i requires 0 <= i < |to| => Write(to[i], Seen(s.disk, s.cache, from[i])))
  }

  /** Sources and destinations lie on the disk and are disjoint. */
  predicate Copyable(s: Store, to: seq<nat>, from: seq<nat>) {
    |to| == |from| && (forall i :: 0 <= i < |to| ==> to[i] < |s.disk| && from[i] < |s.disk|) &&
    forall i, j :: 0 <= i < |to| && 0 <= j < |to| ==> to[i] != from[j]
  }

  /** Block b ends up clean if it was written, and is as before otherwise. */
  predicate CleanOrKept(s: Store, r: Store, b: nat, written: bool) {
    b < |s.disk| == |r.disk| &&
    if written then Seen(r.disk, r.cache, b) == r.disk[b]
    else Seen(r.disk, r.cache, b) == Seen(s.disk, s.cache, b) && r.disk[b] == s.disk[b]
  }

  lemma CopyBlockSeen(s: Store, r: Store, to: nat, from: nat, b: nat, written: bool)
    requires CleanOrKept(s, r, b, written) && to < |s.disk| && from < |s.disk|
    ensures CleanOrKept(s, CopyBlock(r, to, from), b, written || b == to)
  {
  }

  /** The destinations end up clean, and every other block is as before. */
  lemma {:induction false} CopyLoopSeen(s: Store, to: seq<nat>, from: seq<nat>, k: nat, b: nat)
    requires Copyable(s, to, from) && k <= |to| && b < |s.disk|
    ensures CleanOrKept(s, CopyLoop(s, to, from, k), b, b in to[..k])
  {
    hide CopyBlock, Seen;
    if k > 0 {
      CopyLoopSeen(s, to, from, k - 1, b);
      CopyBlockSeen(s, CopyLoop(s, to, from, k - 1), to[k - 1], from[k - 1], b, b in to[..k - 1]);
      assert to[..k] == to[..k - 1] + [to[k - 1]];
    }
  }

  /** `r` is `s` after the writes `ws`. */
  predicate After(s: Store, r: Store, ws: seq<Write>) {
    r.disk == Apply(s.disk, ws) && r.writes == s.writes + ws
  }

  /** One more copy, of a block that holds what it held at the start. */
  lemma CopyAfter(s: Store, r: Store, ws: seq<Write>, to: nat, from: nat)
    requires After(s, r, ws) && Seen(r.disk, r.cache, from) == Seen(s.disk, s.cache, from)
    ensures After(s, CopyBlock(r, to, from), ws + [Write(to, Seen(s.disk, s.cache, from))])
  {
    var w := Write(to, Seen(s.disk, s.cache, from));
    assert (ws + [w])[..|ws|] == ws;
  }

  /** Each copy takes what its source held at the start. */
  lemma {:induction false} CopyLoopWrites(s: Store, to: seq<nat>, from: seq<nat>, k: nat)
    requires Copyable(s, to, from) && k <= |to|
    ensures After(s, CopyLoop(s, to, from, k), Copies(s, to, from)[..k])
  {
    hide After, Apply, CopyBlock, Seen;
    var ws := Copies(s, to, from);
    if k == 0 {
      AfterNothing(s);
    } else {
      CopyLoopWrites(s, to, from, k - 1);
      CopyLoopSeen(s, to, from, k - 1, from[k - 1]);
      assert from[k - 1] !in to[..k - 1];
      CopyAfter(s, CopyLoop(s, to, from, k - 1), ws[..k - 1], to[k - 1], from[k - 1]);
      assert ws[..k] == ws[..k - 1] + [ws[k - 1]];
    }
  }

  lemma AfterNothing(s: Store)
    ensures After(s, s, [])
  {
  }

  // ---------------------------------------------------------------- the two headers

  /** write_head: read the header block, put count and block numbers into it, write it. */
  function HeadStore(l: Layout, s: Store, blocks: seq<nat>): Store
    requires |blocks| <= LOGSIZE
  {
    var data := HeadBlock(Seen(s.disk, s.cache, l.start), blocks);
    Store(Put(s.disk, Write(l.start, data)), s.cache[l.start := data], s.writes + [Write(l.start, data)])
  }

  /** A transaction the log can take: home blocks only, all that is dirty in the cache, and room for them. */
  predicate CanCommit(l: Layout, s: Store, blocks: seq<nat>) {
    Fits(l, s.disk, |blocks|) && (forall i :: 0 <= i < |blocks| ==> NamesHome(l, s.disk, blocks[i])) &&
    Coherent(s.disk, s.cache, blocks)
  }

  /** commit(): write_log, write_head, install_trans, write_head again with nothing in it. */
  function CommitStore(l: Layout, s: Store, blocks: seq<nat>): Store
    requires |blocks| <= LOGSIZE
  {
    var n := |blocks|;
    var s1 := CopyLoop(s, LogArea(l, n), blocks, n);
    var s2 := HeadStore(l, s1, blocks);
    var s3 := CopyLoop(s2, blocks, LogArea(l, n), n);
    HeadStore(l, s3, [])
  }

  lemma AfterBoth(s: Store, r: Store, q: Store, ws: seq<Write>, vs: seq<Write>)
    requires After(s, r, ws) && After(r, q, vs)
    ensures After(s, q, ws + vs)
  {
    ApplyConcat(s.disk, ws, vs);
  }

  /** The loop run to its end. */
  lemma CopyLoopAll(s: Store, to: seq<nat>, from: seq<nat>)
    requires Copyable(s, to, from)
    ensures var r := CopyLoop(s, to, from, |to|);
            After(s, r, Copies(s, to, from)) && |r.disk| == |s.disk| &&
            forall b: nat :: b < |s.disk| ==>
              if b in to then Seen(r.disk, r.cache, b) == r.disk[b]
              else Seen(r.disk, r.cache, b) == Seen(s.disk, s.cache, b) && r.disk[b] == s.disk[b]
  {
    var r := CopyLoop(s, to, from, |to|);
    CopyLoopWrites(s, to, from, |to|);
    assert Copies(s, to, from)[..|to|] == Copies(s, to, from) && to[..|to|] == to;
    forall b: nat | b < |s.disk|
      ensures if b in to then Seen(r.disk, r.cache, b) == r.disk[b]
              else Seen(r.disk, r.cache, b) == Seen(s.disk, s.cache, b) && r.disk[b] == s.disk[b]
    {
      CopyLoopSeen(s, to, from, |to|, b);
    }
  }

  lemma LogCopyable(l: Layout, s: Store, blocks: seq<nat>)
    requires CanCommit(l, s, blocks)
    ensures Copyable(s, LogArea(l, |blocks|), blocks) && Copyable(s, blocks, LogArea(l, |blocks|))
  {
    forall i | 0 <= i < |blocks| ensures blocks[i] < |s.disk| && IsHome(l, blocks[i]) {
      assert NamesHome(l, s.disk, blocks[i]);
    }
  }

  /** write_log: the log holds the transaction's data; nothing else changes. */
  lemma WriteLogResult(l: Layout, s: Store, blocks: seq<nat>)
    requires CanCommit(l, s, blocks)
    ensures var r := CopyLoop(s, LogArea(l, |blocks|), blocks, |blocks|);
            After(s, r, LogWrites(l, SeenAll(s.disk, s.cache, blocks))) && CanCommit(l, r, blocks) &&
            SameHomeSeen(l, s.disk, s.cache, r.disk, r.cache) && r.disk[l.start] == s.disk[l.start]
  {
    hide CopyLoop, Apply;
    var area := LogArea(l, |blocks|);
    LogCopyable(l, s, blocks);
    CopyLoopAll(s, area, blocks);
    var r := CopyLoop(s, area, blocks, |area|);
    assert Copies(s, area, blocks) == LogWrites(l, SeenAll(s.disk, s.cache, blocks));
    forall i | 0 <= i < |blocks| ensures NamesHome(l, r.disk, blocks[i]) {
      assert NamesHome(l, s.disk, blocks[i]);
    }
  }

  /** write_head: the header block is written, seen and clean; nothing else changes. */
  lemma WriteHeadResult(l: Layout, s: Store, blocks: seq<nat>, head: seq<nat>)
    requires CanCommit(l, s, blocks) && |head| <= LOGSIZE
    ensures var r := HeadStore(l, s, head);
            After(s, r, [Write(l.start, HeadBlock(s.disk[l.start], head))]) && CanCommit(l, r, blocks) &&
            SameHomeSeen(l, s.disk, s.cache, r.disk, r.cache) &&
            r.disk == s.disk[l.start := HeadBlock(s.disk[l.start], head)]
  {
    var r := HeadStore(l, s, head);
    forall i | 0 <= i < |blocks| ensures NamesHome(l, r.disk, blocks[i]) && blocks[i] != l.start {
      assert NamesHome(l, s.disk, blocks[i]);
    }
    var w := Write(l.start, HeadBlock(s.disk[l.start], head));
    assert [w][..0] == [];
    assert Apply(s.disk, [w]) == Put(s.disk, w);
  }

  /** write_head with nothing in the transaction: only the count in the header changes. */
  lemma ClearHeadResult(l: Layout, s: Store)
    requires CanCommit(l, s, [])
    ensures var r := HeadStore(l, s, []);
            After(s, r, [Write(l.start, s.disk[l.start][0 := 0])]) && CanCommit(l, r, []) && r.disk[l.start][0] == 0
  {
    WriteHeadResult(l, s, [], []);
    assert HeadBlock(s.disk[l.start], []) == s.disk[l.start][0 := 0];
  }

  /** install_trans: the home blocks take the logged data, and no block is dirty afterwards. */
  lemma InstallResult(l: Layout, s: Store, blocks: seq<nat>)
    requires CanCommit(l, s, blocks)
    ensures var r := CopyLoop(s, blocks, LogArea(l, |blocks|), |blocks|);
            After(s, r, HomeWrites(blocks, s.disk[l.start + 1..l.start + 1 + |blocks|])) && CanCommit(l, r, []) &&
            r.disk[l.start] == s.disk[l.start]
  {
    hide CopyLoop, Apply;
    var area := LogArea(l, |blocks|);
    LogCopyable(l, s, blocks);
    var r := CopyLoop(s, blocks, area, |blocks|);
    assert Copies(s, blocks, area) == HomeWrites(blocks, s.disk[l.start + 1..l.start + 1 + |blocks|]) by {
      forall i | 0 <= i < |blocks| ensures Seen(s.disk, s.cache, area[i]) == s.disk[area[i]] {
        assert area[i] !in blocks;
      }
    }
    CopyLoopAll(s, blocks, area);
    assert l.start !in blocks by {
      forall i | 0 <= i < |blocks| ensures blocks[i] != l.start { assert NamesHome(l, s.disk, blocks[i]); }
    }
    assert Coherent(r.disk, r.cache, []);
  }

  /** Installing a transaction puts on disk what the cache showed for its blocks. */
  lemma {:induction false} InstalledSeen(d: Disk, s: Store, blocks: seq<nat>, k: nat, b: nat)
    requires |d| == |s.disk| && b < |d| && k <= |blocks|
    ensures Apply(d, HomeWrites(blocks, SeenAll(s.disk, s.cache, blocks))[..k])[b] ==
            if b in blocks[..k] then Seen(s.disk, s.cache, b) else d[b]
  {
    var ws := HomeWrites(blocks, SeenAll(s.disk, s.cache, blocks));
    if k > 0 {
      InstalledSeen(d, s, blocks, k - 1, b);
      assert ws[..k][..k - 1] == ws[..k - 1] && blocks[..k] == blocks[..k - 1] + [blocks[k - 1]];
    }
  }

  /** The writes of commit(), in order, are CommitWrites; afterwards no block is dirty, and every home block
      holds on disk what was seen in the cache before. */
  lemma CommitResult(l: Layout, s: Store, blocks: seq<nat>)
    requires CanCommit(l, s, blocks)
    ensures var r := CommitStore(l, s, blocks);
            After(s, r, CommitWrites(l, s.disk[l.start], blocks, SeenAll(s.disk, s.cache, blocks))) &&
            CanCommit(l, r, []) && r.disk[l.start][0] == 0
  {
    var n, vals, header := |blocks|, SeenAll(s.disk, s.cache, blocks), HeadBlock(s.disk[l.start], blocks);
    var s1 := CopyLoop(s, LogArea(l, n), blocks, n);
    assert After(s, s1, LogWrites(l, vals)) && CanCommit(l, s1, blocks) && s1.disk[l.start] == s.disk[l.start] by {
      WriteLogResult(l, s, blocks);
    }
    var s2 := HeadStore(l, s1, blocks);
    assert After(s1, s2, [Write(l.start, header)]) && CanCommit(l, s2, blocks) &&
           s2.disk == s1.disk[l.start := header] by {
      WriteHeadResult(l, s1, blocks, blocks);
    }
    var s3 := CopyLoop(s2, blocks, LogArea(l, n), n);
    assert After(s2, s3, HomeWrites(blocks, vals)) && CanCommit(l, s3, []) && s3.disk[l.start] == header by {
      LoggedData(l, s, s1, s2, blocks);
      InstallResult(l, s2, blocks);
    }
    var s4 := HeadStore(l, s3, []);
    assert After(s3, s4, [Write(l.start, header[0 := 0])]) && CanCommit(l, s4, []) && s4.disk[l.start][0] == 0 by {
      ClearHeadResult(l, s3);
    }
    CommitWritesJoin(l, s, s1, s2, s3, s4, blocks, vals);
  }

  lemma LoggedData(l: Layout, s: Store, s1: Store, s2: Store, blocks: seq<nat>)
    requires Fits(l, s.disk, |blocks|) && After(s, s1, LogWrites(l, SeenAll(s.disk, s.cache, blocks)))
    requires l.start < |s2.disk| == |s1.disk| && s2.disk == s1.disk[l.start := s2.disk[l.start]]
    ensures s2.disk[l.start + 1..l.start + 1 + |blocks|] == SeenAll(s.disk, s.cache, blocks)
  {
    var n, vals := |blocks|, SeenAll(s.disk, s.cache, blocks);
    LogWritesKeepHome(l, s.disk, vals, n);
    assert LogWrites(l, vals)[..n] == LogWrites(l, vals);
    forall i | 0 <= i < n ensures s2.disk[l.start + 1..l.start + 1 + n][i] == vals[i] {
      assert s2.disk[l.start + 1 + i] == vals[i];
    }
  }

  lemma CommitWritesJoin(l: Layout, s: Store, s1: Store, s2: Store, s3: Store, s4: Store, blocks: seq<nat>,
                         vals: seq<Block>)
    requires |blocks| == |vals| <= LOGSIZE && l.start < |s.disk|
    requires After(s, s1, LogWrites(l, vals)) && After(s1, s2, [Write(l.start, HeadBlock(s.disk[l.start], blocks))])
    requires After(s2, s3, HomeWrites(blocks, vals))
    requires After(s3, s4, [Write(l.start, HeadBlock(s.disk[l.start], blocks)[0 := 0])])
    ensures After(s, s4, CommitWrites(l, s.disk[l.start], blocks, vals))
  {
    var ws := LogWrites(l, vals) + [Write(l.start, HeadBlock(s.disk[l.start], blocks))];
    AfterBoth(s, s1, s2, LogWrites(l, vals), [Write(l.start, HeadBlock(s.disk[l.start], blocks))]);
    AfterBoth(s, s2, s3, ws, HomeWrites(blocks, vals));
    AfterBoth(s, s3, s4, ws + HomeWrites(blocks, vals), [Write(l.start, HeadBlock(s.disk[l.start], blocks)[0 := 0])]);
  }

  /** recover_from_log after the header has been read: what it writes is RecoveryWrites. */
  lemma RecoverResult(l: Layout, s: Store, blocks: seq<nat>)
    requires GoodHeader(l, s.disk) && Coherent(s.disk, s.cache, []) && |blocks| == Count(l, s.disk)
    requires forall i :: 0 <= i < |blocks| ==> blocks[i] == Named(s.disk[l.start], i)
    ensures var r := HeadStore(l, CopyLoop(s, blocks, LogArea(l, |blocks|), |blocks|), []);
            After(s, r, RecoveryWrites(l, s.disk)) && CanCommit(l, r, [])
  {
    var r := CopyLoop(s, blocks, LogArea(l, |blocks|), |blocks|);
    var w := Write(l.start, s.disk[l.start][0 := 0]);
    assert After(s, r, InstallWrites(l, s.disk)) && CanCommit(l, r, []) && r.disk[l.start] == s.disk[l.start] by {
      RecoverInstalls(l, s, blocks);
    }
    assert After(r, HeadStore(l, r, []), [w]) && CanCommit(l, HeadStore(l, r, []), []) by {
      ClearHeadResult(l, r);
    }
    AfterBoth(s, r, HeadStore(l, r, []), InstallWrites(l, s.disk), [w]);
  }

  lemma RecoverInstalls(l: Layout, s: Store, blocks: seq<nat>)
    requires GoodHeader(l, s.disk) && Coherent(s.disk, s.cache, []) && |blocks| == Count(l, s.disk)
    requires forall i :: 0 <= i < |blocks| ==> blocks[i] == Named(s.disk[l.start], i)
    ensures CanCommit(l, s, blocks)
    ensures var r := CopyLoop(s, blocks, LogArea(l, |blocks|), |blocks|);
            After(s, r, InstallWrites(l, s.disk)) && CanCommit(l, r, []) && r.disk[l.start] == s.disk[l.start]
  {
    forall i | 0 <= i < |blocks| ensures NamesHome(l, s.disk, blocks[i]) {
      assert NamesHome(l, s.disk, Named(s.disk[l.start], i));
    }
    RecoveryCopies(l, s.disk, blocks);
    InstallResult(l, s, blocks);
  }

  lemma RecoveryCopies(l: Layout, d: Disk, blocks: seq<nat>)
    requires GoodHeader(l, d) && |blocks| == Count(l, d)
    requires forall i :: 0 <= i < |blocks| ==> blocks[i] == Named(d[l.start], i)
    ensures HomeWrites(blocks, d[l.start + 1..l.start + 1 + |blocks|]) == InstallWrites(l, d)
  {
    var vals := d[l.start + 1..l.start + 1 + |blocks|];
    forall i | 0 <= i < |blocks| ensures HomeWrites(blocks, vals)[i] == InstallWrites(l, d)[i] {
      assert vals[i] == d[l.start + 1 + i];
    }
  }

  /** Nobody sees a home block change while its transaction is committed. */
  lemma CommitKeepsView(l: Layout, s: Store, blocks: seq<nat>)
    requires CanCommit(l, s, blocks) && s.disk[l.start][0] == 0
    ensures var r := CommitStore(l, s, blocks); SameHomeSeen(l, s.disk, s.cache, r.disk, r.cache)
  {
    var r, vals := CommitStore(l, s, blocks), SeenAll(s.disk, s.cache, blocks);
    CommitResult(l, s, blocks);
    CommitComplete(l, s.disk, blocks, vals);
    forall b: nat | b < |s.disk| && IsHome(l, b) ensures Seen(s.disk, s.cache, b) == Seen(r.disk, r.cache, b) {
      InstalledSeen(s.disk, s, blocks, |blocks|, b);
      assert HomeWrites(blocks, vals)[..|blocks|] == HomeWrites(blocks, vals) && blocks[..|blocks|] == blocks;
    }
  }

  // ---------------------------------------------------------------- the log

  /** struct logheader, as kept in memory. */
  datatype LogHeader = LogHeader(n: nat, block: seq<nat>) {
    predicate Good() { n <= |block| == LOGSIZE }

    /** The blocks of the current transaction. */
    function Blocks(): seq<nat>
      requires Good()
    {
      block[..n]
    }
  }

  class Log {
    const l: Layout
    var disk: Disk
    var cache: Cache
    var pinned: set<nat>
    var lh: LogHeader
    var outstanding: int
    var committing: bool
    ghost var writes: seq<Write>

    ghost function State(): Store
      reads this
    {
      Store(disk, cache, writes)
    }

    method Bread(b: nat) returns (data: Block)
      requires b < |disk|
      modifies this`cache
      ensures data == Seen(disk, old(cache), b) && cache == old(cache)[b := data]
    {
      if b !in cache {
        cache := cache[b := disk[b]];
      }
      data := cache[b];
    }

    method Bwrite(b: nat, data: Block)
      requires b < |disk|
      modifies this`cache, this`disk, this`writes
      ensures disk == old(disk)[b := data] && cache == old(cache)[b := data]
      ensures writes == old(writes) + [Write(b, data)]
    {
      cache := cache[b := data];
      disk := disk[b := data];
      writes := writes + [Write(b, data)];
    }

    /** The in-memory header names home blocks, and the log has room for them. */
    ghost predicate HeaderGood()
      reads this
    {
      lh.Good() && Fits(l, disk, lh.n) && forall i :: 0 <= i < lh.n ==> NamesHome(l, disk, lh.block[i])
    }

    ghost predicate Valid()
      reads this
    {
      HeaderGood() && Coherent(disk, cache, lh.Blocks())
    }

    /** The three buffer operations of a turn of write_log or install_trans. */
    method Copy(to: nat, from: nat)
      requires to < |disk| && from < |disk|
      modifies this`cache, this`disk, this`writes
      ensures State() == CopyBlock(old(State()), to, from) && |disk| == |old(disk)|
    {
      var _ := Bread(to);
      var data := Bread(from);
      Bwrite(to, data);
      assert cache == old(cache)[from := data][to := data];
    }

    /** write_log: every block the header names, as cached, goes to its place in the log. */
    method WriteLog()
      requires HeaderGood()
      modifies this`cache, this`disk, this`writes
      ensures HeaderGood() && |disk| == |old(disk)|
      ensures State() == CopyLoop(old(State()), LogArea(l, lh.n), lh.Blocks(), lh.n)
    {
      hide CopyBlock;
      var tail := 0;
      while tail < lh.n
        invariant 0 <= tail <= lh.n && |disk| == |old(disk)|
        invariant State() == CopyLoop(old(State()), LogArea(l, lh.n), lh.Blocks(), tail)
      {
        assert NamesHome(l, disk, lh.block[tail]);
        Copy(l.start + tail + 1, lh.block[tail]);
        CopyLoopStep(old(State()), LogArea(l, lh.n), lh.Blocks(), tail);
        tail := tail + 1;
      }
    }

    /** install_trans: each home block takes what the log holds for it. */
    method InstallTrans(recovering: bool)
      requires HeaderGood()
      modifies this`cache, this`disk, this`writes, this`pinned
      ensures HeaderGood() && |disk| == |old(disk)|
      ensures State() == CopyLoop(old(State()), lh.Blocks(), LogArea(l, lh.n), lh.n)
      ensures pinned == Unpinned(old(pinned), lh.Blocks(), lh.n, recovering)
    {
      hide CopyBlock;
      var tail := 0;
      while tail < lh.n
        invariant 0 <= tail <= lh.n && |disk| == |old(disk)|
        invariant State() == CopyLoop(old(State()), lh.Blocks(), LogArea(l, lh.n), tail)
        invariant pinned == Unpinned(old(pinned), lh.Blocks(), tail, recovering)
      {
        assert NamesHome(l, disk, lh.block[tail]);
        Copy(lh.block[tail], l.start + tail + 1);
        CopyLoopStep(old(State()), lh.Blocks(), LogArea(l, lh.n), tail);
        if !recovering {
          pinned := pinned - {lh.block[tail]};
        }
        tail := tail + 1;
      }
    }

    /** Write the in-memory header to disk: the count, and that many block numbers. */
    method WriteHead()
      requires lh.Good() && l.start < |disk|
      modifies this`cache, this`disk, this`writes
      ensures State() == HeadStore(l, old(State()), lh.Blocks()) && |disk| == |old(disk)|
    {
      var hb := Bread(l.start);
      ghost var was := hb;
      hb := hb[0 := lh.n];
      var i := 0;
      while i < lh.n
        invariant 0 <= i <= lh.n
        invariant hb[0] == lh.n && forall j :: 0 <= j < i ==> hb[1 + j] == lh.block[j]
        invariant forall j :: i < j < WORDS ==> hb[j] == was[j]
      {
        hb := hb[1 + i := lh.block[i]];
        i := i + 1;
      }
      assert hb == HeadBlock(was, lh.Blocks());
      Bwrite(l.start, hb);
      assert cache == old(cache)[l.start := hb];
    }

    /** Commit the current transaction, if there is anything in it. */
    method Commit()
      requires Valid()
      modifies this`cache, this`disk, this`writes, this`pinned, this`lh
      ensures State() == if old(lh.n) > 0 then CommitStore(l, old(State()), old(lh.Blocks())) else old(State())
      ensures Valid() && lh == old(lh).(n := 0)
      ensures pinned == old(pinned) - set b | b in old(lh.Blocks())
    {
      if lh.n > 0 {
        ghost var s, blocks := State(), lh.Blocks();
        WriteLog();
        WriteHead();
        UnpinnedCount(pinned, blocks, lh.n);
        assert blocks[..lh.n] == blocks;
        InstallTrans(false);
        lh := lh.(n := 0);
        assert lh.Blocks() == [];
        WriteHead();
        assert State() == CommitStore(l, s, blocks);
        CommitResult(l, s, blocks);
      }
    }

    /** read_head: the names in the header block become the in-memory header. */
    method ReadHead()
      requires GoodHeader(l, disk) && Coherent(disk, cache, []) && |lh.block| == LOGSIZE
      modifies this`cache, this`lh
      ensures lh.Good() && lh.n == Count(l, disk) && Coherent(disk, cache, [])
      ensures forall i :: 0 <= i < lh.n ==> lh.block[i] == Named(disk[l.start], i)
    {
      var hb := Bread(l.start);
      assert Coherent(disk, cache, []);
      var n: nat := hb[0];
      lh := lh.(n := n);
      var i := 0;
      while i < lh.n
        invariant 0 <= i <= lh.n == n && |lh.block| == LOGSIZE
        invariant Coherent(disk, cache, [])
        invariant forall j :: 0 <= j < i ==> lh.block[j] == Named(disk[l.start], j)
      {
        assert NamesHome(l, disk, Named(disk[l.start], i));
        lh := lh.(block := lh.block[i := hb[1 + i]]);
        i := i + 1;
      }
    }

    /** At boot, with an empty cache: install whatever transaction the disk holds, and clear the log. */
    method RecoverFromLog()
      requires GoodHeader(l, disk) && cache == map[] && |lh.block| == LOGSIZE
      modifies this`cache, this`disk, this`writes, this`pinned, this`lh
      ensures disk == Recovered(l, old(disk)) && writes == old(writes) + RecoveryWrites(l, old(disk))
      ensures Valid() && lh.n == 0 && pinned == old(pinned)
    {
      hide CopyLoop, Apply, HomeWrites, LogWrites, HeadBlock;
      ReadHead();
      ghost var s, blocks := State(), lh.Blocks();
      assert CanCommit(l, s, blocks) by { RecoverInstalls(l, s, blocks); }
      InstallTrans(true);
      lh := lh.(n := 0);
      assert lh.Blocks() == [];
      WriteHead();
      assert State() == HeadStore(l, CopyLoop(s, blocks, LogArea(l, |blocks|), |blocks|), []);
      RecoverResult(l, s, blocks);
    }

    /** Record a modified block in the transaction and pin it; too big a transaction is a panic. */
    method LogWrite(b: nat) returns (panic: bool)
      requires lh.Good()
      modifies this`lh, this`pinned
      ensures panic <==> old(lh.n) >= LOGSIZE || old(lh.n) >= l.size - 1 || outstanding < 1
      ensures panic ==> lh == old(lh) && pinned == old(pinned)
      ensures !panic ==> lh.Good() && lh.Blocks() == Absorb(old(lh.Blocks()), b)
      ensures !panic ==> pinned == if b in old(lh.Blocks()) then old(pinned) else old(pinned) + {b}
    {
      if lh.n >= LOGSIZE || lh.n >= l.size - 1 {
        return true;
      }
      if outstanding < 1 {
        return true;
      }
      var i := 0;
      while i < lh.n && lh.block[i] != b
        invariant 0 <= i <= lh.n
        invariant b !in lh.block[..i]
      {
        i := i + 1;
      }
      assert i < lh.n ==> b in lh.block[..lh.n];
      lh := lh.(block := lh.block[i := b]);
      if i == lh.n {
        pinned := pinned + {b};
        lh := lh.(n := lh.n + 1);
        assert lh.Blocks() == old(lh.Blocks()) + [b];
      } else {
        assert lh.Blocks() == old(lh.Blocks());
      }
      return false;
    }

    /** One pass of the loop in begin_op: join the transaction, or be told to sleep. */
    method BeginOp() returns (joined: bool)
      modifies this`outstanding
      ensures joined <==> !committing && lh.n + (old(outstanding) + 1) * MAXOPBLOCKS <= LOGSIZE
      ensures outstanding == old(outstanding) + if joined then 1 else 0
    {
      if committing {
        joined := false;
      } else if lh.n + (outstanding + 1) * MAXOPBLOCKS > LOGSIZE {
        joined := false;
      } else {
        outstanding := outstanding + 1;
        joined := true;
      }
    }

    /** Leave the transaction; the last one out commits it. */
    method EndOp() returns (panic: bool)
      requires Valid()
      modifies this
      ensures panic <==> old(committing)
      ensures outstanding == old(outstanding) - 1 && Valid()
      ensures !panic && old(outstanding) == 1 ==>
                lh.n == 0 && !committing && pinned == old(pinned) - (set b | b in old(lh.Blocks())) &&
                State() == if old(lh.n) > 0 then CommitStore(l, old(State()), old(lh.Blocks())) else old(State())
      ensures panic || old(outstanding) != 1 ==>
                lh == old(lh) && State() == old(State()) && pinned == old(pinned) && committing == old(committing)
    {
      outstanding := outstanding - 1;
      if committing {
        return true;
      }
      if outstanding == 0 {
        committing := true;
        Commit();
        committing := false;
      }
      return false;
    }
  }
}
