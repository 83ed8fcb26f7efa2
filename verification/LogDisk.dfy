/**
 What the redo log of kernel/log.c writes to disk, and what a disk means after a crash.

 A block is its 256 words; the disk is written one block at a time, and a crash may fall
 between any two block writes.
 */
module LogDisk {

  const LOGSIZE: nat := 30
  const WORDS: nat := 256

  type Block = b: seq<int> | |b| == WORDS witness seq(WORDS, _ => 0)
  type Disk = seq<Block>

  /** log.start and log.size: the header block, then the logged blocks. */
  datatype Layout = Layout(start: nat, size: nat)

  datatype Write = Write(at: nat, data: Block)

  function Put(d: Disk, w: Write): Disk {
    if w.at < |d| then d[w.at := w.data] else d
  }

  function Apply(d: Disk, ws: seq<Write>): (d': Disk)
    ensures |d'| == |d|
  {
    if ws == [] then d else Put(Apply(d, ws[..|ws| - 1]), ws[|ws| - 1])
  }

  /** The data last written to block `b`, or `was` if there is no such write. */
  function Last(ws: seq<Write>, b: nat, was: Block): Block {
    if ws == [] then was
    else if ws[|ws| - 1].at == b then ws[|ws| - 1].data
    else Last(ws[..|ws| - 1], b, was)
  }

  lemma {:induction false} ApplyLast(d: Disk, ws: seq<Write>, b: nat)
    requires b < |d|
    ensures Apply(d, ws)[b] == Last(ws, b, d[b])
  {
    if ws != [] { ApplyLast(d, ws[..|ws| - 1], b); }
  }

  lemma {:induction false} LastConcat(ws: seq<Write>, vs: seq<Write>, b: nat, was: Block)
    ensures Last(ws + vs, b, was) == Last(vs, b, Last(ws, b, was))
  {
    if vs == [] {
      assert ws + vs == ws;
    } else {
      assert (ws + vs)[..|ws + vs| - 1] == ws + vs[..|vs| - 1];
      LastConcat(ws, vs[..|vs| - 1], b, was);
    }
  }

  lemma {:induction false} ApplyConcat(d: Disk, ws: seq<Write>, vs: seq<Write>)
    ensures Apply(d, ws + vs) == Apply(Apply(d, ws), vs)
  {
    if vs == [] {
      assert ws + vs == ws;
    } else {
      assert (ws + vs)[..|ws + vs| - 1] == ws + vs[..|vs| - 1];
      ApplyConcat(d, ws, vs[..|vs| - 1]);
    }
  }

  predicate Touches(ws: seq<Write>, b: nat) {
    exists i :: 0 <= i < |ws| && ws[i].at == b
  }

  /** A block that is written has its last data whatever it held before; one that is not keeps what it held. */
  lemma {:induction false} LastTouched(ws: seq<Write>, b: nat, x: Block, y: Block)
    ensures Touches(ws, b) ==> Last(ws, b, x) == Last(ws, b, y)
    ensures !Touches(ws, b) ==> Last(ws, b, x) == x
  {
    if ws != [] {
      var vs := ws[..|ws| - 1];
      LastTouched(vs, b, x, y);
      assert Touches(ws, b) ==> ws[|ws| - 1].at == b || Touches(vs, b);
      if !Touches(ws, b) {
        assert forall i :: 0 <= i < |vs| ==> vs[i] == ws[i];
      }
    }
  }

  /** Replaying all of `ws` after any prefix of it, or after nothing, comes to the same. */
  lemma ReplayPrefix(d: Disk, ws: seq<Write>, k: nat)
    requires k <= |ws|
    ensures Apply(Apply(d, ws[..k]), ws) == Apply(d, ws)
  {
    forall b | 0 <= b < |d|
      ensures Apply(Apply(d, ws[..k]), ws)[b] == Apply(d, ws)[b]
    {
      var x := Last(ws[..k], b, d[b]);
      ApplyLast(d, ws[..k], b);
      ApplyLast(Apply(d, ws[..k]), ws, b);
      ApplyLast(d, ws, b);
      LastTouched(ws, b, x, d[b]);
      LastTouched(ws[..k], b, d[b], d[b]);
      if Touches(ws[..k], b) {
        var i :| 0 <= i < k && ws[..k][i].at == b;
        assert ws[i].at == b;
      }
    }
  }

  // ---------------------------------------------------------------- the log on disk

  predicate IsHome(l: Layout, b: nat) { b < l.start || l.start + l.size <= b }

  predicate SameHome(l: Layout, d: Disk, d': Disk) {
    |d| == |d'| && forall b :: 0 <= b < |d| && IsHome(l, b) ==> d[b] == d'[b]
  }

  /** The header block and room for n logged blocks lie on the disk. */
  predicate Fits(l: Layout, d: Disk, n: int) {
    0 <= n <= LOGSIZE && n < l.size && l.start + l.size <= |d|
  }

  /** The i-th block number in a header block. */
  function Named(header: Block, i: nat): int {
    if 1 + i < WORDS then header[1 + i] else 0
  }

  predicate NamesHome(l: Layout, d: Disk, b: int) { 0 <= b < |d| && IsHome(l, b) }

  /** The header on disk names blocks outside the log. */
  predicate GoodHeader(l: Layout, d: Disk) {
    l.start < |d| && Fits(l, d, d[l.start][0]) &&
    forall i :: 0 <= i < d[l.start][0] ==> NamesHome(l, d, Named(d[l.start], i))
  }

  function Count(l: Layout, d: Disk): nat
    requires GoodHeader(l, d)
  {
    d[l.start][0]
  }

  /** Copying the logged blocks of `d` to the places its header names. */
  function InstallWrites(l: Layout, d: Disk): (ws: seq<Write>)
    requires GoodHeader(l, d)
    ensures |ws| == Count(l, d)
    ensures forall i :: 0 <= i < |ws| ==> ws[i] == Write(Named(d[l.start], i), d[l.start + 1 + i])
  {
    seq(Count(l, d), i requires 0 <= i < Count(l, d) => Write(Named(d[l.start], i), d[l.start + 1 + i]))
  }

  /** Everything recover_from_log writes when it finds `d`. */
  function RecoveryWrites(l: Layout, d: Disk): seq<Write>
    requires GoodHeader(l, d)
  {
    InstallWrites(l, d) + [Write(l.start, d[l.start][0 := 0])]
  }

  /** The disk after an uninterrupted recovery. */
  function Recovered(l: Layout, d: Disk): Disk
    requires GoodHeader(l, d)
  {
    Apply(d, RecoveryWrites(l, d))
  }

  /** Writes outside the log leave the log alone. */
  lemma {:induction false} HomeWritesKeepLog(l: Layout, d: Disk, ws: seq<Write>, b: nat)
    requires b < |d| && !IsHome(l, b) && forall i :: 0 <= i < |ws| ==> IsHome(l, ws[i].at)
    ensures Apply(d, ws)[b] == d[b]
  {
    if ws != [] { HomeWritesKeepLog(l, d, ws[..|ws| - 1], b); }
  }

  /** Recovery installs, then clears the count in the header. */
  lemma RecoveredShape(l: Layout, d: Disk)
    requires GoodHeader(l, d)
    ensures Recovered(l, d) == Apply(d, InstallWrites(l, d))[l.start := d[l.start][0 := 0]]
  {
    var ws := RecoveryWrites(l, d);
    assert ws[..|ws| - 1] == InstallWrites(l, d);
  }

  /** Part of an installation leaves header and log as they are, and can be done over. */
  lemma PartlyInstalled(l: Layout, d: Disk, k: nat)
    requires GoodHeader(l, d) && k <= Count(l, d)
    ensures var d' := Apply(d, InstallWrites(l, d)[..k]);
            GoodHeader(l, d') && InstallWrites(l, d') == InstallWrites(l, d) &&
            d'[l.start] == d[l.start] && Recovered(l, d') == Recovered(l, d)
  {
    var install := InstallWrites(l, d);
    var d' := Apply(d, install[..k]);
    forall b | 0 <= b < |d| && !IsHome(l, b) ensures d'[b] == d[b] {
      HomeWritesKeepLog(l, d, install[..k], b);
    }
    assert d'[l.start] == d[l.start];
    assert InstallWrites(l, d') == install;
    ReplayPrefix(d, install, k);
    RecoveredShape(l, d);
    RecoveredShape(l, d');
  }

  /** A recovery cut off anywhere leaves a disk from which recovery comes to the same home blocks. */
  lemma RecoveryIdempotent(l: Layout, d: Disk, k: nat)
    requires GoodHeader(l, d) && k <= |RecoveryWrites(l, d)|
    ensures var d' := Apply(d, RecoveryWrites(l, d)[..k]);
            GoodHeader(l, d') && SameHome(l, Recovered(l, d'), Recovered(l, d))
    ensures Recovered(l, d)[l.start][0] == 0
  {
    var ws := RecoveryWrites(l, d);
    RecoveredShape(l, d);
    if k < |ws| {
      assert ws[..k] == InstallWrites(l, d)[..k];
      PartlyInstalled(l, d, k);
    } else {
      assert ws[..k] == ws;
      ClearedRecovers(l, Recovered(l, d));
    }
  }

  /** Nothing is installed from a cleared header. */
  lemma ClearedRecovers(l: Layout, d: Disk)
    requires l.start < |d| && Fits(l, d, 0) && d[l.start][0] == 0
    ensures GoodHeader(l, d) && SameHome(l, Recovered(l, d), d)
  {
    assert InstallWrites(l, d) == [];
    var w := Write(l.start, d[l.start][0 := 0]);
    assert RecoveryWrites(l, d) == [w];
    assert Apply(d, [w][..0]) == d;
    assert Apply(d, [w]) == Put(d, w);
  }

  /** Recoveries that are each cut off by another crash: the i-th one gets `cuts[i]` writes to disk. */
  function Interrupted(l: Layout, d: Disk, cuts: seq<nat>): Disk
    requires GoodHeader(l, d)
    decreases |cuts|
  {
    if cuts == [] then d
    else
      var ws := RecoveryWrites(l, d);
      var k := if cuts[0] <= |ws| then cuts[0] else |ws|;
      RecoveryIdempotent(l, d, k);
      Interrupted(l, Apply(d, ws[..k]), cuts[1..])
  }

  lemma {:induction false} InterruptedRecovers(l: Layout, d: Disk, cuts: seq<nat>)
    requires GoodHeader(l, d)
    ensures var d' := Interrupted(l, d, cuts);
            GoodHeader(l, d') && SameHome(l, Recovered(l, d'), Recovered(l, d))
    decreases |cuts|
  {
    if cuts != [] {
      var ws := RecoveryWrites(l, d);
      var k := if cuts[0] <= |ws| then cuts[0] else |ws|;
      RecoveryIdempotent(l, d, k);
      InterruptedRecovers(l, Apply(d, ws[..k]), cuts[1..]);
    }
  }

  // ---------------------------------------------------------------- a commit

  /** write_head: the count and the block numbers over whatever the header block held. */
  function HeadBlock(header: Block, blocks: seq<nat>): (h: Block)
    requires |blocks| <= LOGSIZE
    ensures h[0] == |blocks|
    ensures forall i :: 0 <= i < |blocks| ==> Named(h, i) == blocks[i] == h[1 + i]
    ensures forall i :: |blocks| < i < WORDS ==> h[i] == header[i]
  {
    seq(WORDS, i requires 0 <= i < WORDS =>
      if i == 0 then |blocks| else if i <= |blocks| then blocks[i - 1] else header[i])
  }

  /** A transaction: the block numbers in the in-memory header and the data the cache holds for them. */
  predicate Loggable(l: Layout, d: Disk, blocks: seq<nat>, vals: seq<Block>) {
    |vals| == |blocks| && Fits(l, d, |blocks|) && d[l.start][0] == 0 &&
    forall i :: 0 <= i < |blocks| ==> NamesHome(l, d, blocks[i])
  }

  function LogWrites(l: Layout, vals: seq<Block>): seq<Write> {
    seq(|vals|, i requires 0 <= i < |vals| => Write(l.start + 1 + i, vals[i]))
  }

  function HomeWrites(blocks: seq<nat>, vals: seq<Block>): seq<Write>
    requires |blocks| == |vals|
  {
    seq(|vals|, i requires 0 <= i < |vals| => Write(blocks[i], vals[i]))
  }

  /** Everything commit() writes, in order. */
  function CommitWrites(l: Layout, header: Block, blocks: seq<nat>, vals: seq<Block>): seq<Write>
    requires |blocks| == |vals| <= LOGSIZE
  {
    LogWrites(l, vals) + [Write(l.start, HeadBlock(header, blocks))] +
    HomeWrites(blocks, vals) + [Write(l.start, HeadBlock(header, blocks)[0 := 0])]
  }

  /** The home blocks once the transaction is installed. */
  function Installed(d: Disk, blocks: seq<nat>, vals: seq<Block>): Disk
    requires |blocks| == |vals|
  {
    Apply(d, HomeWrites(blocks, vals))
  }

  lemma {:induction false} LogWritesKeepHome(l: Layout, d: Disk, vals: seq<Block>, k: nat)
    requires k <= |vals| < l.size && l.start + l.size <= |d|
    ensures var d' := Apply(d, LogWrites(l, vals)[..k]);
            SameHome(l, d', d) && d'[l.start] == d[l.start] &&
            forall i :: 0 <= i < k ==> d'[l.start + 1 + i] == vals[i]
  {
    var ws := LogWrites(l, vals);
    if k > 0 {
      LogWritesKeepHome(l, d, vals, k - 1);
      assert ws[..k][..k - 1] == ws[..k - 1];
    }
  }

  /** Before the header is written, recovery finds nothing to do. */
  lemma CrashBeforeHead(l: Layout, d: Disk, blocks: seq<nat>, vals: seq<Block>, k: nat)
    requires Loggable(l, d, blocks, vals) && k <= |blocks|
    ensures var d' := Apply(d, LogWrites(l, vals)[..k]);
            GoodHeader(l, d') && SameHome(l, Recovered(l, d'), d)
  {
    LogWritesKeepHome(l, d, vals, k);
    ClearedRecovers(l, Apply(d, LogWrites(l, vals)[..k]));
  }

  /** Writing the header is the commit point: recovery then installs the whole transaction. */
  lemma CrashAtHead(l: Layout, d: Disk, blocks: seq<nat>, vals: seq<Block>)
    requires Loggable(l, d, blocks, vals)
    ensures var d' := Apply(d, LogWrites(l, vals))[l.start := HeadBlock(d[l.start], blocks)];
            GoodHeader(l, d') && Count(l, d') == |blocks| && InstallWrites(l, d') == HomeWrites(blocks, vals) &&
            SameHome(l, Recovered(l, d'), Installed(d, blocks, vals))
  {
    var d' := Apply(d, LogWrites(l, vals))[l.start := HeadBlock(d[l.start], blocks)];
    LoggedAtHead(l, d, blocks, vals);
    RecoveredShape(l, d');
    SameHomeApplies(l, d', d, HomeWrites(blocks, vals));
  }

  /** The header on disk now names the transaction's blocks, and the log holds their data. */
  lemma LoggedAtHead(l: Layout, d: Disk, blocks: seq<nat>, vals: seq<Block>)
    requires Loggable(l, d, blocks, vals)
    ensures var d' := Apply(d, LogWrites(l, vals))[l.start := HeadBlock(d[l.start], blocks)];
            SameHome(l, d', d) && GoodHeader(l, d') && Count(l, d') == |blocks| &&
            InstallWrites(l, d') == HomeWrites(blocks, vals)
  {
    var h := HeadBlock(d[l.start], blocks);
    var d1 := Apply(d, LogWrites(l, vals));
    var d' := d1[l.start := h];
    assert SameHome(l, d1, d) && forall i :: 0 <= i < |vals| ==> d1[l.start + 1 + i] == vals[i] by {
      LogWritesKeepHome(l, d, vals, |vals|);
      assert LogWrites(l, vals)[..|vals|] == LogWrites(l, vals);
    }
    HeadGood(l, d1, d[l.start], blocks);
    forall i | 0 <= i < |blocks| ensures InstallWrites(l, d')[i] == HomeWrites(blocks, vals)[i] {
      assert d'[l.start + 1 + i] == vals[i] && Named(h, i) == blocks[i];
    }
  }

  lemma HeadGood(l: Layout, d: Disk, header: Block, blocks: seq<nat>)
    requires Fits(l, d, |blocks|) && forall i :: 0 <= i < |blocks| ==> NamesHome(l, d, blocks[i])
    ensures var d' := d[l.start := HeadBlock(header, blocks)]; GoodHeader(l, d') && Count(l, d') == |blocks|
  {
    var h := HeadBlock(header, blocks);
    forall i | 0 <= i < |blocks| ensures NamesHome(l, d[l.start := h], Named(h, i)) {
      assert NamesHome(l, d, blocks[i]);
    }
  }

  lemma SameHomeApplies(l: Layout, d: Disk, d': Disk, ws: seq<Write>)
    requires SameHome(l, d, d')
    ensures SameHome(l, Apply(d, ws), Apply(d', ws))
  {
    forall b | 0 <= b < |d| && IsHome(l, b) ensures Apply(d, ws)[b] == Apply(d', ws)[b] {
      ApplyLast(d, ws, b);
      ApplyLast(d', ws, b);
    }
  }

  /** A crash after any number `k` of the writes of a commit: recovery leaves the home blocks as they were
      before the transaction if the header had not been written, and as the transaction has them if it had. */
  lemma CommitAtomic(l: Layout, d: Disk, blocks: seq<nat>, vals: seq<Block>, k: nat)
    requires Loggable(l, d, blocks, vals) && k <= |CommitWrites(l, d[l.start], blocks, vals)|
    ensures var d' := Apply(d, CommitWrites(l, d[l.start], blocks, vals)[..k]);
            GoodHeader(l, d') &&
            SameHome(l, Recovered(l, d'), if k <= |blocks| then d else Installed(d, blocks, vals))
  {
    var n, ws := |blocks|, CommitWrites(l, d[l.start], blocks, vals);
    if k <= n {
      assert ws[..k] == LogWrites(l, vals)[..k];
      CrashBeforeHead(l, d, blocks, vals, k);
    } else if k <= 2 * n + 1 {
      CrashWhileInstalling(l, d, blocks, vals, k);
    } else {
      CommitComplete(l, d, blocks, vals);
      assert ws[..k] == ws;
      ClearedRecovers(l, Apply(d, ws));
    }
  }

  lemma CrashWhileInstalling(l: Layout, d: Disk, blocks: seq<nat>, vals: seq<Block>, k: nat)
    requires Loggable(l, d, blocks, vals) && |blocks| < k <= 2 * |blocks| + 1
    ensures var d' := Apply(d, CommitWrites(l, d[l.start], blocks, vals)[..k]);
            GoodHeader(l, d') && SameHome(l, Recovered(l, d'), Installed(d, blocks, vals))
  {
    var d2 := Apply(d, LogWrites(l, vals))[l.start := HeadBlock(d[l.start], blocks)];
    var us := LogWrites(l, vals) + [Write(l.start, HeadBlock(d[l.start], blocks))];
    var vs := HomeWrites(blocks, vals)[..k - |blocks| - 1];
    CommitPrefix(l, d[l.start], blocks, vals, k);
    ApplyConcat(d, us, vs);
    assert Apply(d, us) == d2 by { assert us[..|us| - 1] == LogWrites(l, vals); }
    CrashAtHead(l, d, blocks, vals);
    PartlyInstalled(l, d2, k - |blocks| - 1);
  }

  lemma CommitPrefix(l: Layout, header: Block, blocks: seq<nat>, vals: seq<Block>, k: nat)
    requires |blocks| == |vals| <= LOGSIZE && |blocks| < k <= 2 * |blocks| + 1
    ensures CommitWrites(l, header, blocks, vals)[..k] ==
            LogWrites(l, vals) + [Write(l.start, HeadBlock(header, blocks))] + HomeWrites(blocks,
                                                                                          vals)[..k - |blocks| - 1]
  {
  }

  /** A commit that is not interrupted installs the transaction and leaves the header cleared. */
  lemma CommitComplete(l: Layout, d: Disk, blocks: seq<nat>, vals: seq<Block>)
    requires Loggable(l, d, blocks, vals)
    ensures var d' := Apply(d, CommitWrites(l, d[l.start], blocks, vals));
            SameHome(l, d', Installed(d, blocks, vals)) && d'[l.start][0] == 0
  {
    var header := HeadBlock(d[l.start], blocks);
    CrashAtHead(l, d, blocks, vals);
    var d2 := Apply(d, LogWrites(l, vals))[l.start := header];
    RecoveredShape(l, d2);
    HomeWritesKeepLog(l, d2, HomeWrites(blocks, vals), l.start);
    var ws := CommitWrites(l, d[l.start], blocks, vals);
    var vs := LogWrites(l, vals) + [Write(l.start, header)];
    assert vs[..|vs| - 1] == LogWrites(l, vals);
    assert Apply(d, vs) == d2;
    ApplyConcat(d, vs, HomeWrites(blocks, vals));
    assert ws[..|ws| - 1] == vs + HomeWrites(blocks, vals);
  }

  /** The same, with any number of further crashes cutting off one recovery after another. */
  lemma CommitAtomicUnderCrashes(l: Layout, d: Disk, blocks: seq<nat>, vals: seq<Block>, k: nat, cuts: seq<nat>)
    requires Loggable(l, d, blocks, vals) && k <= |CommitWrites(l, d[l.start], blocks, vals)|
    ensures var d' := Apply(d, CommitWrites(l, d[l.start], blocks, vals)[..k]);
            GoodHeader(l, d') && GoodHeader(l, Interrupted(l, d', cuts)) &&
            SameHome(l, Recovered(l, Interrupted(l, d', cuts)), if k <= |blocks| then d else Installed(d, blocks, vals))
  {
    CommitAtomic(l, d, blocks, vals, k);
    InterruptedRecovers(l, Apply(d, CommitWrites(l, d[l.start], blocks, vals)[..k]), cuts);
  }
}
