/**
 What filewrite (kernel/file.c) and commit (kernel/log.c) need of the log that mkfs (mkfs/mkfs.c) makes and of the
 buffers that kernel/param.h provides.
 */
module LogUse {
  import opened LogDisk
  import opened LogProtocol
  import opened LogSpace
  import opened Params
  import BlockMaps
  import FileWrites
  import LogBuffers
  import Mkfs
  import Truncation

  /** The image of mkfs: boot block, super block, log, inodes at 64 bytes each, bitmap, and data up to FSSIZE. */
  lemma ImageLayout()
    ensures var image := Mkfs.LAYOUT;
            image.size == 2000 && image.inodestart == 2 + LOGSIZE &&
            image.bmapstart == image.inodestart + 200 / (1024 / 64) + 1 &&
            image.nmeta == image.bmapstart + image.size / (8 * 1024) + 1 == image.bmapstart + FileWrites.NBitmap(image)
  {
  }

  /** On an image of mkfs, which has one bitmap block, a chunk of filewrite logs at most seven blocks. */
  lemma ChunkOnImage()
    ensures FileWrites.ChunkBudget(Mkfs.LAYOUT) == 7
  {
  }

  /** With operations that log no more than a chunk of filewrite does, log_write never panics on an image of mkfs,
      although its log is a block short of what begin_op reserves. */
  lemma FilewritesFit(l: Layout, s: State, run: seq<Action>, s': State, op: Op, b: nat)
    requires Init(l, s) && l.size == LOGSIZE
    requires BudgetedRun(l, s, run, s', FileWrites.ChunkBudget(Mkfs.LAYOUT))
    requires op in s'.active && b in s'.held && s'.held[b] == op
    requires |s'.active[op] + {b}| <= FileWrites.ChunkBudget(Mkfs.LAYOUT)
    ensures Enabled(l, s', LogWrite(op, b))
  {
    ChunkOnImage();
    NeverFull(l, s, run, s', op, b, FileWrites.ChunkBudget(Mkfs.LAYOUT));
  }

  /** itrunc logs the inode and a bitmap block for the blocks it frees there, so no more blocks than the bitmap has, and
      the inode. */
  lemma TruncationFits(sb: BlockMaps.Super, use: seq<BlockMaps.Use>, use': seq<BlockMaps.Use>, i: nat)
    requires |use| == sb.size
    ensures |BlockMaps.MapsOf(sb,
                              Truncation.Released(use, use')) + {BlockMaps.IBlock(sb, i)}| <= FileWrites.NBitmap(sb) + 1
  {
    FileWrites.MapsInBitmap(sb, Truncation.Released(use, use'));
  }

  /** So it fits a transaction on an image of mkfs. */
  lemma TruncationOnImage()
    ensures FileWrites.NBitmap(Mkfs.LAYOUT) + 1 == 2 <= MAXOPBLOCKS
  {
  }

  // ---------------------------------------------------------------- buffers for commit

  /** With a log of no more blocks than there are buffers, commit has a buffer to copy with unless somebody holds one
      outside the transaction. */
  lemma CommitHasBuffer(l: Layout, s: State)
    requires Inv(l, s) && s.phase.Logging? && s.phase.k < |s.blocks| && l.size <= LogBuffers.BC.NBUF
    requires s.held.Keys <= s.pinned
    ensures LogBuffers.CommitRoom(l, s)
  {
    LogBuffers.CommitRoomIff(l, s);
    assert s.held.Keys - s.pinned == {};
  }

  /** Three operations have logged LOGSIZE blocks and are done; commit is about to begin. */
  function Full(l: Layout, d: Disk): State
    requires Base(l) + LOGSIZE <= |d|
  {
    Filled(l, d, LOGSIZE).(active := map[], phase := Logging(0))
  }

  lemma EndStep(l: Layout, s: State, op: Op, t: State)
    requires |s.blocks| <= LOGSIZE && GoodHeader(l, s.disk) && Enabled(l, s, End(op)) && Next(l, s, End(op)) == t
    ensures Steps(l, s, [End(op)], t)
  {
    RunOne(l, s, End(op), t);
  }

  lemma EndThree(l: Layout, d: Disk)
    requires GoodHeader(l, d) && Base(l) + LOGSIZE <= |d|
    ensures Steps(l, Filled(l, d, LOGSIZE), [End(0), End(1), End(2)], Full(l, d))
  {
    var s := Filled(l, d, LOGSIZE);
    var two := s.(active := s.active - {0});
    var one := s.(active := two.active - {1});
    assert 2 in one.active && one.active != map[];
    assert 2 in two.active && two.active != map[];
    assert one.active - {2} == map[];
    EndStep(l, s, 0, two);
    EndStep(l, two, 1, one);
    EndStep(l, one, 2, Full(l, d));
    hide Steps, Filled;
    RunThree(l, s, End(0), two, End(1), one, End(2), Full(l, d));
  }

  lemma FillAndEnd(l: Layout, s: State)
    requires Init(l, s) && l.size > LOGSIZE && Base(l) + LOGSIZE <= |s.disk|
    ensures BudgetedRun(l, s, FillRun(l, LOGSIZE) + [End(0), End(1), End(2)], Full(l, s.disk), MAXOPBLOCKS)
  {
    hide BudgetedRun, FillRun, Full, Filled;
    FillReaches(l, s, LOGSIZE);
    EndThree(l, s.disk);
    RunConcat(l, s, FillRun(l, LOGSIZE), Filled(l, s.disk, LOGSIZE), [End(0), End(1), End(2)], Full(l, s.disk));
  }

  /** With a larger log, three operations within their budgets fill it with as many blocks as there are buffers, and
      commit finds none to copy with. */
  lemma CommitLacksBuffer(l: Layout, s: State)
    requires Init(l, s) && l.size > LOGSIZE && Base(l) + LOGSIZE <= |s.disk|
    ensures var t := Full(l, s.disk);
            BudgetedRun(l, s, FillRun(l, LOGSIZE) + [End(0), End(1), End(2)], t, MAXOPBLOCKS) && Inv(l, t) &&
            Enabled(l, t, CommitStep) && !LogBuffers.CommitRoom(l, t)
  {
    var t := Full(l, s.disk);
    var run := FillRun(l, LOGSIZE) + [End(0), End(1), End(2)];
    FillAndEnd(l, s);
    SpaceAtBoot(l, s, MAXOPBLOCKS);
    hide BudgetedRun, FillRun, Inv, Space, Init, LogBuffers.CommitRoom;
    SpaceAlways(l, s, run, t, MAXOPBLOCKS);
    assert Enabled(l, t, CommitStep) && t.phase == Logging(0) && |t.blocks| == LOGSIZE;
    hide Full, Enabled;
    LogBuffers.CommitRoomIff(l, t);
  }
}
