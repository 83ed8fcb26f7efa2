/**
 Every interleaving of file-system operations, readers, buffer recycling, commit, crash and
 recovery over the redo log of kernel/log.c and the buffer cache of kernel/bio.c.

 A step is what one process does between two points at which another may run: a region under
 log.lock or bcache.lock, or one block write.  The result is a refinement: whatever happens,
 the disk is worth the contents at the last commit, a commit takes over everything all
 operations have written so far, and it falls between operations, never inside one.
 */
module LogProtocol {
  import opened LogDisk
  import opened Params
  import opened RedoLog

  type Op = nat

  datatype Phase =
    | Running
    | Logging(k: nat)     // commit(): k blocks copied to the log
    | Installing(k: nat)  // commit(): header written, k blocks copied home
    | Booting             // after a crash, before read_head
    | Recovering(k: nat)  // recover_from_log(): k blocks copied home

  datatype State = State(
    disk: Disk,
    cache: Cache,
    held: map<nat, Op>,          // buffers locked by a process
    unlogged: set<nat>,          // held buffers that were modified and not yet given to log_write
    pinned: set<nat>,            // buffers pinned by the log
    blocks: seq<nat>,            // log.lh.block[..n]
    active: map<Op, set<nat>>,   // operations between begin_op and end_op, with the blocks they logged
    phase: Phase)

  datatype Action =
    | Begin(op: Op)
    | Acquire(op: Op, b: nat)
    | Modify(op: Op, b: nat, data: Block)
    | LogWrite(op: Op, b: nat)
    | Release(op: Op, b: nat)
    | Evict(b: nat)
    | End(op: Op)
    | CommitStep
    | Crash
    | RecoverStep

  // ---------------------------------------------------------------- what the steps do

  /** bread of one block, bwrite of its data to another. */
  function Copied(s: State, to: nat, from: nat): State {
    var r := CopyBlock(Store(s.disk, s.cache, []), to, from);
    s.(disk := r.disk, cache := r.cache)
  }

  function Headed(l: Layout, s: State, blocks: seq<nat>): State
    requires |blocks| <= LOGSIZE
  {
    var r := HeadStore(l, Store(s.disk, s.cache, []), blocks);
    s.(disk := r.disk, cache := r.cache)
  }

  /** Block numbers in the header on disk. */
  function HeaderNames(l: Layout, d: Disk): (r: seq<nat>)
    requires GoodHeader(l, d)
    ensures |r| == Count(l, d) && forall i :: 0 <= i < |r| ==> r[i] == Named(d[l.start], i)
  {
    seq(Count(l, d),
        i requires 0 <= i < Count(l, d) => assert NamesHome(l, d, Named(d[l.start], i)); Named(d[l.start], i))
  }

  // write_log, one turn of the loop
  function LogBlock(l: Layout, s: State): State
    requires s.phase.Logging? && s.phase.k < |s.blocks|
  {
    Copied(s, l.start + 1 + s.phase.k, s.blocks[s.phase.k]).(phase := Logging(s.phase.k + 1))
  }

  // write_head
  function CommitPoint(l: Layout, s: State): State
    requires |s.blocks| <= LOGSIZE
  {
    Headed(l, s, s.blocks).(phase := Installing(0))
  }

  // install_trans(0), one turn of the loop
  function InstallBlock(l: Layout, s: State): State
    requires s.phase.Installing? && s.phase.k < |s.blocks|
  {
    Copied(s, s.blocks[s.phase.k], l.start + 1 + s.phase.k).(
      phase := Installing(s.phase.k + 1), pinned := s.pinned - {s.blocks[s.phase.k]})
  }

  // log.lh.n = 0, write_head
  function Clear(l: Layout, s: State): State {
    Headed(l, s, []).(phase := Running, blocks := [])
  }

  // read_head
  function ReadHead(l: Layout, s: State): State
    requires GoodHeader(l, s.disk)
  {
    s.(blocks := HeaderNames(l, s.disk), phase := Recovering(0),
       cache := s.cache[l.start := Seen(s.disk, s.cache, l.start)])
  }

  // install_trans(1), one turn of the loop
  function RecoverBlock(l: Layout, s: State): State
    requires s.phase.Recovering? && s.phase.k < |s.blocks|
  {
    Copied(s, s.blocks[s.phase.k], l.start + 1 + s.phase.k).(phase := Recovering(s.phase.k + 1))
  }

  /** The process may take this step now. */
  predicate Enabled(l: Layout, s: State, a: Action) {
    match a
    case Begin(op) =>
      s.phase.Running? && op !in s.active && |s.blocks| + (|s.active| + 1) * MAXOPBLOCKS <= LOGSIZE
    case Acquire(op, b) =>
      !s.phase.Booting? && !s.phase.Recovering? && b < |s.disk| && IsHome(l, b) && b !in s.held
    case Modify(op, b, _) => op in s.active && b in s.held && s.held[b] == op
    case LogWrite(op, b) =>
      op in s.active && b in s.held && s.held[b] == op && |s.blocks| < LOGSIZE && |s.blocks| < l.size - 1
    case Release(op, b) => b in s.held && s.held[b] == op && b !in s.unlogged
    case Evict(b) => b in s.cache && b !in s.held && b !in s.pinned
    case End(op) => op in s.active && forall b :: b in s.held ==> s.held[b] != op
    case CommitStep =>
      (match s.phase
       case Logging(k) => k < |s.blocks| ==> s.blocks[k] !in s.held
       case Installing(k) => k < |s.blocks| ==> s.blocks[k] !in s.held
       case _ => false)
    case Crash => true
    case RecoverStep => s.phase.Booting? || s.phase.Recovering?
  }

  function Next(l: Layout, s: State, a: Action): State
    requires Enabled(l, s, a) && |s.blocks| <= LOGSIZE && GoodHeader(l, s.disk)
  {
    match a
    case Begin(op) => s.(active := s.active[op := {}])
    case Acquire(op, b) => s.(held := s.held[b := op], cache := s.cache[b := Seen(s.disk, s.cache, b)])
    case Modify(_, b, data) => s.(cache := s.cache[b := data], unlogged := s.unlogged + {b})
    case LogWrite(op, b) =>
      s.(blocks := Absorb(s.blocks, b), pinned := s.pinned + {b}, unlogged := s.unlogged - {b},
         active := s.active[op := s.active[op] + {b}])
    case Release(_, b) => s.(held := s.held - {b})
    case Evict(b) => s.(cache := s.cache - {b})
    case End(op) =>
      var active := s.active - {op};
      s.(active := active, phase := if active == map[] && s.blocks != [] then Logging(0) else s.phase)
    case CommitStep =>
      if s.phase.Logging? then if s.phase.k < |s.blocks| then LogBlock(l, s) else CommitPoint(l, s)
      else if s.phase.k < |s.blocks| then InstallBlock(l, s) else Clear(l, s)
    case Crash => State(s.disk, map[], map[], {}, {}, [], map[], Booting)
    case RecoverStep =>
      if s.phase.Booting? then ReadHead(l, s) else if s.phase.k < |s.blocks| then RecoverBlock(l, s) else Clear(l, s)
  }

  // ---------------------------------------------------------------- what it is worth

  /** First position of `b` in a list of block numbers, or its length. */
  function Find(blocks: seq<nat>, b: nat): (i: nat)
    ensures i <= |blocks| && (i < |blocks| ==> blocks[i] == b) && forall j :: 0 <= j < i ==> blocks[j] != b
  {
    if blocks == [] || blocks[0] == b then 0 else 1 + Find(blocks[1..], b)
  }

  /** What home block `b` will hold after recovery. */
  function Durable(l: Layout, d: Disk, b: nat): Block
    requires GoodHeader(l, d) && b < |d|
  {
    var i := Find(HeaderNames(l, d), b);
    if i < Count(l, d) then d[l.start + 1 + i] else d[b]
  }

  predicate Distinct(blocks: seq<nat>) {
    forall i, j :: 0 <= i < j < |blocks| ==> blocks[i] != blocks[j]
  }

  /** Durable is recovery, block by block. */
  lemma DurableIsRecovered(l: Layout, d: Disk, b: nat)
    requires GoodHeader(l, d) && Distinct(HeaderNames(l, d)) && b < |d| && IsHome(l, b)
    ensures Recovered(l, d)[b] == Durable(l, d, b)
  {
    var ws := InstallWrites(l, d);
    RecoveredShape(l, d);
    ApplyLast(d, ws, b);
    var i := Find(HeaderNames(l, d), b);
    if i < |ws| {
      LastUnique(ws, i, b, d[b]);
    } else {
      LastTouched(ws, b, d[b], d[b]);
      forall j | 0 <= j < |ws| ensures ws[j].at != b {
        assert HeaderNames(l, d)[j] == ws[j].at;
      }
    }
  }

  lemma {:induction false} LastUnique(ws: seq<Write>, i: nat, b: nat, was: Block)
    requires i < |ws| && ws[i].at == b && forall j :: i < j < |ws| ==> ws[j].at != b
    ensures Last(ws, b, was) == ws[i].data
  {
    if i < |ws| - 1 { LastUnique(ws[..|ws| - 1], i, b, was); }
  }

  /** The file system as its users should see it: contents at the last commit, contents now, and who is at work. */
  datatype Spec = Spec(durable: map<nat, Block>, current: map<nat, Block>, active: set<Op>)

  predicate Up(s: State) { !s.phase.Booting? && !s.phase.Recovering? }

  /** What the disk is worth. */
  function DurableHome(l: Layout, d: Disk): (m: map<nat, Block>)
    requires GoodHeader(l, d)
    ensures forall b: nat :: b in m <==> b < |d| && IsHome(l, b)
    ensures forall b: nat :: b in m ==> m[b] == Durable(l, d, b)
  {
    map b: nat | b < |d| && IsHome(l, b) :: Durable(l, d, b)
  }

  /** What a reader sees. */
  function SeenHome(l: Layout, d: Disk, c: Cache): (m: map<nat, Block>)
    ensures forall b: nat :: b in m <==> b < |d| && IsHome(l, b)
    ensures forall b: nat :: b in m ==> m[b] == Seen(d, c, b)
  {
    map b: nat | b < |d| && IsHome(l, b) :: Seen(d, c, b)
  }

  function Abs(l: Layout, s: State): Spec
    requires GoodHeader(l, s.disk)
  {
    var durable := DurableHome(l, s.disk);
    Spec(durable, if Up(s) then SeenHome(l, s.disk, s.cache) else durable, s.active.Keys)
  }

  /** Atomic group commit: contents become durable all at once, and only while no operation is under way. */
  predicate SpecStep(x: Spec, a: Action, y: Spec) {
    match a
    case Begin(op) => op !in x.active && y == x.(active := x.active + {op})
    case End(op) => op in x.active && y == x.(active := x.active - {op})
    case Modify(op, b, data) => op in x.active && b in x.current && y == x.(current := x.current[b := data])
    case CommitStep => y == x || (x.active == {} && y == x.(durable := x.current))
    case Crash => y == Spec(x.durable, x.durable, {})
    case _ => y == x
  }

  // ---------------------------------------------------------------- the invariant

  /** The transaction's blocks from this position on are still pinned. */
  function PinnedFrom(s: State): nat {
    match s.phase
    case Installing(k) => k
    case Recovering(_) => |s.blocks|
    case _ => 0
  }

  predicate LogGood(l: Layout, s: State) {
    Fits(l, s.disk, |s.blocks|) && GoodHeader(l, s.disk) && Distinct(s.blocks) && Distinct(HeaderNames(l, s.disk)) &&
    forall i :: 0 <= i < |s.blocks| ==> NamesHome(l, s.disk, s.blocks[i])
  }

  /** A block that differs between cache and disk is pinned or held, and so stays in the cache. */
  predicate BufferGood(l: Layout, s: State, b: nat) {
    (b < |s.disk| && Seen(s.disk, s.cache, b) != s.disk[b] ==> b in s.pinned || b in s.unlogged) &&
    (b in s.pinned <==> PinnedFrom(s) <= Find(s.blocks, b) < |s.blocks|) &&
    (b in s.pinned || b in s.held ==> b in s.cache) &&
    (b in s.held ==> b < |s.disk| && IsHome(l, b)) &&
    (b in s.unlogged ==> b in s.held && s.held[b] in s.active)
  }

  ghost predicate CacheGood(l: Layout, s: State) {
    forall b: nat :: BufferGood(l, s, b)
  }

  predicate PhaseGood(l: Layout, s: State)
    requires LogGood(l, s)
  {
    var n := |s.blocks|;
    match s.phase
    case Running => Count(l, s.disk) == 0
    case Logging(k) =>
      k <= n && s.active == map[] && Count(l, s.disk) == 0 &&
      forall i :: 0 <= i < k ==> s.disk[l.start + 1 + i] == Seen(s.disk, s.cache, s.blocks[i])
    case Installing(k) =>
      k <= n && s.active == map[] && HeaderNames(l, s.disk) == s.blocks &&
      forall i :: 0 <= i < n ==> s.disk[l.start + 1 + i] == Seen(s.disk, s.cache, s.blocks[i])
    case Booting => s.active == map[] && s.held == map[] && s.blocks == [] && s.cache == map[]
    case Recovering(k) =>
      k <= n && s.active == map[] && s.held == map[] && HeaderNames(l, s.disk) == s.blocks &&
      forall i :: 0 <= i < k ==> s.disk[s.blocks[i]] == s.disk[l.start + 1 + i]
  }

  ghost predicate Inv(l: Layout, s: State) {
    LogGood(l, s) && CacheGood(l, s) && PhaseGood(l, s)
  }

  /** A fresh file system: the header made by mkfs is all zero. */
  predicate Init(l: Layout, s: State) {
    l.start < |s.disk| && Fits(l, s.disk, 0) && s.disk[l.start][0] == 0 &&
    s == State(s.disk, map[], map[], {}, {}, [], map[], Booting)
  }

  lemma InitInv(l: Layout, s: State)
    requires Init(l, s)
    ensures Inv(l, s)
  {
    assert HeaderNames(l, s.disk) == [];
  }

  lemma {:induction false} FindAppend(blocks: seq<nat>, c: nat, b: nat)
    ensures Find(blocks + [c], b) == if Find(blocks, b) < |blocks| || b == c then Find(blocks, b) else |blocks| + 1
  {
    if blocks != [] && blocks[0] != b {
      assert (blocks + [c])[1..] == blocks[1..] + [c];
      FindAppend(blocks[1..], c, b);
    }
  }

  lemma FindIndex(blocks: seq<nat>, i: nat)
    requires i < |blocks| && Distinct(blocks)
    ensures Find(blocks, blocks[i]) == i
  {
    var j := Find(blocks, blocks[i]);
    assert j <= i && blocks[j] == blocks[i];
  }

  /** Steps that change neither disk nor what is seen change nothing for the users. */
  lemma SameAbs(l: Layout, s: State, s': State)
    requires GoodHeader(l, s.disk) && s'.disk == s.disk && s'.active.Keys == s.active.Keys && Up(s) == Up(s')
    requires forall b: nat :: b < |s.disk| && IsHome(l, b) ==> Seen(s'.disk, s'.cache, b) == Seen(s.disk, s.cache, b)
    ensures Abs(l, s') == Abs(l, s)
  {
    assert SeenHome(l, s'.disk, s'.cache) == SeenHome(l, s.disk, s.cache);
  }

  predicate SameSeen(s: State, s': State) {
    s'.disk == s.disk && forall b: nat :: b < |s.disk| ==> Seen(s'.disk, s'.cache, b) == Seen(s.disk, s.cache, b)
  }

  lemma PhaseFrame(l: Layout, s: State, s': State)
    requires LogGood(l, s) && PhaseGood(l, s) && Up(s) && SameSeen(s, s')
    requires s'.blocks == s.blocks && s'.phase == s.phase && s'.active == s.active
    ensures LogGood(l, s') && PhaseGood(l, s')
  {
    forall i | 0 <= i < |s.blocks| ensures s.blocks[i] < |s.disk| { assert NamesHome(l, s.disk, s.blocks[i]); }
  }

  lemma AcquireCache(l: Layout, s: State, op: Op, b: nat)
    requires CacheGood(l, s) && b < |s.disk| && IsHome(l, b) && b !in s.held
    ensures var s' := s.(held := s.held[b := op], cache := s.cache[b := Seen(s.disk, s.cache, b)]);
            SameSeen(s, s') && CacheGood(l, s')
  {
    var s' := s.(held := s.held[b := op], cache := s.cache[b := Seen(s.disk, s.cache, b)]);
    forall x: nat ensures BufferGood(l, s', x) { assert BufferGood(l, s, x); }
  }

  lemma EvictCache(l: Layout, s: State, b: nat)
    requires CacheGood(l, s) && b !in s.held && b !in s.pinned
    ensures var s' := s.(cache := s.cache - {b}); SameSeen(s, s') && CacheGood(l, s')
  {
    var s' := s.(cache := s.cache - {b});
    assert BufferGood(l, s, b);
    forall x: nat ensures BufferGood(l, s', x) { assert BufferGood(l, s, x); }
  }

  lemma ModifyCache(l: Layout, s: State, b: nat, data: Block)
    requires CacheGood(l, s) && b in s.held && s.held[b] in s.active
    ensures var s' := s.(cache := s.cache[b := data], unlogged := s.unlogged + {b});
            CacheGood(l, s') &&
            forall x: nat :: x < |s.disk| ==>
              Seen(s'.disk, s'.cache, x) == if x == b then data else Seen(s.disk, s.cache, x)
  {
    var s' := s.(cache := s.cache[b := data], unlogged := s.unlogged + {b});
    forall x: nat | x < |s.disk|
      ensures Seen(s'.disk, s'.cache, x) == if x == b then data else Seen(s.disk, s.cache, x)
    {
    }
    forall x: nat ensures BufferGood(l, s', x) { assert BufferGood(l, s, x); }
  }

  lemma LogWriteCache(l: Layout, s: State, op: Op, b: nat)
    requires CacheGood(l, s) && s.phase.Running? && Distinct(s.blocks) && b in s.held && op in s.active
    ensures var s' := s.(blocks := Absorb(s.blocks, b), pinned := s.pinned + {b}, unlogged := s.unlogged - {b},
                         active := s.active[op := s.active[op] + {b}]);
            CacheGood(l, s') && Distinct(s'.blocks)
  {
    var s' := s.(blocks := Absorb(s.blocks, b), pinned := s.pinned + {b}, unlogged := s.unlogged - {b},
                 active := s.active[op := s.active[op] + {b}]);
    forall x: nat ensures BufferGood(l, s', x) {
      assert BufferGood(l, s, x) && BufferGood(l, s, b);
      FindAppend(s.blocks, b, x);
    }
  }

  lemma BeginInv(l: Layout, s: State, op: Op)
    requires Inv(l, s) && s.phase.Running? && op !in s.active
    ensures Inv(l, s.(active := s.active[op := {}]))
  {
    var s' := s.(active := s.active[op := {}]);
    forall x: nat ensures BufferGood(l, s', x) { assert BufferGood(l, s, x); }
  }

  lemma StepBegin(l: Layout, s: State, op: Op)
    requires Inv(l, s) && Enabled(l, s, Begin(op))
    ensures Inv(l, Next(l, s, Begin(op)))
    ensures SpecStep(Abs(l, s), Begin(op), Abs(l, Next(l, s, Begin(op))))
  {
    var s' := s.(active := s.active[op := {}]);
    assert Inv(l, s') by { BeginInv(l, s, op); }
    assert s'.active.Keys == s.active.Keys + {op};
    assert Abs(l, s') == Abs(l, s).(active := s'.active.Keys);
  }

  lemma StepEnd(l: Layout, s: State, op: Op)
    requires Inv(l, s) && Enabled(l, s, End(op))
    ensures Inv(l, Next(l, s, End(op)))
    ensures SpecStep(Abs(l, s), End(op), Abs(l, Next(l, s, End(op))))
  {
    var s' := Next(l, s, End(op));
    assert s'.active.Keys == s.active.Keys - {op};
    assert s.phase == Running;
    assert CacheGood(l, s') by { forall x: nat ensures BufferGood(l, s', x) { assert BufferGood(l, s, x); } }
    assert LogGood(l, s') && PhaseGood(l, s');
  }

  lemma StepAcquire(l: Layout, s: State, op: Op, b: nat)
    requires Inv(l, s) && Enabled(l, s, Acquire(op, b))
    ensures Inv(l, Next(l, s, Acquire(op, b))) && Abs(l, Next(l, s, Acquire(op, b))) == Abs(l, s)
  {
    var s' := Next(l, s, Acquire(op, b));
    assert SameSeen(s, s') && CacheGood(l, s') by { AcquireCache(l, s, op, b); }
    assert LogGood(l, s') && PhaseGood(l, s') by { PhaseFrame(l, s, s'); }
    assert Abs(l, s') == Abs(l, s) by { SameAbs(l, s, s'); }
  }

  lemma StepRelease(l: Layout, s: State, op: Op, b: nat)
    requires Inv(l, s) && Enabled(l, s, Release(op, b))
    ensures Inv(l, Next(l, s, Release(op, b))) && Abs(l, Next(l, s, Release(op, b))) == Abs(l, s)
  {
    var s' := Next(l, s, Release(op, b));
    assert CacheGood(l, s') by { forall x: nat ensures BufferGood(l, s', x) { assert BufferGood(l, s, x); } }
    assert LogGood(l, s') && PhaseGood(l, s') by { if Up(s) { PhaseFrame(l, s, s'); } }
    SameAbs(l, s, s');
  }

  /** Recycling a buffer loses nothing: one that is neither held nor pinned is as on disk. */
  lemma StepEvict(l: Layout, s: State, b: nat)
    requires Inv(l, s) && Enabled(l, s, Evict(b))
    ensures Inv(l, Next(l, s, Evict(b))) && Abs(l, Next(l, s, Evict(b))) == Abs(l, s)
  {
    var s' := Next(l, s, Evict(b));
    assert SameSeen(s, s') && CacheGood(l, s') by { EvictCache(l, s, b); }
    assert LogGood(l, s') && PhaseGood(l, s') by { if Up(s) { PhaseFrame(l, s, s'); } }
    assert Abs(l, s') == Abs(l, s) by { SameAbs(l, s, s'); }
  }

  lemma StepModify(l: Layout, s: State, op: Op, b: nat, data: Block)
    requires Inv(l, s) && Enabled(l, s, Modify(op, b, data))
    ensures Inv(l, Next(l, s, Modify(op, b, data)))
    ensures SpecStep(Abs(l, s), Modify(op, b, data), Abs(l, Next(l, s, Modify(op, b, data))))
  {
    var s' := Next(l, s, Modify(op, b, data));
    assert s.phase == Running;
    assert CacheGood(l, s') by { ModifyCache(l, s, b, data); }
    assert LogGood(l, s') && PhaseGood(l, s') && BufferGood(l, s, b);
    assert Abs(l, s').current == Abs(l, s).current[b := data] by { ModifyCache(l, s, b, data); }
  }

  lemma StepLogWrite(l: Layout, s: State, op: Op, b: nat)
    requires Inv(l, s) && Enabled(l, s, LogWrite(op, b))
    ensures Inv(l, Next(l, s, LogWrite(op, b))) && Abs(l, Next(l, s, LogWrite(op, b))) == Abs(l, s)
  {
    var s' := Next(l, s, LogWrite(op, b));
    assert s.phase == Running;
    assert CacheGood(l, s') && Distinct(s'.blocks) by { LogWriteCache(l, s, op, b); }
    assert BufferGood(l, s, b);
    assert s'.active.Keys == s.active.Keys;
    assert Abs(l, s') == Abs(l, s) by { SameAbs(l, s, s'); }
  }

  lemma StepCrash(l: Layout, s: State)
    requires Inv(l, s)
    ensures Inv(l, Next(l, s, Crash)) && SpecStep(Abs(l, s), Crash, Abs(l, Next(l, s, Crash)))
  {
  }

  // ---------------------------------------------------------------- commit and recovery steps

  /** One block was written, through the cache; block `x` is seen as before unless it is that one. */
  predicate WroteAt(s: State, s': State, to: nat, v: Block, x: nat) {
    to < |s.disk| && s'.disk == s.disk[to := v] &&
    s'.held == s.held && s'.unlogged == s.unlogged && s'.active == s.active &&
    (x < |s.disk| ==> Seen(s'.disk, s'.cache, x) == if x == to then v else Seen(s.disk, s.cache, x)) &&
    (x in s.cache ==> x in s'.cache)
  }

  ghost predicate Wrote(s: State, s': State, to: nat, v: Block) {
    forall x: nat :: WroteAt(s, s', to, v, x)
  }

  /** Same disk, cache, locks and operations; log header and phase may differ. */
  predicate SameBuffers(s: State, s': State) {
    s'.disk == s.disk && s'.cache == s.cache && s'.held == s.held && s'.unlogged == s.unlogged && s'.active == s.active
  }

  lemma CopiedWrote(s: State, s': State, to: nat, from: nat)
    requires to < |s.disk| && SameBuffers(Copied(s, to, from), s')
    ensures Wrote(s, s', to, Seen(s.disk, s.cache, from))
  {
    forall x: nat ensures WroteAt(s, s', to, Seen(s.disk, s.cache, from), x) {
    }
  }

  lemma HeadedWrote(l: Layout, s: State, s': State, blocks: seq<nat>)
    requires l.start < |s.disk| && |blocks| <= LOGSIZE && Seen(s.disk, s.cache, l.start) == s.disk[l.start]
    requires SameBuffers(Headed(l, s, blocks), s')
    ensures Wrote(s, s', l.start, HeadBlock(s.disk[l.start], blocks))
  {
    forall x: nat ensures WroteAt(s, s', l.start, HeadBlock(s.disk[l.start], blocks), x) {
    }
  }

  /** A written block is clean, so it need not be pinned any longer. */
  lemma WroteCache(l: Layout, s: State, s': State, to: nat, v: Block)
    requires CacheGood(l, s) && Wrote(s, s', to, v)
    requires forall x: nat :: (x in s'.pinned <==> PinnedFrom(s') <= Find(s'.blocks, x) < |s'.blocks|)
    requires forall x: nat :: (x in s'.pinned ==> x in s.pinned) && (x in s.pinned && x != to ==> x in s'.pinned)
    ensures CacheGood(l, s')
  {
    forall x: nat ensures BufferGood(l, s', x) { assert BufferGood(l, s, x) && WroteAt(s, s', to, v, x); }
  }

  lemma WroteLog(l: Layout, s: State, s': State, to: nat, v: Block)
    requires LogGood(l, s) && Wrote(s, s', to, v) && to != l.start && s'.blocks == s.blocks
    ensures LogGood(l, s') && HeaderNames(l, s'.disk) == HeaderNames(l, s.disk)
  {
    assert WroteAt(s, s', to, v, to);
    HeaderFrame(l, s.disk, s'.disk);
    forall i | 0 <= i < |s.blocks|
      ensures NamesHome(l, s'.disk, s.blocks[i]) { assert NamesHome(l, s.disk, s.blocks[i]); }
  }

  /** The log area is never dirty. */
  lemma LogAreaClean(l: Layout, s: State, b: nat)
    requires LogGood(l, s) && CacheGood(l, s) && b < |s.disk| && !IsHome(l, b)
    ensures Seen(s.disk, s.cache, b) == s.disk[b] && b !in s.held && b !in s.pinned
  {
    assert BufferGood(l, s, b);
    var i := Find(s.blocks, b);
    if i < |s.blocks| { assert NamesHome(l, s.disk, s.blocks[i]); }
  }

  /** A write elsewhere than the header block keeps the header. */
  lemma HeaderFrame(l: Layout, d: Disk, d': Disk)
    requires GoodHeader(l, d) && |d'| == |d| && d'[l.start] == d[l.start]
    ensures GoodHeader(l, d') && HeaderNames(l, d') == HeaderNames(l, d)
  {
    forall i | 0 <= i < d'[l.start][0] ensures NamesHome(l, d', Named(d'[l.start], i)) {
      assert NamesHome(l, d, Named(d[l.start], i));
    }
  }

  lemma StepLogBlock(l: Layout, s: State)
    requires Inv(l, s) && s.phase.Logging? && s.phase.k < |s.blocks|
    ensures Inv(l, LogBlock(l, s)) && Abs(l, LogBlock(l, s)) == Abs(l, s)
  {
    var k := s.phase.k;
    var to, v := l.start + 1 + k, Seen(s.disk, s.cache, s.blocks[k]);
    var s' := LogBlock(l, s);
    assert Wrote(s, s', to, v) by { CopiedWrote(s, s', to, s.blocks[k]); }
    assert WroteAt(s, s', to, v, to);
    assert LogGood(l, s') && HeaderNames(l, s'.disk) == HeaderNames(l, s.disk) by { WroteLog(l, s, s', to, v); }
    assert CacheGood(l, s') by { PinnedNow(l, s); WroteCache(l, s, s', to, v); }
    assert PhaseGood(l, s') by { LogBlockPhase(l, s, s'); }
    assert Abs(l, s') == Abs(l, s) by { AbsFrame(l, s, s', to, v); }
  }

  /** Writing to the log without a header that says so changes nothing for the users. */
  lemma AbsFrame(l: Layout, s: State, s': State, to: nat, v: Block)
    requires LogGood(l, s) && LogGood(l, s') && Count(l, s.disk) == 0 && Wrote(s, s', to, v)
    requires !IsHome(l, to) && HeaderNames(l, s'.disk) == HeaderNames(l, s.disk) && Up(s) && Up(s')
    ensures Abs(l, s') == Abs(l, s)
  {
    assert WroteAt(s, s', to, v, to);
    assert DurableHome(l, s'.disk) == DurableHome(l, s.disk);
    WroteOutside(l, s, s', to, v);
  }

  lemma PinnedNow(l: Layout, s: State)
    requires CacheGood(l, s)
    ensures forall x: nat :: (x in s.pinned <==> PinnedFrom(s) <= Find(s.blocks, x) < |s.blocks|)
  {
    forall x: nat
      ensures x in s.pinned <==> PinnedFrom(s) <= Find(s.blocks, x) < |s.blocks| { assert BufferGood(l, s, x); }
  }

  lemma LogBlockPhase(l: Layout, s: State, s': State)
    requires LogGood(l, s) && PhaseGood(l, s) && s.phase.Logging? && s.phase.k < |s.blocks| && LogGood(l, s')
    requires Wrote(s, s', l.start + 1 + s.phase.k, Seen(s.disk, s.cache, s.blocks[s.phase.k]))
    requires s'.blocks == s.blocks && s'.phase == Logging(s.phase.k + 1)
    ensures PhaseGood(l, s')
  {
    var to, v := l.start + 1 + s.phase.k, Seen(s.disk, s.cache, s.blocks[s.phase.k]);
    assert WroteAt(s, s', to, v, to);
    forall i | 0 <= i < s.phase.k + 1 ensures s'.disk[l.start + 1 + i] == Seen(s'.disk, s'.cache, s.blocks[i]) {
      assert NamesHome(l, s.disk, s.blocks[i]) && WroteAt(s, s', to, v, s.blocks[i]);
    }
  }

  /** Writing the header is the commit: everything seen becomes durable at once, and nobody is inside an operation. */
  lemma CommitPointInv(l: Layout, s: State)
    requires Inv(l, s) && s.phase.Logging? && s.phase.k == |s.blocks|
    ensures Inv(l, CommitPoint(l, s)) && Wrote(s, CommitPoint(l, s), l.start, HeadBlock(s.disk[l.start], s.blocks))
  {
    var s', v := CommitPoint(l, s), HeadBlock(s.disk[l.start], s.blocks);
    assert Wrote(s, s', l.start, v) by { LogAreaClean(l, s, l.start); HeadedWrote(l, s, s', s.blocks); }
    assert WroteAt(s, s', l.start, v, l.start);
    CommitPointHeader(l, s, s'.disk);
    assert LogGood(l, s') by {
      forall i | 0 <= i < |s.blocks|
        ensures NamesHome(l, s'.disk, s.blocks[i]) { assert NamesHome(l, s.disk, s.blocks[i]); }
    }
    assert CacheGood(l, s') by { PinnedNow(l, s); WroteCache(l, s, s', l.start, v); }
    assert PhaseGood(l, s') by {
      forall i | 0 <= i < |s.blocks| ensures s'.disk[l.start + 1 + i] == Seen(s'.disk, s'.cache, s.blocks[i]) {
        assert NamesHome(l, s.disk, s.blocks[i]) && WroteAt(s, s', l.start, v, s.blocks[i]);
      }
    }
  }

  lemma StepCommitPoint(l: Layout, s: State)
    requires Inv(l, s) && s.phase.Logging? && s.phase.k == |s.blocks|
    ensures Inv(l, CommitPoint(l, s)) && Abs(l, s).active == {}
    ensures Abs(l, CommitPoint(l, s)) == Abs(l, s).(durable := Abs(l, s).current)
  {
    var s', v := CommitPoint(l, s), HeadBlock(s.disk[l.start], s.blocks);
    CommitPointInv(l, s);
    assert WroteAt(s, s', l.start, v, l.start);
    assert DurableHome(l, s'.disk) == SeenHome(l, s.disk, s.cache) by {
      CommitPointHeader(l, s, s'.disk);
      CommitPointDurable(l, s, s');
      DurableIsSeen(l, s'.disk, s.disk, s.cache);
    }
    assert SeenHome(l, s'.disk, s'.cache) == SeenHome(l, s.disk, s.cache) by { WroteOutside(l, s, s', l.start, v); }
  }

  lemma CommitPointDurable(l: Layout, s: State, s': State)
    requires Inv(l, s) && s.phase.Logging? && s.phase.k == |s.blocks| && GoodHeader(l, s'.disk)
    requires Wrote(s, s', l.start, HeadBlock(s.disk[l.start], s.blocks)) && HeaderNames(l, s'.disk) == s.blocks
    requires s'.phase == Installing(0)
    ensures |s'.disk| == |s.disk|
    ensures forall b: nat :: b < |s.disk| && IsHome(l, b) ==> Durable(l, s'.disk, b) == Seen(s.disk, s.cache, b)
  {
    assert WroteAt(s, s', l.start, HeadBlock(s.disk[l.start], s.blocks), 0);
    forall b: nat | b < |s.disk| && IsHome(l, b)
      ensures Durable(l, s'.disk, b) == Seen(s.disk, s.cache, b)
    {
      assert BufferGood(l, s, b) && WroteAt(s, s', l.start, HeadBlock(s.disk[l.start], s.blocks), b);
      CommitPointBlock(l, s, s'.disk, b);
    }
  }

  lemma DurableIsSeen(l: Layout, d': Disk, d: Disk, c: Cache)
    requires GoodHeader(l, d') && |d'| == |d|
    requires forall b: nat :: b < |d| && IsHome(l, b) ==> Durable(l, d', b) == Seen(d, c, b)
    ensures DurableHome(l, d') == SeenHome(l, d, c)
  {
  }

  lemma WroteOutside(l: Layout, s: State, s': State, to: nat, v: Block)
    requires Wrote(s, s', to, v) && (!IsHome(l, to) || Seen(s.disk, s.cache, to) == v)
    ensures SeenHome(l, s'.disk, s'.cache) == SeenHome(l, s.disk, s.cache)
  {
    assert WroteAt(s, s', to, v, to);
    forall b: nat | b < |s.disk| && IsHome(l, b) ensures Seen(s'.disk, s'.cache, b) == Seen(s.disk, s.cache, b) {
      assert WroteAt(s, s', to, v, b);
    }
  }

  lemma CommitPointBlock(l: Layout, s: State, d': Disk, b: nat)
    requires BufferGood(l, s, b) && s.phase.Logging? && s.active == map[]
    requires l.start + 1 + |s.blocks| <= |s.disk|
    requires forall i :: 0 <= i < |s.blocks| ==> s.disk[l.start + 1 + i] == Seen(s.disk, s.cache, s.blocks[i])
    requires GoodHeader(l, d') && HeaderNames(l, d') == s.blocks
    requires l.start < |s.disk| == |d'| && d' == s.disk[l.start := d'[l.start]] && b < |s.disk| && IsHome(l, b)
    ensures Durable(l, d', b) == Seen(s.disk, s.cache, b)
  {
    var i := Find(s.blocks, b);
    if i < |s.blocks| { assert s.disk[l.start + 1 + i] == Seen(s.disk, s.cache, s.blocks[i]); }
  }

  lemma CommitPointHeader(l: Layout, s: State, d': Disk)
    requires LogGood(l, s) && d' == s.disk[l.start := HeadBlock(s.disk[l.start], s.blocks)]
    ensures GoodHeader(l, d') && HeaderNames(l, d') == s.blocks
  {
    forall i | 0 <= i < |s.blocks| ensures NamesHome(l, d', Named(d'[l.start], i)) {
      assert NamesHome(l, s.disk, s.blocks[i]);
    }
  }

  /** Copying a logged block home changes neither what the disk is worth nor the header. */
  lemma InstallKeepsDurable(l: Layout, s: State, s': State, k: nat)
    requires LogGood(l, s) && HeaderNames(l, s.disk) == s.blocks && k < |s.blocks| && s'.blocks == s.blocks
    requires Wrote(s, s', s.blocks[k], s.disk[l.start + 1 + k])
    ensures LogGood(l, s') && HeaderNames(l, s'.disk) == s.blocks && DurableHome(l, s'.disk) == DurableHome(l, s.disk)
  {
    assert NamesHome(l, s.disk, s.blocks[k]) && WroteAt(s, s', s.blocks[k], s.disk[l.start + 1 + k], 0);
    WroteLog(l, s, s', s.blocks[k], s.disk[l.start + 1 + k]);
    forall b: nat | b < |s.disk| && IsHome(l, b) ensures Durable(l, s'.disk, b) == Durable(l, s.disk, b) {
      FindIndex(s.blocks, k);
    }
  }

  lemma StepInstall(l: Layout, s: State)
    requires Inv(l, s) && s.phase.Installing? && s.phase.k < |s.blocks|
    ensures Inv(l, InstallBlock(l, s)) && Abs(l, InstallBlock(l, s)) == Abs(l, s)
  {
    InstallLog(l, s);
    InstallSeen(l, s);
    InstallCache(l, s);
    InstallPhase(l, s);
  }

  lemma InstallLog(l: Layout, s: State)
    requires Inv(l, s) && s.phase.Installing? && s.phase.k < |s.blocks|
    ensures var s' := InstallBlock(l, s);
            LogGood(l, s') && HeaderNames(l, s'.disk) == s.blocks && DurableHome(l, s'.disk) == DurableHome(l, s.disk)
  {
    LoggedCopied(l, s, InstallBlock(l, s), s.phase.k);
    InstallKeepsDurable(l, s, InstallBlock(l, s), s.phase.k);
  }

  lemma InstallSeen(l: Layout, s: State)
    requires Inv(l, s) && s.phase.Installing? && s.phase.k < |s.blocks|
    ensures var s' := InstallBlock(l, s); SeenHome(l, s'.disk, s'.cache) == SeenHome(l, s.disk, s.cache)
  {
    LoggedCopied(l, s, InstallBlock(l, s), s.phase.k);
    WroteOutside(l, s, InstallBlock(l, s), s.blocks[s.phase.k], s.disk[l.start + 1 + s.phase.k]);
  }

  lemma LoggedCopied(l: Layout, s: State, s': State, k: nat)
    requires LogGood(l, s) && CacheGood(l, s) && k < |s.blocks|
    requires SameBuffers(Copied(s, s.blocks[k], l.start + 1 + k), s')
    ensures Wrote(s, s', s.blocks[k], s.disk[l.start + 1 + k])
  {
    assert NamesHome(l, s.disk, s.blocks[k]);
    LogAreaClean(l, s, l.start + 1 + k);
    CopiedWrote(s, s', s.blocks[k], l.start + 1 + k);
  }

  lemma InstallCache(l: Layout, s: State)
    requires LogGood(l, s) && CacheGood(l, s) && s.phase.Installing? && s.phase.k < |s.blocks|
    ensures CacheGood(l, InstallBlock(l, s))
  {
    var s', k := InstallBlock(l, s), s.phase.k;
    LoggedCopied(l, s, s', k);
    InstallPins(l, s);
    WroteCache(l, s, s', s.blocks[k], s.disk[l.start + 1 + k]);
  }

  lemma InstallPins(l: Layout, s: State)
    requires CacheGood(l, s) && s.phase.Installing? && s.phase.k < |s.blocks| && Distinct(s.blocks)
    ensures forall x: nat ::
              (x in s.pinned - {s.blocks[s.phase.k]} <==> s.phase.k + 1 <= Find(s.blocks, x) < |s.blocks|)
  {
    PinnedNow(l, s);
    FindIndex(s.blocks, s.phase.k);
  }

  lemma InstallPhase(l: Layout, s: State)
    requires Inv(l, s) && s.phase.Installing? && s.phase.k < |s.blocks|
    requires LogGood(l, InstallBlock(l, s)) && HeaderNames(l, InstallBlock(l, s).disk) == s.blocks
    ensures PhaseGood(l, InstallBlock(l, s))
  {
    var s', to, v := InstallBlock(l, s), s.blocks[s.phase.k], s.disk[l.start + 1 + s.phase.k];
    LoggedCopied(l, s, s', s.phase.k);
    assert NamesHome(l, s.disk, to) && WroteAt(s, s', to, v, to);
    forall i | 0 <= i < |s.blocks| ensures s'.disk[l.start + 1 + i] == Seen(s'.disk, s'.cache, s.blocks[i]) {
      assert NamesHome(l, s.disk, s.blocks[i]) && WroteAt(s, s', to, v, s.blocks[i]);
    }
  }

  /** With the count in the header cleared, the disk is worth what it holds. */
  lemma ClearedDurable(l: Layout, d: Disk, d': Disk)
    requires GoodHeader(l, d) && l.start < |d| && d' == d[l.start := HeadBlock(d[l.start], [])]
    requires forall i :: 0 <= i < Count(l, d) ==> d[HeaderNames(l, d)[i]] == d[l.start + 1 + i]
    ensures GoodHeader(l, d') && HeaderNames(l, d') == [] && DurableHome(l, d') == DurableHome(l, d)
  {
    assert d'[l.start][0] == 0 && Fits(l, d', 0);
    forall b: nat | b < |d| && IsHome(l, b) ensures Durable(l, d', b) == Durable(l, d, b) {
      var i := Find(HeaderNames(l, d), b);
    }
  }

  lemma ClearWrites(l: Layout, s: State, v: Block)
    requires Inv(l, s) && s.phase.Installing? && s.phase.k == |s.blocks| && v == HeadBlock(s.disk[l.start], [])
    ensures Wrote(s, Clear(l, s), l.start, v)
  {
    LogAreaClean(l, s, l.start);
    HeadedWrote(l, s, Clear(l, s), []);
  }

  lemma ClearDurable(l: Layout, s: State, v: Block)
    requires Inv(l, s) && s.phase.Installing? && s.phase.k == |s.blocks| && v == HeadBlock(s.disk[l.start], [])
    requires Wrote(s, Clear(l, s), l.start, v)
    ensures GoodHeader(l, Clear(l, s).disk) && HeaderNames(l, Clear(l, s).disk) == []
    ensures DurableHome(l, Clear(l, s).disk) == DurableHome(l, s.disk)
  {
    assert WroteAt(s, Clear(l, s), l.start, v, l.start);
    InstalledEverything(l, s);
    ClearedDurable(l, s.disk, Clear(l, s).disk);
  }

  lemma ClearCached(l: Layout, s: State, v: Block)
    requires Inv(l, s) && s.phase.Installing? && s.phase.k == |s.blocks| && Wrote(s, Clear(l, s), l.start, v)
    ensures SeenHome(l, Clear(l, s).disk, Clear(l, s).cache) == SeenHome(l, s.disk, s.cache) &&
            CacheGood(l, Clear(l, s))
  {
    PinnedNow(l, s);
    WroteOutside(l, s, Clear(l, s), l.start, v);
    WroteCache(l, s, Clear(l, s), l.start, v);
  }

  lemma StepClear(l: Layout, s: State)
    requires Inv(l, s) && s.phase.Installing? && s.phase.k == |s.blocks|
    ensures Inv(l, Clear(l, s)) && Abs(l, Clear(l, s)) == Abs(l, s)
  {
    hide HeadBlock, HeaderNames, DurableHome, SeenHome;
    var v := HeadBlock(s.disk[l.start], []);
    ClearWrites(l, s, v);
    ClearDurable(l, s, v);
    ClearCached(l, s, v);
  }

  lemma InstalledEverything(l: Layout, s: State)
    requires Inv(l, s) && s.phase.Installing? && s.phase.k == |s.blocks|
    ensures forall i :: 0 <= i < |s.blocks| ==> s.disk[s.blocks[i]] == s.disk[l.start + 1 + i]
  {
    forall i | 0 <= i < |s.blocks| ensures s.disk[s.blocks[i]] == s.disk[l.start + 1 + i] {
      assert NamesHome(l, s.disk, s.blocks[i]) && BufferGood(l, s, s.blocks[i]);
    }
  }

  lemma StepBoot(l: Layout, s: State)
    requires Inv(l, s) && s.phase.Booting?
    ensures Inv(l, ReadHead(l, s)) && Abs(l, ReadHead(l, s)) == Abs(l, s)
  {
    var s' := ReadHead(l, s);
    assert LogGood(l, s') by {
      forall i | 0 <= i < |s'.blocks| ensures NamesHome(l, s'.disk, s'.blocks[i]) {
        assert NamesHome(l, s.disk, Named(s.disk[l.start], i));
      }
    }
    assert CacheGood(l, s') by { forall x: nat ensures BufferGood(l, s', x) { assert BufferGood(l, s, x); } }
  }

  lemma StepRecover(l: Layout, s: State)
    requires Inv(l, s) && s.phase.Recovering? && s.phase.k < |s.blocks|
    ensures Inv(l, RecoverBlock(l, s)) && Abs(l, RecoverBlock(l, s)) == Abs(l, s)
  {
    RecoverLog(l, s);
    RecoverCache(l, s);
    RecoverPhase(l, s);
  }

  lemma RecoverLog(l: Layout, s: State)
    requires Inv(l, s) && s.phase.Recovering? && s.phase.k < |s.blocks|
    ensures var s' := RecoverBlock(l, s);
            LogGood(l, s') && HeaderNames(l, s'.disk) == s.blocks && DurableHome(l, s'.disk) == DurableHome(l, s.disk)
  {
    LoggedCopied(l, s, RecoverBlock(l, s), s.phase.k);
    InstallKeepsDurable(l, s, RecoverBlock(l, s), s.phase.k);
  }

  lemma RecoverCache(l: Layout, s: State)
    requires LogGood(l, s) && CacheGood(l, s) && s.phase.Recovering? && s.phase.k < |s.blocks|
    ensures CacheGood(l, RecoverBlock(l, s))
  {
    LoggedCopied(l, s, RecoverBlock(l, s), s.phase.k);
    PinnedNow(l, s);
    WroteCache(l, s, RecoverBlock(l, s), s.blocks[s.phase.k], s.disk[l.start + 1 + s.phase.k]);
  }

  lemma RecoverPhase(l: Layout, s: State)
    requires Inv(l, s) && s.phase.Recovering? && s.phase.k < |s.blocks|
    requires LogGood(l, RecoverBlock(l, s)) && HeaderNames(l, RecoverBlock(l, s).disk) == s.blocks
    ensures PhaseGood(l, RecoverBlock(l, s))
  {
    var s', to, v := RecoverBlock(l, s), s.blocks[s.phase.k], s.disk[l.start + 1 + s.phase.k];
    LoggedCopied(l, s, s', s.phase.k);
    assert NamesHome(l, s.disk, to) && WroteAt(s, s', to, v, to);
    forall i | 0 <= i < s.phase.k + 1 ensures s'.disk[s.blocks[i]] == s'.disk[l.start + 1 + i] {
      assert NamesHome(l, s.disk, s.blocks[i]);
    }
  }

  lemma StepRecovered(l: Layout, s: State)
    requires Inv(l, s) && s.phase.Recovering? && s.phase.k == |s.blocks|
    ensures Inv(l, Clear(l, s)) && Abs(l, Clear(l, s)) == Abs(l, s)
  {
    var s', v := Clear(l, s), HeadBlock(s.disk[l.start], []);
    assert Wrote(s, s', l.start, v) by { LogAreaClean(l, s, l.start); HeadedWrote(l, s, s', []); }
    assert WroteAt(s, s', l.start, v, l.start);
    assert GoodHeader(l, s'.disk) && HeaderNames(l, s'.disk) == [] &&
           DurableHome(l, s'.disk) == DurableHome(l, s.disk) by {
      ClearedDurable(l, s.disk, s'.disk);
    }
    assert CacheGood(l, s') by { PinnedNow(l, s); WroteCache(l, s, s', l.start, v); }
    forall b: nat | b < |s'.disk| && IsHome(l, b) ensures Durable(l, s'.disk, b) == Seen(s'.disk, s'.cache, b) {
      assert BufferGood(l, s', b);
    }
    DurableIsSeen(l, s'.disk, s'.disk, s'.cache);
  }

  // ---------------------------------------------------------------- every run

  lemma StepCommit(l: Layout, s: State)
    requires Inv(l, s) && Enabled(l, s, CommitStep)
    ensures Inv(l, Next(l, s, CommitStep)) && SpecStep(Abs(l, s), CommitStep, Abs(l, Next(l, s, CommitStep)))
  {
    if s.phase.Logging? {
      if s.phase.k < |s.blocks| { StepLogBlock(l, s); } else { StepCommitPoint(l, s); }
    } else {
      if s.phase.k < |s.blocks| { StepInstall(l, s); } else { StepClear(l, s); }
    }
  }

  lemma StepRecovery(l: Layout, s: State)
    requires Inv(l, s) && Enabled(l, s, RecoverStep)
    ensures Inv(l, Next(l, s, RecoverStep)) && Abs(l, Next(l, s, RecoverStep)) == Abs(l, s)
  {
    if s.phase.Booting? { StepBoot(l, s); }
    else if s.phase.k < |s.blocks| { StepRecover(l, s); }
    else { StepRecovered(l, s); }
  }

  /** Every step keeps the invariant and is a step of atomic group commit, or nothing at all, for the users. */
  lemma StepRefines(l: Layout, s: State, a: Action)
    requires Inv(l, s) && Enabled(l, s, a)
    ensures Inv(l, Next(l, s, a)) && SpecStep(Abs(l, s), a, Abs(l, Next(l, s, a)))
  {
    match a
    case Begin(op) => StepBegin(l, s, op);
    case Acquire(op, b) => StepAcquire(l, s, op, b);
    case Modify(op, b, data) => StepModify(l, s, op, b, data);
    case LogWrite(op, b) => StepLogWrite(l, s, op, b);
    case Release(op, b) => StepRelease(l, s, op, b);
    case Evict(b) => StepEvict(l, s, b);
    case End(op) => StepEnd(l, s, op);
    case CommitStep => StepCommit(l, s);
    case Crash => StepCrash(l, s);
    case RecoverStep => StepRecovery(l, s);
  }

  /** The actions `run` can be taken one after the other from `s`, and end in `s'`. */
  predicate Run(l: Layout, s: State, run: seq<Action>, s': State)
    decreases |run|
  {
    if run == [] then s' == s
    else
      Enabled(l, s, run[0]) && |s.blocks| <= LOGSIZE && GoodHeader(l, s.disk) &&
      Run(l, Next(l, s, run[0]), run[1..], s')
  }

  lemma {:induction false} RunThen(l: Layout, s: State, run: seq<Action>, t: State, more: seq<Action>, u: State)
    requires Run(l, s, run, t) && Run(l, t, more, u)
    ensures Run(l, s, run + more, u)
    decreases |run|
  {
    hide Next, Enabled;
    if run == [] {
      assert run + more == more;
    } else {
      RunThen(l, Next(l, s, run[0]), run[1..], t, more, u);
      assert (run + more)[1..] == run[1..] + more;
    }
  }

  lemma RunSnoc(l: Layout, s: State, run: seq<Action>, t: State, a: Action)
    requires Run(l, s, run, t) && Enabled(l, t, a) && |t.blocks| <= LOGSIZE && GoodHeader(l, t.disk)
    ensures Run(l, s, run + [a], Next(l, t, a))
  {
    hide Next, Enabled;
    assert [a][1..] == [];
    RunThen(l, s, run, t, [a], Next(l, t, a));
  }

  /** Runs of atomic group commit. */
  ghost predicate SpecRun(x: Spec, run: seq<Action>, y: Spec)
    decreases |run|
  {
    if run == [] then y == x else exists z :: SpecStep(x, run[0], z) && SpecRun(z, run[1..], y)
  }

  /** Whatever the interleaving and wherever the crashes fall, the system behaves as atomic group commit. */
  lemma {:induction false} RunRefines(l: Layout, s: State, run: seq<Action>, s': State)
    requires Inv(l, s) && Run(l, s, run, s')
    ensures Inv(l, s') && SpecRun(Abs(l, s), run, Abs(l, s'))
    decreases |run|
  {
    if run != [] {
      StepRefines(l, s, run[0]);
      var t := Next(l, s, run[0]);
      RunRefines(l, t, run[1..], s');
      assert SpecStep(Abs(l, s), run[0], Abs(l, t)) && SpecRun(Abs(l, t), run[1..], Abs(l, s'));
    }
  }

  /** No commit falls between the begin_op and the end_op of an operation, so all it logs is in one commit. */
  lemma {:induction false} NoCommitInside(l: Layout, s: State, run: seq<Action>, s': State, op: Op)
    requires Inv(l, s) && Run(l, s, run, s') && op in s.active
    requires End(op) !in run && Crash !in run
    ensures Inv(l, s') && op in s'.active && Abs(l, s').durable == Abs(l, s).durable
    decreases |run|
  {
    if run != [] {
      var t := Next(l, s, run[0]);
      StepRefines(l, s, run[0]);
      assert run[0] in run && run == [run[0]] + run[1..];
      assert op in Abs(l, s).active;
      assert op in Abs(l, t).active;
      NoCommitInside(l, t, run[1..], s', op);
    }
  }

  /** Before its header is written, nothing of a transaction is on disk at its home. */
  lemma UncommittedStaysOff(l: Layout, s: State, b: nat)
    requires Inv(l, s) && (s.phase.Running? || s.phase.Logging?) && b < |s.disk| && IsHome(l, b)
    ensures s.disk[b] == Abs(l, s).durable[b]
  {
  }

  /** After a crash and a recovery that is let finish, the file system is at its last commit. */
  lemma RecoversToLastCommit(l: Layout, s: State, run: seq<Action>, s': State)
    requires Inv(l, s) && Run(l, s, [Crash] + run, s')
    requires forall i :: 0 <= i < |run| ==> run[i].Crash? || run[i].RecoverStep?
    ensures Inv(l, s') && Abs(l, s') == Spec(Abs(l, s).durable, Abs(l, s).durable, {})
  {
    var t := Next(l, s, Crash);
    assert ([Crash] + run)[0] == Crash && ([Crash] + run)[1..] == run;
    StepRefines(l, s, Crash);
    CrashesOnly(l, t, run, s');
  }

  lemma {:induction false} CrashesOnly(l: Layout, s: State, run: seq<Action>, s': State)
    requires Inv(l, s) && Run(l, s, run, s')
    requires forall i :: 0 <= i < |run| ==> run[i].Crash? || run[i].RecoverStep?
    requires Abs(l, s).current == Abs(l, s).durable && Abs(l, s).active == {}
    ensures Inv(l, s') && Abs(l, s') == Abs(l, s)
    decreases |run|
  {
    if run != [] {
      StepRefines(l, s, run[0]);
      CrashesOnly(l, Next(l, s, run[0]), run[1..], s');
    }
  }
}
