/**
 The buffer cache of kernel/bio.c under the log of kernel/log.c: what the protocol calls held and pinned is the
 reference count of a buffer, what it calls eviction is the recycling in bget, and its steps on blocks are the buffer
 operations of their code.

 `mine` is the set of blocks that the process in commit or recovery has a reference to within a step.
 */
module LogBuffers {
  import opened LogDisk
  import opened RedoLog
  import opened LogProtocol
  import opened Finite
  import BC = BufferCaches

  const DEV: nat := 1  // ROOTDEV

  // ---------------------------------------------------------------- references

  function Refs(s: State, mine: set<nat>, n: nat): nat {
    (if n in s.held then 1 else 0) + (if n in s.pinned then 1 else 0) + if n in mine then 1 else 0
  }

  /** A buffer of the file system has the block's contents and one reference for its holder, for the log and for the
      process in commit; any other buffer is unused. */
  predicate BufOk(s: State, mine: set<nat>, x: BC.Buf) {
    if x.dev == DEV then
      x.valid && x.blockno in s.cache && x.data == s.cache[x.blockno] && x.refcnt == Refs(s, mine, x.blockno)
    else x.dev == 0 && x.refcnt == 0
  }

  ghost predicate HasBuf(h: seq<BC.Buf>, n: nat) { exists c: nat :: BC.Holds(h, c, DEV, n) }

  /** Buffers and disk are those of the protocol's state. */
  ghost predicate Represents(h: seq<BC.Buf>, d: BC.Disk, s: State, mine: set<nat>) {
    |h| == BC.NBUF + 1 && (forall c: nat :: c < BC.NBUF ==> BufOk(s, mine, h[c])) &&
    (forall n: nat :: n in s.cache ==> n < |s.disk| && HasBuf(h, n)) &&
    (forall n: nat :: n in s.held || n in s.pinned || n in mine ==> n in s.cache) &&
    forall n: nat :: n < |s.disk| ==> BC.OnDisk(d, DEV, n) == s.disk[n]
  }

  /** Between steps, a buffer is referred to if and only if its block is held or pinned. */
  lemma ReferencedIff(h: seq<BC.Buf>, d: BC.Disk, s: State, b: nat, n: nat)
    requires Represents(h, d, s, {}) && BC.Holds(h, b, DEV, n)
    ensures h[b].refcnt > 0 <==> n in s.held || n in s.pinned
  {
    assert BufOk(s, {}, h[b]);
  }

  // ---------------------------------------------------------------- when there is a buffer

  /** The blocks someone refers to. */
  function InUse(s: State, mine: set<nat>): set<nat> { s.held.Keys + s.pinned + mine }

  ghost function Blocknos(h: seq<BC.Buf>, bufs: set<nat>): set<nat>
    requires forall c :: c in bufs ==> c < |h|
  {
    set c | c in bufs :: h[c].blockno
  }

  lemma {:induction false} DifferentBlocks(h: seq<BC.Buf>, bufs: set<nat>)
    requires |h| == BC.NBUF + 1 && BC.Unique(h) && forall c :: c in bufs ==> c < BC.NBUF && h[c].dev == DEV
    ensures |Blocknos(h, bufs)| == |bufs|
    decreases bufs
  {
    if bufs == {} {
      assert Blocknos(h, bufs) == {};
    } else {
      var c :| c in bufs;
      DifferentBlocks(h, bufs - {c});
      assert Blocknos(h, bufs) == Blocknos(h, bufs - {c}) + {h[c].blockno};
      assert h[c].blockno !in Blocknos(h, bufs - {c});
    }
  }

  ghost function Referenced(h: seq<BC.Buf>): set<nat> { set c: nat | c < BC.NBUF && c < |h| && h[c].refcnt > 0 }

  lemma ReferencedBlocks(h: seq<BC.Buf>, d: BC.Disk, s: State, mine: set<nat>)
    requires Represents(h, d, s, mine) && BC.Unique(h)
    ensures |Referenced(h)| == |InUse(s, mine)|
  {
    var bufs := Referenced(h);
    forall c | c in bufs ensures c < BC.NBUF && h[c].dev == DEV && h[c].blockno in InUse(s, mine) {
      assert BufOk(s, mine, h[c]);
    }
    forall n | n in InUse(s, mine) ensures n in Blocknos(h, bufs) {
      assert HasBuf(h, n);
      var c: nat :| BC.Holds(h, c, DEV, n);
      assert BufOk(s, mine, h[c]) && c in bufs;
    }
    assert Blocknos(h, bufs) == InUse(s, mine);
    DifferentBlocks(h, bufs);
  }

  lemma {:induction false} Below(n: nat) returns (all: set<nat>)
    ensures |all| == n && forall c: nat :: c in all <==> c < n
  {
    all := {};
    if n > 0 {
      var most := Below(n - 1);
      all := most + {n - 1};
    }
  }

  /** Numbers below n, all of them or not. */
  lemma AllOrFewer(bufs: set<nat>, n: nat)
    requires forall c :: c in bufs ==> c < n
    ensures |bufs| <= n && (|bufs| < n <==> exists c: nat :: c < n && c !in bufs)
  {
    var all := Below(n);
    SubsetSize(bufs, all);
    if forall c: nat :: c < n ==> c in bufs {
      assert bufs == all;
    }
    if |bufs| == n {
      SameSize(bufs, all);
    }
  }

  /** A buffer is free if and only if fewer than NBUF blocks are held, pinned or referred to by commit. */
  lemma FreeBufferIff(h: seq<BC.Buf>, d: BC.Disk, s: State, mine: set<nat>)
    requires Represents(h, d, s, mine) && BC.Unique(h)
    ensures (exists c: nat :: c < BC.NBUF && h[c].refcnt == 0) <==> |InUse(s, mine)| < BC.NBUF
  {
    ReferencedBlocks(h, d, s, mine);
    hide Represents, InUse;
    AllOrFewer(Referenced(h), BC.NBUF);
    if c: nat :| c < BC.NBUF && h[c].refcnt == 0 {
      assert c !in Referenced(h);
    }
    if c: nat :| c < BC.NBUF && c !in Referenced(h) {
      assert h[c].refcnt == 0;
    }
  }

  // ---------------------------------------------------------------- bread

  /** The state with block n in the cache. */
  function Cached(s: State, n: nat): State
    requires n < |s.disk|
  {
    s.(cache := s.cache[n := Seen(s.disk, s.cache, n)])
  }

  function Evicted(s: State, m: nat): State { s.(cache := s.cache - {m}) }

  /** bread of a block that has a buffer. */
  lemma FoundOk(h: seq<BC.Buf>, d: BC.Disk, s: State, mine: set<nat>, b: nat, n: nat, h': seq<BC.Buf>)
    requires Represents(h, d, s, mine) && BC.Unique(h) && BC.Holds(h, b, DEV, n) && n !in mine
    requires h' == h[b := BC.Referenced(h[b], d)]
    ensures n < |s.disk| && n in s.cache && Cached(s, n) == s && Represents(h', d, s, mine + {n})
  {
    assert BufOk(s, mine, h[b]);
    assert s.cache[n := s.cache[n]] == s.cache;
    forall c: nat | c < BC.NBUF ensures BufOk(s, mine + {n}, h'[c]) {
      assert BufOk(s, mine, h[c]);
    }
    forall k: nat | k in s.cache ensures HasBuf(h', k) {
      assert HasBuf(h, k);
      var c: nat :| BC.Holds(h, c, DEV, k);
      assert BC.Holds(h', c, DEV, k);
    }
  }

  /** The block whose buffer is recycled, if it had one, can be evicted. */
  lemma RecycledIsEvicted(l: Layout, h: seq<BC.Buf>, d: BC.Disk, s: State, mine: set<nat>, b: nat)
    requires Represents(h, d, s, mine) && b < BC.NBUF && h[b].refcnt == 0 && h[b].dev == DEV
    ensures Enabled(l, s, Evict(h[b].blockno)) && h[b].blockno !in mine
  {
    assert BufOk(s, mine, h[b]);
  }

  /** The state once the buffer b has been recycled. */
  function Without(s: State, x: BC.Buf): State { if x.dev == DEV then Evicted(s, x.blockno) else s }

  /** bread of a block that gets the buffer b. */
  lemma LoadedOk(h: seq<BC.Buf>, d: BC.Disk, s: State, mine: set<nat>, b: nat, n: nat, h': seq<BC.Buf>)
    requires Represents(h, d, s, mine) && BC.Unique(h) && b < BC.NBUF && h[b].refcnt == 0 && n < |s.disk|
    requires forall c: nat :: !BC.Holds(h, c, DEV, n)
    requires h' == h[b := BC.Loaded(h[b], d, DEV, n)]
    ensures n !in s.cache && n !in mine && Represents(h', d, Cached(Without(s, h[b]), n), mine + {n})
  {
    assert n in s.cache ==> HasBuf(h, n);
    assert BufOk(s, mine, h[b]);
    var t := Cached(Without(s, h[b]), n);
    forall c: nat | c < BC.NBUF ensures BufOk(t, mine + {n}, h'[c]) {
      assert BufOk(s, mine, h[c]);
      assert !BC.Holds(h, c, DEV, n);
    }
    forall k: nat | k in t.cache ensures k < |t.disk| && HasBuf(h', k) {
      if k == n {
        assert BC.Holds(h', b, DEV, n);
      } else {
        assert HasBuf(h, k);
        var c: nat :| BC.Holds(h, c, DEV, k);
        assert BC.Holds(h', c, DEV, k);
      }
    }
  }

  /** A buffer in use stays where it is. */
  lemma KeptBuffer(h: seq<BC.Buf>, d: BC.Disk, s: State, mine: set<nat>, b: nat, x: BC.Buf, c: nat, k: nat)
    requires Represents(h, d, s, mine) && k in mine && BC.Holds(h, c, DEV, k) && b < |h|
    requires h[b].refcnt == 0 || (x.dev == h[b].dev && x.blockno == h[b].blockno)
    ensures BC.Holds(h[b := x], c, DEV, k)
  {
    assert BufOk(s, mine, h[c]);
  }

  /** bread in a step of commit or recovery: at most one block is evicted, and the panic comes exactly when all buffers
      are in use and none has the block. */
  method Load(bc: BC.BufferCache, n: nat, ghost l: Layout, ghost s: State, ghost mine: set<nat>)
    returns (b: nat, ghost e: State)
    requires bc.Valid() && Represents(bc.buf[..], bc.disk, s, mine) && n < |s.disk| && n !in mine
    modifies bc.buf
    ensures bc.Valid() && (b == BC.HEAD <==> n !in s.cache && |InUse(s, mine)| >= BC.NBUF)
    ensures b == BC.HEAD ==> bc.buf[..] == old(bc.buf[..])
    ensures b != BC.HEAD ==>
              Evicts(l, s, e) && e.disk == s.disk && Represents(bc.buf[..], bc.disk, Cached(e, n), mine + {n})
    ensures b != BC.HEAD ==> BC.Holds(bc.buf[..], b, DEV, n)
    ensures n in s.cache ==> e == s
    ensures b != BC.HEAD ==> forall c: nat, k: nat :: k in mine && BC.Holds(old(bc.buf[..]), c, DEV, k) ==>
                               BC.Holds(bc.buf[..], c, DEV, k)
  {
    ghost var h := bc.buf[..];
    assert |h| == BC.NBUF + 1 && BC.Unique(h);
    FreeBufferIff(h, bc.disk, s, mine);
    assert n in s.cache <==> HasBuf(h, n) by { CachedIff(h, bc.disk, s, mine, n); }
    hide Represents, InUse, BC.Good, BC.SameLogical, BC.Logical, Seen;
    b := bc.Bread(DEV, n);
    e := s;
    if b == BC.HEAD {
      return;
    }
    forall c: nat, k: nat | k in mine && BC.Holds(h, c, DEV, k) ensures BC.Holds(bc.buf[..], c, DEV, k) {
      KeptBuffer(h, bc.disk, s, mine, b, bc.buf[b], c, k);
    }
    if BC.Holds(h, b, DEV, n) {
      FoundOk(h, bc.disk, s, mine, b, n, bc.buf[..]);
    } else {
      LoadedOk(h, bc.disk, s, mine, b, n, bc.buf[..]);
      e := Without(s, h[b]);
      if h[b].dev == DEV {
        RecycledIsEvicted(l, h, bc.disk, s, mine, b);
      }
    }
  }

  lemma CachedIff(h: seq<BC.Buf>, d: BC.Disk, s: State, mine: set<nat>, n: nat)
    requires Represents(h, d, s, mine)
    ensures n in s.cache <==> HasBuf(h, n)
  {
    if HasBuf(h, n) {
      var c: nat :| BC.Holds(h, c, DEV, n);
      assert BufOk(s, mine, h[c]);
    }
  }

  /** At most one eviction. */
  predicate Evicts(l: Layout, s: State, e: State) {
    e == s || exists m: nat :: m in s.cache && Enabled(l, s, Evict(m)) && e == Evicted(s, m)
  }

  lemma EvictsRun(l: Layout, s: State, e: State) returns (steps: seq<Action>)
    requires Inv(l, s) && Evicts(l, s, e)
    ensures Run(l, s, steps, e) && Inv(l, e) && |steps| <= 1 && forall a :: a in steps ==> a.Evict?
  {
    if e == s {
      steps := [];
    } else {
      var m: nat :| m in s.cache && Enabled(l, s, Evict(m)) && e == Evicted(s, m);
      steps := [Evict(m)];
      StepRefines(l, s, Evict(m));
      assert steps[1..] == [];
    }
  }

  // ---------------------------------------------------------------- the steps of operations

  /** A reference within a step becomes the holder's. */
  lemma HeldOk(h: seq<BC.Buf>, d: BC.Disk, t: State, n: nat, op: Op)
    requires Represents(h, d, t, {n}) && n !in t.held
    ensures Represents(h, d, t.(held := t.held[n := op]), {})
  {
    var t' := t.(held := t.held[n := op]);
    forall c: nat | c < BC.NBUF ensures BufOk(t', {}, h[c]) {
      assert BufOk(t, {n}, h[c]);
    }
  }

  /** bread and the sleep-lock are Acquire, after the eviction that made room; the panic in bget comes exactly when NBUF
      other blocks are held or pinned. */
  method Acquire(bc: BC.BufferCache, op: Op, n: nat, ghost l: Layout, ghost s: State)
    returns (b: nat, ghost steps: seq<Action>, ghost s': State)
    requires bc.Valid() && Represents(bc.buf[..], bc.disk, s, {}) && Inv(l, s) && Up(s)
    requires n < |s.disk| && (n < l.start || n >= l.start + l.size) && n !in s.held
    modifies bc.buf
    ensures bc.Valid() && (b == BC.HEAD <==> n !in s.cache && |s.held.Keys + s.pinned| >= BC.NBUF)
    ensures b == BC.HEAD ==> bc.buf[..] == old(bc.buf[..])
    ensures b != BC.HEAD ==> BC.Holds(bc.buf[..], b, DEV, n) && Represents(bc.buf[..], bc.disk, s', {}) && Inv(l, s') &&
                             Run(l, s, steps + [Action.Acquire(op, n)], s') && |steps| <= 1 &&
                             forall a :: a in steps ==> a.Evict?
  {
    hide Represents, Inv, Run, Enabled, Next, Cached, Evicts, BC.Good, Up;
    ghost var e;
    assert s.held.Keys + s.pinned + {} == s.held.Keys + s.pinned;
    MayAcquire(l, s, op, n);
    b, e := Load(bc, n, l, s, {});
    steps, s' := [], s;
    if b != BC.HEAD {
      assert {} + {n} == {n};
      steps, s' := AcquiredOk(bc.buf[..], bc.disk, l, s, e, op, n);
    }
  }

  lemma MayAcquire(l: Layout, s: State, op: Op, n: nat)
    requires Up(s) && n < |s.disk| && (n < l.start || n >= l.start + l.size) && n !in s.held
    ensures Enabled(l, s, Action.Acquire(op, n))
  {
  }

  lemma AcquiredOk(h: seq<BC.Buf>, d: BC.Disk, l: Layout, s: State, e: State, op: Op, n: nat)
    returns (steps: seq<Action>, s': State)
    requires Inv(l, s) && Enabled(l, s, Action.Acquire(op, n)) && Evicts(l, s, e)
    requires n < |e.disk| && Represents(h, d, Cached(e, n), {n})
    ensures Represents(h, d, s', {}) && Inv(l, s') && Run(l, s, steps + [Action.Acquire(op, n)], s')
    ensures |steps| <= 1 && forall a :: a in steps ==> a.Evict?
  {
    hide Represents, Inv, Run;
    steps := EvictsRun(l, s, e);
    assert e == s.(cache := e.cache);
    HeldOk(h, d, Cached(e, n), n, op);
    assert |e.blocks| <= LOGSIZE && GoodHeader(l, e.disk) by { HeaderKnown(l, e); }
    s' := Next(l, e, Action.Acquire(op, n));
    StepRefines(l, e, Action.Acquire(op, n));
    RunSnoc(l, s, steps, e, Action.Acquire(op, n));
  }

  lemma HeaderKnown(l: Layout, s: State)
    requires Inv(l, s)
    ensures |s.blocks| <= LOGSIZE && GoodHeader(l, s.disk)
  {
  }

  lemma ModifiedOk(h: seq<BC.Buf>, d: BC.Disk, s: State, mine: set<nat>, b: nat, n: nat, data: Block)
    requires Represents(h, d, s, mine) && BC.Unique(h) && BC.Holds(h, b, DEV, n)
    ensures Represents(h[b := h[b].(data := data)], d, s.(cache := s.cache[n := data]), mine)
  {
    var h', s' := h[b := h[b].(data := data)], s.(cache := s.cache[n := data]);
    assert BufOk(s, mine, h[b]);
    forall c: nat | c < BC.NBUF ensures BufOk(s', mine, h'[c]) {
      assert BufOk(s, mine, h[c]);
    }
    forall k: nat | k in s'.cache ensures k < |s'.disk| && HasBuf(h', k) {
      assert HasBuf(h, k);
      var c: nat :| BC.Holds(h, c, DEV, k);
      assert BC.Holds(h', c, DEV, k);
    }
  }

  /** The holder writes into the buffer. */
  method Modify(bc: BC.BufferCache, b: nat, op: Op, n: nat, data: Block, ghost l: Layout, ghost s: State)
    requires bc.Valid() && Represents(bc.buf[..], bc.disk, s, {}) && BC.Holds(bc.buf[..], b, DEV, n)
    requires Inv(l, s) && op in s.active && n in s.held && s.held[n] == op
    modifies bc.buf
    ensures bc.Valid() && Represents(bc.buf[..], bc.disk, Next(l, s, Action.Modify(op, n, data)), {})
  {
    assert BufOk(s, {}, bc.buf[b]);
    ModifiedOk(bc.buf[..], bc.disk, s, {}, b, n, data);
    bc.SetData(b, data);
    LogFieldsOk(bc.buf[..], bc.disk, s.(cache := s.cache[n := data]), Next(l, s, Action.Modify(op, n, data)));
  }

  /** Within an operation, the log pins exactly the blocks it has recorded. */
  lemma LoggedIsPinned(l: Layout, s: State, op: Op, n: nat)
    requires Inv(l, s) && op in s.active
    ensures n in s.pinned <==> n in s.blocks
  {
    assert BufferGood(l, s, n);
    if n in s.blocks {
      var i :| 0 <= i < |s.blocks| && s.blocks[i] == n;
    }
  }

  lemma PinnedOk(h: seq<BC.Buf>, d: BC.Disk, s: State, b: nat, n: nat, h': seq<BC.Buf>)
    requires Represents(h, d, s, {}) && BC.Unique(h) && BC.Holds(h, b, DEV, n)
    requires h' == if n in s.pinned then h else h[b := h[b].(refcnt := h[b].refcnt + 1)]
    ensures Represents(h', d, s.(pinned := s.pinned + {n}), {})
  {
    var s' := s.(pinned := s.pinned + {n});
    assert BufOk(s, {}, h[b]);
    forall c: nat | c < BC.NBUF ensures BufOk(s', {}, h'[c]) {
      assert BufOk(s, {}, h[c]);
    }
    forall k: nat | k in s'.cache ensures HasBuf(h', k) {
      assert HasBuf(h, k);
      var c: nat :| BC.Holds(h, c, DEV, k);
      assert BC.Holds(h', c, DEV, k);
    }
  }

  /** log_write pins the buffer of a block that is new to the log, and only that. */
  method LogWrite(bc: BC.BufferCache, b: nat, op: Op, n: nat, blocks: seq<nat>, ghost l: Layout, ghost s: State)
    requires bc.Valid() && Represents(bc.buf[..], bc.disk, s, {}) && BC.Holds(bc.buf[..], b, DEV, n)
    requires Inv(l, s) && op in s.active && n in s.held && s.held[n] == op
    requires blocks == s.blocks && |blocks| < 30 && |blocks| < l.size - 1
    modifies bc.buf
    ensures bc.Valid() && Represents(bc.buf[..], bc.disk, Next(l, s, Action.LogWrite(op, n)), {})
  {
    ghost var h := bc.buf[..];
    LoggedIsPinned(l, s, op, n);
    if n !in blocks {
      bc.Bpin(b);
    }
    PinnedOk(h, bc.disk, s, b, n, bc.buf[..]);
    LogFieldsOk(bc.buf[..], bc.disk, s.(pinned := s.pinned + {n}), Next(l, s, Action.LogWrite(op, n)));
  }

  /** The log's own fields do not show in the buffers. */
  lemma LogFieldsOk(h: seq<BC.Buf>, d: BC.Disk, s: State, s': State)
    requires Represents(h, d, s, {})
    requires s' == s.(unlogged := s'.unlogged, blocks := s'.blocks, active := s'.active, phase := s'.phase)
    ensures Represents(h, d, s', {})
  {
    forall c: nat | c < BC.NBUF ensures BufOk(s', {}, h[c]) {
      assert BufOk(s, {}, h[c]);
    }
  }

  /** brelse moves the buffer in the ring and changes its count. */
  lemma RelinkedOk(h: seq<BC.Buf>, h': seq<BC.Buf>, d: BC.Disk, s: State, mine: set<nat>)
    requires Represents(h, d, s, mine) && |h'| == |h| && forall c :: 0 <= c < BC.NBUF ==> BC.SameBuf(h'[c], h[c])
    ensures Represents(h', d, s, mine)
  {
    forall c: nat | c < BC.NBUF ensures BufOk(s, mine, h'[c]) {
      assert BufOk(s, mine, h[c]);
    }
    forall k: nat | k in s.cache ensures HasBuf(h', k) {
      assert HasBuf(h, k);
      var c: nat :| BC.Holds(h, c, DEV, k);
      assert BC.Holds(h', c, DEV, k);
    }
  }

  /** One reference to block n fewer, and if that was the last then the disk has the block. */
  ghost predicate Drops(s: State, mine: set<nat>, n: nat, s': State, mine': set<nat>) {
    s'.disk == s.disk && s'.cache == s.cache && s'.held.Keys <= s.held.Keys && s'.pinned <= s.pinned && mine' <= mine &&
    Refs(s', mine', n) == Refs(s, mine, n) - 1 &&
    (forall k: nat :: k != n ==> Refs(s', mine', k) == Refs(s, mine, k)) &&
    n in s.cache && n < |s.disk| && (Refs(s, mine, n) == 1 ==> s.cache[n] == s.disk[n])
  }

  predicate Droppable(d: BC.Disk, x: BC.Buf) {
    x.refcnt > 0 && (x.refcnt == 1 && x.valid ==> x.data == BC.OnDisk(d, x.dev, x.blockno))
  }

  function Dropped(h: seq<BC.Buf>, b: nat): seq<BC.Buf>
    requires b < |h| && h[b].refcnt > 0
  {
    h[b := h[b].(refcnt := h[b].refcnt - 1)]
  }

  lemma DroppedOk(h: seq<BC.Buf>, d: BC.Disk, s: State, mine: set<nat>, b: nat, n: nat, s': State, mine': set<nat>)
    requires Represents(h, d, s, mine) && BC.Unique(h) && BC.Holds(h, b, DEV, n) && Drops(s, mine, n, s', mine')
    ensures Droppable(d, h[b]) && Represents(Dropped(h, b), d, s', mine')
  {
    assert BufOk(s, mine, h[b]);
    var h' := Dropped(h, b);
    forall c: nat | c < BC.NBUF ensures BufOk(s', mine', h'[c]) {
      assert BufOk(s, mine, h[c]);
    }
    forall k: nat | k in s'.cache ensures HasBuf(h', k) {
      assert HasBuf(h, k);
      var c: nat :| BC.Holds(h, c, DEV, k);
      assert BC.Holds(h', c, DEV, k);
    }
  }

  /** brelse gives up one reference. */
  method Drop(bc: BC.BufferCache, b: nat, n: nat, ghost s: State, ghost mine: set<nat>, ghost s': State,
              ghost mine': set<nat>)
    requires bc.Valid() && Represents(bc.buf[..], bc.disk, s, mine) && BC.Holds(bc.buf[..], b, DEV, n)
    requires Drops(s, mine, n, s', mine')
    modifies bc.buf, bc`ring, bc`stamp, bc`clock
    ensures bc.Valid() && Represents(bc.buf[..], bc.disk, s', mine')
    ensures forall c: nat, k: nat :: BC.Holds(bc.buf[..], c, DEV, k) <==> BC.Holds(old(bc.buf[..]), c, DEV, k)
  {
    ghost var h := bc.buf[..];
    assert BC.Unique(h) && |h| == BC.NBUF + 1;
    hide Represents, Drops, BC.Good, BC.SameLogical;
    DroppedOk(h, bc.disk, s, mine, b, n, s', mine');
    bc.Brelse(b);
    RelinkedOk(Dropped(h, b), bc.buf[..], bc.disk, s', mine');
  }

  /** brelse by the holder is Release: a buffer nobody refers to any more has what the disk has. */
  method Release(bc: BC.BufferCache, b: nat, op: Op, n: nat, ghost l: Layout, ghost s: State)
    requires bc.Valid() && Represents(bc.buf[..], bc.disk, s, {}) && BC.Holds(bc.buf[..], b, DEV, n)
    requires Inv(l, s) && n in s.held && s.held[n] == op && n !in s.unlogged
    modifies bc.buf, bc`ring, bc`stamp, bc`clock
    ensures bc.Valid() && Represents(bc.buf[..], bc.disk, Next(l, s, Action.Release(op, n)), {})
  {
    assert BufferGood(l, s, n);
    ghost var s' := Next(l, s, Action.Release(op, n));
    hide Represents, Inv;
    Drop(bc, b, n, s, {}, s', {});
  }

  // ---------------------------------------------------------------- the steps of commit and recovery

  /** bwrite. */
  lemma WrittenOk(h: seq<BC.Buf>, d: BC.Disk, s: State, mine: set<nat>, b: nat, n: nat)
    requires Represents(h, d, s, mine) && BC.Holds(h, b, DEV, n)
    ensures n in s.cache && n < |s.disk|
    ensures Represents(h, d[(h[b].dev, h[b].blockno) := h[b].data], s.(disk := s.disk[n := s.cache[n]]), mine)
  {
    assert BufOk(s, mine, h[b]);
    var s' := s.(disk := s.disk[n := s.cache[n]]);
    forall c: nat | c < BC.NBUF ensures BufOk(s', mine, h[c]) {
      assert BufOk(s, mine, h[c]);
    }
  }

  /** The state after a block has got new contents in its buffer and on disk. */
  function Stored(t: State, n: nat, data: Block): State
    requires n < |t.disk|
  {
    t.(cache := t.cache[n := data], disk := t.disk[n := data])
  }

  /** Fill a buffer and bwrite it. */
  method Write(bc: BC.BufferCache, b: nat, n: nat, data: Block, ghost t: State, ghost mine: set<nat>)
    requires bc.Valid() && Represents(bc.buf[..], bc.disk, t, mine) && BC.Holds(bc.buf[..], b, DEV, n) && n in mine
    requires n < |t.disk|
    modifies bc.buf, bc`disk
    ensures bc.Valid() && Represents(bc.buf[..], bc.disk, Stored(t, n, data), mine)
    ensures forall c: nat, k: nat :: BC.Holds(bc.buf[..], c, DEV, k) <==> BC.Holds(old(bc.buf[..]), c, DEV, k)
  {
    assert BufOk(t, mine, bc.buf[b]);
    assert BC.Unique(bc.buf[..]);
    ModifiedOk(bc.buf[..], bc.disk, t, mine, b, n, data);
    ghost var t' := t.(cache := t.cache[n := data]);
    hide Represents, BC.Good, BC.SameLogical;
    bc.SetData(b, data);
    WrittenOk(bc.buf[..], bc.disk, t', mine, b, n);
    bc.Bwrite(b);
  }

  lemma DropsPin(h: seq<BC.Buf>, d: BC.Disk, t: State, mine: set<nat>, b: nat, n: nat)
    requires Represents(h, d, t, mine) && BC.Holds(h, b, DEV, n) && n in mine && n in t.pinned
    ensures Drops(t, mine, n, t.(pinned := t.pinned - {n}), mine)
  {
    assert BufOk(t, mine, h[b]);
  }

  /** bunpin. */
  method Unpin(bc: BC.BufferCache, b: nat, n: nat, ghost t: State, ghost mine: set<nat>)
    requires bc.Valid() && Represents(bc.buf[..], bc.disk, t, mine) && BC.Holds(bc.buf[..], b, DEV, n)
    requires n in mine && n in t.pinned
    modifies bc.buf
    ensures bc.Valid() && Represents(bc.buf[..], bc.disk, t.(pinned := t.pinned - {n}), mine)
    ensures forall c: nat, k: nat :: BC.Holds(bc.buf[..], c, DEV, k) <==> BC.Holds(old(bc.buf[..]), c, DEV, k)
  {
    ghost var h := bc.buf[..];
    assert BC.Unique(h) && |h| == BC.NBUF + 1;
    hide Represents, Drops, Refs, BC.Good, BC.SameLogical;
    DropsPin(h, bc.disk, t, mine, b, n);
    DroppedOk(h, bc.disk, t, mine, b, n, t.(pinned := t.pinned - {n}), mine);
    bc.Bunpin(b);
  }

  /** Two buffers to copy between: at most two blocks are evicted to get them. */
  ghost predicate Evicts2(l: Layout, s: State, e: State) { exists m: State :: Evicts(l, s, m) && Evicts(l, m, e) }

  /** There are buffers for both. */
  predicate Room(s: State, to: nat, from: nat) { |InUse(s, {to, from})| <= BC.NBUF }

  lemma RoomFor(s: State, mine: set<nat>, n: nat, all: set<nat>)
    requires n !in InUse(s, mine) && |InUse(s, all)| <= BC.NBUF && mine + {n} <= all
    ensures |InUse(s, mine)| < BC.NBUF
  {
    SubsetSize(InUse(s, mine) + {n}, InUse(s, all));
  }

  /** No more blocks than buffers are in use. */
  lemma RoomMade(bc: BC.BufferCache, s: State, mine: set<nat>)
    requires bc.Valid() && Represents(bc.buf[..], bc.disk, s, mine)
    ensures |InUse(s, mine)| <= BC.NBUF
  {
    ReferencedBlocks(bc.buf[..], bc.disk, s, mine);
    AllOrFewer(Referenced(bc.buf[..]), BC.NBUF);
  }

  lemma UsedIsCached(h: seq<BC.Buf>, d: BC.Disk, s: State, mine: set<nat>, n: nat)
    requires Represents(h, d, s, mine) && n !in s.cache
    ensures n !in InUse(s, mine)
  {
  }

  /** Both blocks in the cache. */
  function Both(e: State, to: nat, from: nat): State
    requires to < |e.disk| && from < |e.disk|
  {
    Cached(Cached(e, to), from)
  }

  lemma SameUse(l: Layout, s: State, e: State)
    requires Evicts(l, s, e)
    ensures e == s.(cache := e.cache)
  {
  }

  /** Reading a block and then evicting another is evicting first. */
  lemma EvictFirst(l: Layout, e: State, to: nat, m: nat)
    requires to < |e.disk| && m != to && m in Cached(e, to).cache && Enabled(l, Cached(e, to), Evict(m))
    ensures Evicts(l, e, Evicted(e, m)) && Cached(Evicted(e, m), to) == Evicted(Cached(e, to), m)
  {
    var x := Evicted(e, m);
    assert Enabled(l, e, Evict(m));
    assert Seen(x.disk, x.cache, to) == Seen(e.disk, e.cache, to);
    assert x.cache[to := Seen(x.disk, x.cache, to)] == Evicted(Cached(e, to), m).cache;
  }

  /** Evicting for the second block does not touch the first. */
  lemma SecondEviction(l: Layout, e: State, to: nat, e': State) returns (x: State)
    requires to < |e.disk| && Evicts(l, Cached(e, to), e') && to in e'.cache
    ensures Evicts(l, e, x) && x == e.(cache := x.cache) && Cached(x, to) == e'
  {
    var t := Cached(e, to);
    if e' == t {
      x := e;
    } else {
      var m: nat :| m in t.cache && Enabled(l, t, Evict(m)) && e' == Evicted(t, m);
      x := Evicted(e, m);
      EvictFirst(l, e, to, m);
    }
  }

  lemma TwoEvictions(l: Layout, s: State, m: State, e: State)
    requires Evicts(l, s, m) && Evicts(l, m, e)
    ensures Evicts2(l, s, e)
  {
  }

  /** bread of the second buffer. */
  method LoadSecond(bc: BC.BufferCache, to: nat, from: nat, ghost l: Layout, ghost s: State)
    returns (c: nat, ghost e: State)
    requires to < |s.disk| && from < |s.disk| && to != from
    requires bc.Valid() && Represents(bc.buf[..], bc.disk, Cached(s, to), {to})
    modifies bc.buf
    ensures bc.Valid() && (c != BC.HEAD <==> Room(s, to, from)) && Evicts(l, s, e) && e == s.(cache := e.cache)
    ensures c != BC.HEAD ==> Represents(bc.buf[..], bc.disk, Both(e, to, from), {to, from})
    ensures c != BC.HEAD ==> BC.Holds(bc.buf[..], c, DEV, from)
    ensures c != BC.HEAD ==> forall b: nat :: BC.Holds(old(bc.buf[..]), b, DEV, to) ==> BC.Holds(bc.buf[..], b, DEV, to)
  {
    hide Represents, Seen, BC.Good;
    ghost var e';
    c, e := 0, s;
    ghost var t := Cached(s, to);
    c, e' := Load(bc, from, l, t, {to});
    if c == BC.HEAD {
      hide Evicts;
      UsedIsCached(bc.buf[..], bc.disk, t, {to}, from);
      if Room(s, to, from) { RoomFor(t, {to}, from, {to, from}); }
      return;
    }
    hide Evicts;
    assert {to} + {from} == {to, from};
    StillThere(bc.buf[..], bc.disk, e', to, from);
    e := SecondEviction(l, s, to, e');
    RoomMade(bc, Both(e, to, from), {to, from});
  }

  lemma StillThere(h: seq<BC.Buf>, d: BC.Disk, e: State, to: nat, from: nat)
    requires from < |e.disk| && Represents(h, d, Cached(e, from), {to, from}) && to != from
    ensures to in e.cache
  {
  }

  /** bread of the two buffers of a copy. */
  method LoadBoth(bc: BC.BufferCache, to: nat, from: nat, ghost l: Layout, ghost s: State)
    returns (ok: bool, b: nat, c: nat, ghost e: State)
    requires bc.Valid() && Represents(bc.buf[..], bc.disk, s, {}) && to < |s.disk| && from < |s.disk| && to != from
    modifies bc.buf
    ensures bc.Valid() && (ok <==> Room(s, to, from)) && e == s.(cache := e.cache)
    ensures ok ==> Evicts2(l, s, e) && Represents(bc.buf[..], bc.disk, Both(e, to, from), {to, from})
    ensures ok ==> BC.Holds(bc.buf[..], b, DEV, to) && BC.Holds(bc.buf[..], c, DEV, from)
  {
    ghost var e1;
    hide Represents, Seen, Evicts, Evicts2, BC.Good;
    c, e, ok := 0, s, false;
    b, e1 := Load(bc, to, l, s, {});
    if b == BC.HEAD {
      UsedIsCached(bc.buf[..], bc.disk, s, {}, to);
      if Room(s, to, from) { RoomFor(s, {}, to, {to, from}); }
      return;
    }
    assert {} + {to} == {to};
    SameUse(l, s, e1);
    ghost var e2;
    c, e2 := LoadSecond(bc, to, from, l, e1);
    if c != BC.HEAD {
      TwoEvictions(l, s, e1, e2);
      e, ok := e2, true;
    }
  }

  /** Nobody's unwritten data are in this block's buffer. */
  predicate Settled(s: State, n: nat) {
    n < |s.disk| && (n !in s.held && n !in s.pinned ==> Seen(s.disk, s.cache, n) == s.disk[n])
  }

  lemma EvictsSettled(l: Layout, s: State, e: State, n: nat)
    requires Evicts2(l, s, e) && Settled(s, n)
    ensures Settled(e, n)
  {
  }

  /** The state after a copy, with both buffers still referred to. */
  function CopiedIn(e: State, to: nat, from: nat): State
    requires to < |e.disk| && from < |e.disk|
  {
    Stored(Both(e, to, from), to, Seen(e.disk, e.cache, from))
  }

  lemma BothOrders(e: State, to: nat, from: nat)
    requires to < |e.disk| && from < |e.disk| && to != from
    ensures Both(e, to, from) == Both(e, from, to) && {to, from} == {from, to}
    ensures from in Both(e, to, from).cache && Both(e, to, from).cache[from] == Seen(e.disk, e.cache, from)
  {
    assert e.cache[to := Seen(e.disk, e.cache, to)][from := Seen(e.disk, e.cache, from)] ==
           e.cache[from := Seen(e.disk, e.cache, from)][to := Seen(e.disk, e.cache, to)];
  }

  lemma CopiedInIs(e: State, to: nat, from: nat)
    requires to < |e.disk| && from < |e.disk| && to != from
    ensures CopiedIn(e, to, from) == Copied(e, to, from)
  {
    var data := Seen(e.disk, e.cache, from);
    assert e.cache[to := Seen(e.disk, e.cache, to)][from := data][to := data] == e.cache[from := data][to := data];
  }

  lemma DropFrom(e: State, to: nat, from: nat, u: State)
    requires to < |e.disk| && from < |e.disk| && to != from && Settled(e, from)
    requires u == CopiedIn(e, to, from).(pinned := u.pinned) && e.pinned - {to} <= u.pinned <= e.pinned
    ensures Drops(u, {to, from}, from, u, {to})
  {
    BothOrders(e, to, from);
  }

  lemma DropTo(e: State, to: nat, from: nat, u: State)
    requires to < |e.disk| && from < |e.disk| && to != from
    requires u == CopiedIn(e, to, from).(pinned := u.pinned)
    ensures Drops(u, {to}, to, u, {})
  {
  }

  /** The data a buffer has. */
  lemma DataOf(h: seq<BC.Buf>, d: BC.Disk, t: State, mine: set<nat>, c: nat, n: nat)
    requires Represents(h, d, t, mine) && BC.Holds(h, c, DEV, n)
    ensures n in t.cache && h[c].data == t.cache[n]
  {
    assert BufOk(t, mine, h[c]);
  }

  /** bread of both buffers, in the order of write_log or of install_trans. */
  method LoadPair(bc: BC.BufferCache, to: nat, from: nat, install: bool, ghost l: Layout, ghost s: State)
    returns (ok: bool, b: nat, c: nat, ghost e: State)
    requires bc.Valid() && Represents(bc.buf[..], bc.disk, s, {}) && to < |s.disk| && from < |s.disk| && to != from
    modifies bc.buf
    ensures bc.Valid() && (ok <==> Room(s, to, from)) && e == s.(cache := e.cache)
    ensures ok ==> Evicts2(l, s, e) && Represents(bc.buf[..], bc.disk, Both(e, to, from), {to, from})
    ensures ok ==> BC.Holds(bc.buf[..], b, DEV, to) && BC.Holds(bc.buf[..], c, DEV, from)
  {
    hide Represents, Evicts2, BC.Good, Both;
    if install {
      ok, c, b, e := LoadBoth(bc, from, to, l, s);
      BothOrders(e, to, from);
    } else {
      ok, b, c, e := LoadBoth(bc, to, from, l, s);
    }
  }

  function CopiedPinned(e: State, to: nat, from: nat, pinned: set<nat>): (t: State)
    ensures t == e.(disk := t.disk, cache := t.cache, pinned := pinned)
  {
    Copied(e, to, from).(pinned := pinned)
  }

  function StillPinned(s: State, to: nat, unpin: bool): set<nat> { if unpin then s.pinned - {to} else s.pinned }

  /** One turn of write_log or install_trans: bread of both blocks, memmove, bwrite, bunpin when a transaction is
      installed, brelse of both. */
  method Copy(bc: BC.BufferCache, to: nat, from: nat, install: bool, unpin: bool, ghost l: Layout, ghost s: State)
    returns (ok: bool, ghost e: State)
    requires bc.Valid() && Represents(bc.buf[..], bc.disk, s, {}) && to < |s.disk| && to != from && Settled(s, from)
    requires unpin ==> to in s.pinned
    modifies bc.buf, bc`disk, bc`ring, bc`stamp, bc`clock
    ensures bc.Valid() && (ok <==> Room(s, to, from)) && e == s.(cache := e.cache)
    ensures ok ==> Evicts2(l, s, e) &&
                   Represents(bc.buf[..], bc.disk, CopiedPinned(e, to, from, StillPinned(s, to, unpin)), {})
  {
    hide Represents, Evicts2, Drops, BC.Good, Copied, Seen, Room;
    var b, c;
    ok, b, c, e := LoadPair(bc, to, from, install, l, s);
    if !ok {
      return;
    }
    EvictsSettled(l, s, e, from);
    BothOrders(e, to, from);
    DataOf(bc.buf[..], bc.disk, Both(e, to, from), {to, from}, c, from);
    var data := bc.buf[c].data;
    Write(bc, b, to, data, Both(e, to, from), {to, from});
    ghost var u := CopiedIn(e, to, from);
    CopiedInIs(e, to, from);
    if unpin {
      Unpin(bc, b, to, u, {to, from});
    }
    Finish(bc, b, c, to, from, e, u.(pinned := StillPinned(s, to, unpin)));
  }

  /** brelse of both. */
  method Finish(bc: BC.BufferCache, b: nat, c: nat, to: nat, from: nat, ghost e: State, ghost u: State)
    requires bc.Valid() && Represents(bc.buf[..], bc.disk, u, {to, from})
    requires BC.Holds(bc.buf[..], b, DEV, to) && BC.Holds(bc.buf[..], c, DEV, from)
    requires to < |e.disk| && from < |e.disk| && to != from && Settled(e, from)
    requires u == CopiedIn(e, to, from).(pinned := u.pinned) && e.pinned - {to} <= u.pinned <= e.pinned
    modifies bc.buf, bc`ring, bc`stamp, bc`clock
    ensures bc.Valid() && Represents(bc.buf[..], bc.disk, u, {})
  {
    hide Represents, Drops, BC.Good, CopiedIn, Settled;
    DropFrom(e, to, from, u);
    DropTo(e, to, from, u);
    Drop(bc, c, from, u, {to, from}, u, {to});
    Drop(bc, b, to, u, {to}, u, {});
  }

  /** write_head: bread of the header block, the numbers into it, bwrite, brelse. */
  method WriteHead(bc: BC.BufferCache, blocks: seq<nat>, l: Layout, ghost s: State) returns (ok: bool, ghost e: State)
    requires bc.Valid() && Represents(bc.buf[..], bc.disk, s, {}) && Settled(s, l.start) && |blocks| <= LOGSIZE
    modifies bc.buf, bc`disk, bc`ring, bc`stamp, bc`clock
    ensures bc.Valid() && (ok <==> l.start in s.cache || |s.held.Keys + s.pinned| < BC.NBUF) &&
            e == s.(cache := e.cache)
    ensures ok ==> Evicts(l, s, e) && Represents(bc.buf[..], bc.disk, Headed(l, e, blocks), {})
  {
    hide Represents, Evicts, Drops, BC.Good, Seen, HeadBlock;
    var b;
    assert InUse(s, {}) == s.held.Keys + s.pinned;
    b, e := Load(bc, l.start, l, s, {});
    ok := b != BC.HEAD;
    if !ok {
      e := s;
      return;
    }
    SameUse(l, s, e);
    assert {} + {l.start} == {l.start};
    DataOf(bc.buf[..], bc.disk, Cached(e, l.start), {l.start}, b, l.start);
    var header := bc.buf[b].data;
    var data := HeadBlock(header, blocks);
    Write(bc, b, l.start, data, Cached(e, l.start), {l.start});
    HeadedIs(l, e, blocks);
    Drop(bc, b, l.start, Headed(l, e, blocks), {l.start}, Headed(l, e, blocks), {});
  }

  lemma HeadedIs(l: Layout, e: State, blocks: seq<nat>)
    requires l.start < |e.disk| && |blocks| <= LOGSIZE
    ensures Stored(Cached(e, l.start), l.start, HeadBlock(Seen(e.disk, e.cache, l.start), blocks)) == Headed(l, e,
                                                                                                             blocks)
    ensures Drops(Headed(l, e, blocks), {l.start}, l.start, Headed(l, e, blocks), {})
  {
    var was, data := Seen(e.disk, e.cache, l.start), HeadBlock(Seen(e.disk, e.cache, l.start), blocks);
    assert e.cache[l.start := was][l.start := data] == e.cache[l.start := data];
  }

  // ---------------------------------------------------------------- commit and recovery

  /** The protocol takes this step, after at most two evictions. */
  ghost predicate StepsTo(l: Layout, s: State, a: Action, s': State) {
    Inv(l, s') && exists steps: seq<Action> ::
      |steps| <= 2 && (forall x :: x in steps ==> x.Evict?) && Run(l, s, steps + [a], s')
  }

  lemma Evicts2Run(l: Layout, s: State, e: State) returns (steps: seq<Action>)
    requires Inv(l, s) && Evicts2(l, s, e)
    ensures Run(l, s, steps, e) && Inv(l, e) && |steps| <= 2 && forall a :: a in steps ==> a.Evict?
  {
    var m: State :| Evicts(l, s, m) && Evicts(l, m, e);
    hide Inv, Run, Evicts;
    var first := EvictsRun(l, s, m);
    var second := EvictsRun(l, m, e);
    steps := first + second;
    RunThen(l, s, first, m, second, e);
  }

  lemma TurnDone(l: Layout, s: State, e: State, a: Action)
    requires Inv(l, s) && Evicts2(l, s, e) && e == s.(cache := e.cache) && Enabled(l, s, a) &&
             (a.CommitStep? || a.RecoverStep?)
    ensures Enabled(l, e, a) && |e.blocks| <= LOGSIZE && GoodHeader(l, e.disk) && StepsTo(l, s, a, Next(l, e, a))
  {
    hide Inv, Run, Evicts2, Next;
    var steps := Evicts2Run(l, s, e);
    HeaderKnown(l, e);
    StepRefines(l, e, a);
    RunSnoc(l, s, steps, e, a);
  }

  lemma OneEviction(l: Layout, s: State, e: State)
    requires Evicts(l, s, e)
    ensures Evicts2(l, s, e)
  {
    assert Evicts(l, e, e);
  }

  /** A copy between a block in use and one that is not takes one more buffer. */
  lemma RoomForOne(s: State, to: nat, from: nat, used: nat, other: nat)
    requires {to, from} == {used, other} && used in InUse(s, {}) && other !in InUse(s, {})
    ensures Room(s, to, from) <==> |s.held.Keys + s.pinned| < BC.NBUF
  {
    assert InUse(s, {to, from}) == (s.held.Keys + s.pinned) + {other};
  }

  lemma WriteLogReady(l: Layout, s: State)
    requires Inv(l, s) && s.phase.Logging? && s.phase.k < |s.blocks|
    ensures var to, from := l.start + 1 + s.phase.k, s.blocks[s.phase.k];
            to < |s.disk| && to != from && Settled(s, from) &&
            (Room(s, to, from) <==> |s.held.Keys + s.pinned| < BC.NBUF)
  {
    var to, from := l.start + 1 + s.phase.k, s.blocks[s.phase.k];
    assert NamesHome(l, s.disk, from);
    FindIndex(s.blocks, s.phase.k);
    assert BufferGood(l, s, from);
    LogAreaClean(l, s, to);
    RoomForOne(s, to, from, from, to);
  }

  lemma InstallReady(l: Layout, s: State)
    requires Inv(l, s) && s.phase.Installing? && s.phase.k < |s.blocks|
    ensures var to, from := s.blocks[s.phase.k], l.start + 1 + s.phase.k;
            to < |s.disk| && to != from && Settled(s, from) && to in s.pinned &&
            (Room(s, to, from) <==> |s.held.Keys + s.pinned| < BC.NBUF)
  {
    var to, from := s.blocks[s.phase.k], l.start + 1 + s.phase.k;
    assert NamesHome(l, s.disk, to);
    FindIndex(s.blocks, s.phase.k);
    assert BufferGood(l, s, to);
    LogAreaClean(l, s, from);
    RoomForOne(s, to, from, to, from);
  }

  /** Recovery has the cache to itself. */
  lemma NothingInUse(l: Layout, s: State)
    requires Inv(l, s) && (s.phase.Booting? || s.phase.Recovering?)
    ensures s.held.Keys == {} && s.pinned == {}
  {
    forall n: nat ensures n !in s.pinned {
      assert BufferGood(l, s, n);
    }
  }

  lemma RecoverReady(l: Layout, s: State)
    requires Inv(l, s) && s.phase.Recovering? && s.phase.k < |s.blocks|
    ensures var to, from := s.blocks[s.phase.k], l.start + 1 + s.phase.k;
            to < |s.disk| && to != from && Settled(s, from) && Room(s, to, from)
  {
    hide LogGood, CacheGood, PhaseGood, Room;
    LoggedApart(l, s, s.phase.k);
    LogAreaClean(l, s, l.start + 1 + s.phase.k);
    NothingInUse(l, s);
    RoomWhenIdle(s, s.blocks[s.phase.k], l.start + 1 + s.phase.k);
  }

  lemma LoggedApart(l: Layout, s: State, k: nat)
    requires LogGood(l, s) && k < |s.blocks|
    ensures s.blocks[k] < |s.disk| && l.start + 1 + k < |s.disk| && !IsHome(l, l.start + 1 + k)
    ensures s.blocks[k] != l.start + 1 + k
  {
    assert NamesHome(l, s.disk, s.blocks[k]);
  }

  lemma RoomWhenIdle(s: State, to: nat, from: nat)
    requires s.held.Keys == {} && s.pinned == {}
    ensures Room(s, to, from)
  {
    assert InUse(s, {to, from}) == {to, from};
  }

  lemma HeadReady(l: Layout, s: State)
    requires Inv(l, s)
    ensures Settled(s, l.start)
  {
    LogAreaClean(l, s, l.start);
  }

  /** A buffer for the next step of commit. */
  predicate CommitRoom(l: Layout, s: State) {
    |s.held.Keys + s.pinned| < BC.NBUF ||
    (l.start in s.cache && (s.phase.Logging? || s.phase.Installing?) && s.phase.k >= |s.blocks|)
  }

  /** A turn of a copying loop is the protocol's step. */
  lemma CopyDone(h: seq<BC.Buf>, d: BC.Disk, l: Layout, s: State, e: State, a: Action, to: nat, from: nat)
    returns (s': State)
    requires Inv(l, s) && Evicts2(l, s, e) && e == s.(cache := e.cache) && Enabled(l, s, a)
    requires a == (if s.phase.Recovering? then RecoverStep else CommitStep) && !s.phase.Booting? &&
             s.phase.k < |s.blocks|
    requires to == if s.phase.Logging? then l.start + 1 + s.phase.k else s.blocks[s.phase.k]
    requires from == if s.phase.Logging? then s.blocks[s.phase.k] else l.start + 1 + s.phase.k
    requires Represents(h, d, CopiedPinned(e, to, from, StillPinned(s, to, s.phase.Installing?)), {})
    ensures Represents(h, d, s', {}) && StepsTo(l, s, a, s')
  {
    hide Represents, Evicts2, Inv, StepsTo;
    TurnDone(l, s, e, a);
    s' := Next(l, e, a);
    LogFieldsOk(h, d, CopiedPinned(e, to, from, StillPinned(s, to, s.phase.Installing?)), s');
  }

  method WriteLogTurn(bc: BC.BufferCache, k: nat, blocks: seq<nat>, l: Layout, ghost s: State)
    returns (ok: bool, ghost s': State)
    requires bc.Valid() && Represents(bc.buf[..], bc.disk, s, {}) && Inv(l, s) && Enabled(l, s, CommitStep)
    requires s.phase == Logging(k) && k < |blocks| && blocks == s.blocks
    modifies bc.buf, bc`disk, bc`ring, bc`stamp, bc`clock
    ensures bc.Valid() && (ok <==> |s.held.Keys + s.pinned| < BC.NBUF)
    ensures ok ==> Represents(bc.buf[..], bc.disk, s', {}) && StepsTo(l, s, CommitStep, s')
  {
    hide Represents, Evicts2, BC.Good, Inv, StepsTo, Copied, Settled, Room, Enabled, Next;
    ghost var e;
    s' := s;
    WriteLogReady(l, s);
    ok, e := Copy(bc, l.start + 1 + k, blocks[k], false, false, l, s);
    if ok {
      s' := CopyDone(bc.buf[..], bc.disk, l, s, e, CommitStep, l.start + 1 + k, blocks[k]);
    }
  }

  method InstallTurn(bc: BC.BufferCache, k: nat, blocks: seq<nat>, l: Layout, ghost s: State)
    returns (ok: bool, ghost s': State)
    requires bc.Valid() && Represents(bc.buf[..], bc.disk, s, {}) && Inv(l, s) && Enabled(l, s, CommitStep)
    requires s.phase == Installing(k) && k < |blocks| && blocks == s.blocks
    modifies bc.buf, bc`disk, bc`ring, bc`stamp, bc`clock
    ensures bc.Valid() && (ok <==> |s.held.Keys + s.pinned| < BC.NBUF)
    ensures ok ==> Represents(bc.buf[..], bc.disk, s', {}) && StepsTo(l, s, CommitStep, s')
  {
    hide Represents, Evicts2, BC.Good, Inv, StepsTo, Copied, Settled, Room, Enabled, Next;
    ghost var e;
    s' := s;
    InstallReady(l, s);
    ok, e := Copy(bc, blocks[k], l.start + 1 + k, true, true, l, s);
    if ok {
      s' := CopyDone(bc.buf[..], bc.disk, l, s, e, CommitStep, blocks[k], l.start + 1 + k);
    }
  }

  /** write_head after all of write_log or of install_trans. */
  method HeadTurn(bc: BC.BufferCache, names: seq<nat>, l: Layout, ghost s: State, ghost a: Action)
    returns (ok: bool, ghost s': State)
    requires bc.Valid() && Represents(bc.buf[..], bc.disk, s, {}) && Inv(l, s) && Enabled(l, s, a)
    requires a == (if s.phase.Recovering? then RecoverStep else CommitStep) && !s.phase.Booting? &&
             s.phase.k >= |s.blocks|
    requires names == if s.phase.Logging? then s.blocks else []
    modifies bc.buf, bc`disk, bc`ring, bc`stamp, bc`clock
    ensures bc.Valid() && (ok <==> l.start in s.cache || |s.held.Keys + s.pinned| < BC.NBUF)
    ensures ok ==> Represents(bc.buf[..], bc.disk, s', {}) && StepsTo(l, s, a, s')
  {
    HeaderKnown(l, s);
    hide Represents, Evicts, Evicts2, BC.Good, Inv, StepsTo, Headed, Settled;
    ghost var e;
    s' := s;
    HeadReady(l, s);
    ok, e := WriteHead(bc, names, l, s);
    if ok {
      OneEviction(l, s, e);
      TurnDone(l, s, e, a);
      s' := Next(l, e, a);
      HeadedKeeps(l, e, names);
      LogFieldsOk(bc.buf[..], bc.disk, Headed(l, e, names), s');
    }
  }

  lemma HeadedKeeps(l: Layout, e: State, names: seq<nat>)
    requires |names| <= LOGSIZE
    ensures Headed(l, e, names) == e.(disk := Headed(l, e, names).disk, cache := Headed(l, e, names).cache)
  {
  }

  /** Each step of commit is bread, bwrite, bunpin and brelse on the buffers, and goes through if and only if a buffer
      is left for it. */
  method CommitTurn(bc: BC.BufferCache, phase: Phase, blocks: seq<nat>, l: Layout, ghost s: State)
    returns (ok: bool, ghost s': State)
    requires bc.Valid() && Represents(bc.buf[..], bc.disk, s, {}) && Inv(l, s) && phase == s.phase && blocks == s.blocks
    requires phase.Logging? || phase.Installing?
    requires phase.k < |blocks| ==> blocks[phase.k] !in s.held
    modifies bc.buf, bc`disk, bc`ring, bc`stamp, bc`clock
    ensures bc.Valid() && (ok <==> CommitRoom(l, s))
    ensures ok ==> Represents(bc.buf[..], bc.disk, s', {}) && StepsTo(l, s, CommitStep, s')
  {
    hide Represents, BC.Good, Inv, StepsTo;
    if phase.k >= |blocks| {
      ok, s' := HeadTurn(bc, if phase.Logging? then blocks else [], l, s, CommitStep);
    } else if phase.Logging? {
      ok, s' := WriteLogTurn(bc, phase.k, blocks, l, s);
    } else {
      ok, s' := InstallTurn(bc, phase.k, blocks, l, s);
    }
  }

  method RecoverCopy(bc: BC.BufferCache, k: nat, blocks: seq<nat>, l: Layout, ghost s: State) returns (ghost s': State)
    requires bc.Valid() && Represents(bc.buf[..], bc.disk, s, {}) && Inv(l, s)
    requires s.phase == Recovering(k) && k < |blocks| && blocks == s.blocks
    modifies bc.buf, bc`disk, bc`ring, bc`stamp, bc`clock
    ensures bc.Valid() && Represents(bc.buf[..], bc.disk, s', {}) && StepsTo(l, s, RecoverStep, s')
  {
    hide Represents, Evicts2, BC.Good, Inv, StepsTo, Copied, Settled, Room;
    RecoverReady(l, s);
    var ok;
    ghost var e;
    ok, e := Copy(bc, blocks[k], l.start + 1 + k, true, false, l, s);
    s' := CopyDone(bc.buf[..], bc.disk, l, s, e, RecoverStep, blocks[k], l.start + 1 + k);
  }

  /** Recovery never lacks a buffer. */
  method RecoverTurn(bc: BC.BufferCache, k: nat, blocks: seq<nat>, l: Layout, ghost s: State) returns (ghost s': State)
    requires bc.Valid() && Represents(bc.buf[..], bc.disk, s, {}) && Inv(l, s)
    requires s.phase == Recovering(k) && blocks == s.blocks
    modifies bc.buf, bc`disk, bc`ring, bc`stamp, bc`clock
    ensures bc.Valid() && Represents(bc.buf[..], bc.disk, s', {}) && StepsTo(l, s, RecoverStep, s')
  {
    NothingInUse(l, s);
    hide Represents, BC.Good, Inv, StepsTo;
    if k < |blocks| {
      s' := RecoverCopy(bc, k, blocks, l, s);
    } else {
      assert |s.held.Keys + s.pinned| == 0;
      var ok;
      ok, s' := HeadTurn(bc, [], l, s, RecoverStep);
    }
  }

  lemma BootReady(l: Layout, s: State)
    requires Inv(l, s) && s.phase.Booting?
    ensures s.cache == map[] && GoodHeader(l, s.disk) && |s.blocks| <= LOGSIZE && l.start < |s.disk|
    ensures Cached(s, l.start) == s.(cache := map[l.start := s.disk[l.start]])
    ensures Drops(Cached(s, l.start), {l.start}, l.start, Cached(s, l.start), {})
    ensures StepsTo(l, s, RecoverStep, Next(l, s, RecoverStep))
    ensures Next(l, s, RecoverStep) ==
            Cached(s, l.start).(blocks := HeaderNames(l, s.disk), phase := Recovering(0))
  {
    NothingInUse(l, s);
    assert Evicts(l, s, s);
    TurnDone(l, s, s, RecoverStep);
  }

  /** The loop of read_head. */
  method NamesIn(data: Block, ghost l: Layout, ghost d: Disk) returns (blocks: seq<nat>)
    requires GoodHeader(l, d) && data == d[l.start]
    ensures blocks == HeaderNames(l, d)
  {
    blocks := [];
    for i := 0 to data[0]
      invariant blocks == HeaderNames(l, d)[..i]
    {
      assert NamesHome(l, d, Named(d[l.start], i));
      blocks := blocks + [Named(data, i)];
    }
  }

  /** read_head: what it reads is what the protocol goes on with. */
  method ReadHead(bc: BC.BufferCache, l: Layout, ghost s: State) returns (blocks: seq<nat>, ghost s': State)
    requires bc.Valid() && Represents(bc.buf[..], bc.disk, s, {}) && Inv(l, s) && s.phase.Booting?
    modifies bc.buf, bc`ring, bc`stamp, bc`clock
    ensures bc.Valid() && Represents(bc.buf[..], bc.disk, s', {}) && StepsTo(l, s, RecoverStep, s')
    ensures s'.blocks == blocks && s'.phase == Recovering(0)
  {
    NothingInUse(l, s);
    BootReady(l, s);
    hide Represents, BC.Good, Inv, StepsTo, Drops;
    assert |InUse(s, {})| == 0;
    ghost var e;
    var b;
    b, e := Load(bc, l.start, l, s, {});
    assert e == s;
    assert {} + {l.start} == {l.start};
    DataOf(bc.buf[..], bc.disk, Cached(s, l.start), {l.start}, b, l.start);
    blocks := NamesIn(bc.buf[b].data, l, s.disk);
    Drop(bc, b, l.start, Cached(s, l.start), {l.start}, Cached(s, l.start), {});
    s' := Next(l, s, RecoverStep);
    LogFieldsOk(bc.buf[..], bc.disk, Cached(s, l.start), s');
  }

  /** After a crash the cache is that of binit, and the disk is what it was. */
  lemma CrashedOk(h: seq<BC.Buf>, d: BC.Disk, s: State)
    requires |h| == BC.NBUF + 1 && forall c: nat :: c < BC.NBUF ==> h[c].dev == 0 && h[c].refcnt == 0
    requires forall n: nat :: n < |s.disk| ==> BC.OnDisk(d, DEV, n) == s.disk[n]
    ensures Represents(h, d, State(s.disk, map[], map[], {}, {}, [], map[], Booting), {})
  {
  }

  // ---------------------------------------------------------------- when commit has a buffer

  lemma {:induction false} NumberOf(blocks: seq<nat>, all: set<nat>)
    requires Distinct(blocks) && forall n: nat :: n in all <==> n in blocks
    ensures |all| == |blocks|
  {
    if blocks == [] {
      assert all == {};
    } else {
      var last, rest := blocks[|blocks| - 1], blocks[..|blocks| - 1];
      assert blocks == rest + [last];
      NumberOf(rest, all - {last});
    }
  }

  lemma AllPinned(l: Layout, s: State)
    requires Inv(l, s) && s.phase.Logging?
    ensures |s.pinned| == |s.blocks|
  {
    forall n: nat ensures n in s.pinned <==> n in s.blocks {
      assert BufferGood(l, s, n);
    }
    NumberOf(s.blocks, s.pinned);
  }

  /** While the log is being written, commit has a buffer if and only if its blocks and those that readers hold leave
      one. */
  lemma CommitRoomIff(l: Layout, s: State)
    requires Inv(l, s) && s.phase.Logging? && s.phase.k < |s.blocks|
    ensures |s.pinned| == |s.blocks| && (CommitRoom(l, s) <==> |s.blocks| + |s.held.Keys - s.pinned| < BC.NBUF)
  {
    AllPinned(l, s);
    hide Inv;
    assert s.held.Keys + s.pinned == s.pinned + (s.held.Keys - s.pinned);
    UnionSize(s.pinned, s.held.Keys - s.pinned);
  }
}
