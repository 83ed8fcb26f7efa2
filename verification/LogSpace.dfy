/**
 Log space: begin_op of kernel/log.c admits an operation only if every operation already
 admitted could still log MAXOPBLOCKS blocks.

 Budgets are a parameter: operations that log less leave more of the log unused.
 */
module LogSpace {
  import opened LogDisk
  import opened Params
  import opened RedoLog
  import opened LogProtocol

  /** Blocks the operations `ops` may still add to the log. */
  ghost function Unspent(active: map<Op, set<nat>>, ops: set<Op>, budget: nat): int
    requires ops <= active.Keys
    decreases ops
  {
    if ops == {} then 0
    else var op :| op in ops; budget - |active[op]| + Unspent(active, ops - {op}, budget)
  }

  lemma {:induction false} UnspentRemove(active: map<Op, set<nat>>, ops: set<Op>, budget: nat, op: Op)
    requires op in ops && ops <= active.Keys
    ensures Unspent(active, ops, budget) == budget - |active[op]| + Unspent(active, ops - {op}, budget)
    decreases ops
  {
    var c :| c in ops && Unspent(active, ops, budget) == budget - |active[c]| + Unspent(active, ops - {c}, budget);
    if c != op {
      UnspentRemove(active, ops - {c}, budget, op);
      UnspentRemove(active, ops - {op}, budget, c);
      assert ops - {c} - {op} == ops - {op} - {c};
    }
  }

  lemma {:induction false} UnspentFrame(active: map<Op, set<nat>>, active': map<Op, set<nat>>, ops: set<Op>,
                                        budget: nat)
    requires ops <= active.Keys && ops <= active'.Keys && forall op :: op in ops ==> active'[op] == active[op]
    ensures Unspent(active', ops, budget) == Unspent(active, ops, budget)
    decreases ops
  {
    if ops != {} {
      var op :| op in ops;
      UnspentRemove(active, ops, budget, op);
      UnspentRemove(active', ops, budget, op);
      UnspentFrame(active, active', ops - {op}, budget);
    }
  }

  lemma {:induction false} UnspentBounds(active: map<Op, set<nat>>, ops: set<Op>, budget: nat)
    requires ops <= active.Keys && forall op :: op in ops ==> |active[op]| <= budget
    ensures 0 <= Unspent(active, ops, budget) <= |ops| * budget
    decreases ops
  {
    if ops != {} {
      var op :| op in ops;
      UnspentRemove(active, ops, budget, op);
      UnspentBounds(active, ops - {op}, budget);
      hide Unspent;
      OneMore(|ops - {op}|, |ops|, budget);
    }
  }

  lemma OneMore(n: nat, next: nat, budget: nat)
    requires next == n + 1
    ensures next * budget == n * budget + budget
  {
  }

  /** How full the log can get: each operation admitted had MAXOPBLOCKS reserved and uses its budget of that. */
  function Limit(budget: nat): int { LOGSIZE - MAXOPBLOCKS + budget }

  /** What the log holds and what the operations may still add fit into it, with room to spare if their budgets are
      smaller than what begin_op reserves. */
  ghost predicate Space(s: State, budget: nat) {
    |s.blocks| + Unspent(s.active, s.active.Keys, budget) <= (if Up(s) then Limit(budget) else LOGSIZE) &&
    (!Up(s) ==> s.active == map[]) &&
    forall op :: op in s.active ==> |s.active[op]| <= budget && forall b :: b in s.active[op] ==> b in s.blocks
  }

  /** An operation logs at most so many different blocks. */
  predicate WithinBudget(s: State, a: Action, budget: nat) {
    a.LogWrite? && a.op in s.active ==> |s.active[a.op] + {a.b}| <= budget
  }

  lemma SpaceLogWrite(s: State, op: Op, b: nat, budget: nat)
    requires Space(s, budget) && op in s.active && |s.active[op] + {b}| <= budget
    ensures Space(s.(blocks := Absorb(s.blocks, b), active := s.active[op := s.active[op] + {b}]), budget)
    ensures Up(s) && |s.blocks| <= Limit(budget) && (b !in s.blocks ==> |s.blocks| < Limit(budget))
  {
    var active' := s.active[op := s.active[op] + {b}];
    var ops := s.active.Keys;
    assert active'.Keys == ops;
    assert Unspent(active', ops, budget) - Unspent(s.active, ops, budget) == |s.active[op]| - |active'[op]| by {
      UnspentRemove(s.active, ops, budget, op);
      UnspentRemove(active', ops, budget, op);
      UnspentFrame(s.active, active', ops - {op}, budget);
    }
    assert Unspent(s.active, ops, budget) >= budget - |s.active[op]| >= 0 by {
      UnspentRemove(s.active, ops, budget, op);
      UnspentBounds(s.active, ops - {op}, budget);
    }
    if b in s.active[op] { assert s.active[op] + {b} == s.active[op]; }
    else { assert |s.active[op] + {b}| == |s.active[op]| + 1; }
  }

  lemma SpaceBegin(s: State, op: Op, budget: nat)
    requires Space(s, budget) && Up(s) && op !in s.active && budget <= MAXOPBLOCKS
    requires |s.blocks| + (|s.active| + 1) * MAXOPBLOCKS <= LOGSIZE
    ensures Space(s.(active := s.active[op := {}]), budget)
  {
    var active' := s.active[op := {}];
    UnspentRemove(active', active'.Keys, budget, op);
    assert active'.Keys - {op} == s.active.Keys;
    UnspentFrame(s.active, active', s.active.Keys, budget);
    UnspentBounds(s.active, s.active.Keys, budget);
    assert |s.active.Keys| == |s.active|;
    hide Unspent;
    Reserved(|s.active|, budget);
  }

  lemma {:induction false} Reserved(n: nat, budget: nat)
    requires budget <= MAXOPBLOCKS
    ensures n * budget + budget <= n * MAXOPBLOCKS + MAXOPBLOCKS - (MAXOPBLOCKS - budget)
  {
    if n > 0 {
      Reserved(n - 1, budget);
      OneMore(n - 1, n, budget);
    }
  }

  lemma SpaceEnd(s: State, op: Op, budget: nat)
    requires Space(s, budget) && op in s.active
    ensures Space(s.(active := s.active - {op}), budget)
  {
    var active' := s.active - {op};
    UnspentRemove(s.active, s.active.Keys, budget, op);
    assert active'.Keys == s.active.Keys - {op};
    UnspentFrame(s.active, active', active'.Keys, budget);
  }

  lemma SpaceStep(l: Layout, s: State, a: Action, budget: nat)
    requires Inv(l, s) && Space(s, budget) && Enabled(l, s, a) && WithinBudget(s, a, budget) && budget <= MAXOPBLOCKS
    ensures Space(Next(l, s, a), budget)
  {
    match a
    case LogWrite(op, b) => SpaceLogWrite(s, op, b, budget);
    case Begin(op) => SpaceBegin(s, op, budget);
    case End(op) => SpaceEnd(s, op, budget);
    case _ => SpaceOther(l, s, a, budget);
  }

  /** Steps of the buffers, of commit and of recovery. */
  lemma SpaceOther(l: Layout, s: State, a: Action, budget: nat)
    requires Inv(l, s) && Space(s, budget) && Enabled(l, s, a) && budget <= MAXOPBLOCKS
    requires !a.LogWrite? && !a.Begin? && !a.End?
    ensures Space(Next(l, s, a), budget)
  {
    var none: map<Op, set<nat>> := map[];
    assert Unspent(none, none.Keys, budget) == 0;
    hide Unspent, CacheGood;
    assert s.active == map[] ==> s.active.Keys == {};
  }

  /** Every action of the run is within its operation's budget. */
  predicate BudgetedRun(l: Layout, s: State, run: seq<Action>, s': State, budget: nat)
    decreases |run|
  {
    if run == [] then s' == s
    else
      Enabled(l, s, run[0]) && |s.blocks| <= LOGSIZE && GoodHeader(l, s.disk) && WithinBudget(s, run[0], budget) &&
      BudgetedRun(l, Next(l, s, run[0]), run[1..], s', budget)
  }

  lemma {:induction false} BudgetedIsRun(l: Layout, s: State, run: seq<Action>, s': State, budget: nat)
    requires BudgetedRun(l, s, run, s', budget)
    ensures Run(l, s, run, s')
    decreases |run|
  {
    hide Next, Enabled;
    if run != [] {
      BudgetedIsRun(l, Next(l, s, run[0]), run[1..], s', budget);
    }
  }

  /** As long as operations keep to their budgets, log plus reservations stay within the limit. */
  lemma {:induction false} SpaceAlways(l: Layout, s: State, run: seq<Action>, s': State, budget: nat)
    requires Inv(l, s) && Space(s, budget) && BudgetedRun(l, s, run, s', budget) && budget <= MAXOPBLOCKS
    ensures Inv(l, s') && Space(s', budget)
    decreases |run|
  {
    if run != [] {
      StepRefines(l, s, run[0]);
      SpaceStep(l, s, run[0], budget);
      SpaceAlways(l, Next(l, s, run[0]), run[1..], s', budget);
    }
  }

  lemma SpaceAtBoot(l: Layout, s: State, budget: nat)
    requires Init(l, s)
    ensures Inv(l, s) && Space(s, budget)
  {
    InitInv(l, s);
    assert s.active.Keys == {};
  }

  /** begin_op admits an operation exactly when ten blocks for it and for each one under way fit into the log besides
      what
      it holds already, and none is being committed or recovered. */
  lemma BeginIff(l: Layout, s: State, op: Op)
    requires op !in s.active
    ensures Enabled(l, s, Begin(op)) <==> s.phase == Running && |s.blocks| + 10 * |s.active| + 10 <= 30
  {
  }

  /** When log_write of a block that is held goes through for an operation within its budget: always for a block
      that is new to the log, as far as LOGSIZE goes; but the limits are tested before absorption, and the
      on-disk log must have room for one block more than it holds. */
  lemma LogWriteGoesThrough(l: Layout, s: State, op: Op, b: nat)
    requires Inv(l, s) && Space(s, MAXOPBLOCKS) && op in s.active && b in s.held && s.held[b] == op
    requires |s.active[op] + {b}| <= MAXOPBLOCKS
    ensures Enabled(l, s, LogWrite(op, b)) <==> |s.blocks| < l.size - 1 && (b !in s.blocks || |s.blocks| < LOGSIZE)
    ensures b !in s.blocks && l.size > LOGSIZE ==> Enabled(l, s, LogWrite(op, b))
  {
    SpaceLogWrite(s, op, b, MAXOPBLOCKS);
  }

  /** Operations that use less than is reserved for them never reach a limit, absorption included, if the log has as
      many
      blocks as they can fill and two more. */
  lemma NeverFull(l: Layout, s: State, run: seq<Action>, s': State, op: Op, b: nat, budget: nat)
    requires Init(l, s) && BudgetedRun(l, s, run, s', budget) && budget < MAXOPBLOCKS && l.size >= Limit(budget) + 2
    requires op in s'.active && b in s'.held && s'.held[b] == op && |s'.active[op] + {b}| <= budget
    ensures Enabled(l, s', LogWrite(op, b))
  {
    SpaceAtBoot(l, s, budget);
    SpaceAlways(l, s, run, s', budget);
    SpaceLogWrite(s', op, b, budget);
  }

  // ---------------------------------------------------------------- three operations that use up the log

  /** Home blocks behind the log. */
  function Base(l: Layout): nat { l.start + l.size }

  function Used(l: Layout, op: Op, k: nat): set<nat> {
    set i: nat | i < k && i / MAXOPBLOCKS == op :: Base(l) + i
  }

  function FilledBlocks(l: Layout, k: nat): (r: seq<nat>)
    ensures |r| == k && forall i :: 0 <= i < k ==> r[i] == Base(l) + i
  {
    if k == 0 then [] else FilledBlocks(l, k - 1) + [Base(l) + k - 1]
  }

  /** Operations 0, 1 and 2 have logged k blocks between them, ten at most each. */
  function Filled(l: Layout, d: Disk, k: nat): State
    requires Base(l) + k <= |d|
  {
    State(d, (map b: nat | Base(l) <= b < Base(l) + k :: d[b]), map[], {},
          (set b | b in FilledBlocks(l, k)), FilledBlocks(l, k),
          (map op: nat | op < 3 :: Used(l, op, k)), Running)
  }

  function FillActions(l: Layout, k: nat): seq<Action> {
    var op, b := k / MAXOPBLOCKS, Base(l) + k;
    [Acquire(op, b), LogWrite(op, b), Release(op, b)]
  }

  /** A run within budgets. */
  predicate Steps(l: Layout, s: State, run: seq<Action>, t: State) { BudgetedRun(l, s, run, t, MAXOPBLOCKS) }

  /** One step, spelt out. */
  predicate StepTo(l: Layout, s: State, a: Action, t: State) {
    |s.blocks| <= LOGSIZE && GoodHeader(l, s.disk) && Enabled(l, s, a) && Next(l, s, a) == t &&
    WithinBudget(s, a, MAXOPBLOCKS)
  }

  lemma RunOne(l: Layout, s: State, a: Action, t: State)
    requires StepTo(l, s, a, t)
    ensures Steps(l, s, [a], t)
  {
    assert [a][1..] == [];
  }

  lemma {:induction false} RunConcat(l: Layout, s: State, run: seq<Action>, t: State, run': seq<Action>, u: State)
    requires Steps(l, s, run, t) && Steps(l, t, run', u)
    ensures Steps(l, s, run + run', u)
    decreases |run|
  {
    hide Next, Enabled;
    if run == [] {
      assert run + run' == run';
    } else {
      var next := Next(l, s, run[0]);
      assert Steps(l, next, run[1..], t);
      RunConcat(l, next, run[1..], t, run', u);
      assert (run + run')[0] == run[0] && (run + run')[1..] == run[1..] + run';
    }
  }

  /** Three steps in a row. */
  lemma RunThree(l: Layout, s: State, a: Action, s1: State, b: Action, s2: State, c: Action, t: State)
    requires Steps(l, s, [a], s1) && Steps(l, s1, [b], s2) && Steps(l, s2, [c], t)
    ensures Steps(l, s, [a, b, c], t)
  {
    hide BudgetedRun;
    RunConcat(l, s, [a], s1, [b], s2);
    RunConcat(l, s, [a] + [b], s2, [c], t);
    assert [a] + [b] + [c] == [a, b, c];
  }

  /** Operation op has block b locked. */
  function Holding(s: State, op: Op, b: nat): State
    requires b < |s.disk|
  {
    s.(held := s.held[b := op], cache := s.cache[b := Seen(s.disk, s.cache, b)])
  }

  function Logging1(s: State, op: Op, b: nat): State
    requires op in s.active
  {
    s.(blocks := Absorb(s.blocks, b), pinned := s.pinned + {b}, unlogged := s.unlogged - {b},
       active := s.active[op := s.active[op] + {b}])
  }

  lemma FillAcquire(l: Layout, d: Disk, k: nat, op: Op, b: nat)
    requires GoodHeader(l, d) && k <= 3 * MAXOPBLOCKS && Base(l) + k <= |d| && Base(l) <= b < |d| && LOGSIZE == 30
    ensures Steps(l, Filled(l, d, k), [Acquire(op, b)], Holding(Filled(l, d, k), op, b))
  {
    RunOne(l, Filled(l, d, k), Acquire(op, b), Holding(Filled(l, d, k), op, b));
  }

  lemma FillLog(l: Layout, d: Disk, k: nat, op: Op, b: nat, s: State)
    requires GoodHeader(l, d) && k < 3 * MAXOPBLOCKS && k < l.size - 1 && Base(l) + k < |d| && op == k / MAXOPBLOCKS &&
             b == Base(l) + k
    requires s == Holding(Filled(l, d, k), op, b)
    ensures op in s.active && Steps(l, s, [LogWrite(op, b)], Logging1(s, op, b))
  {
    UsedCount(l, op, k);
    OpOfBlock(op, k);
    AddOne(Used(l, op, k), b);
    RunOne(l, s, LogWrite(op, b), Logging1(s, op, b));
  }

  lemma FilledNext(l: Layout, d: Disk, k: nat, op: Op, b: nat)
    requires k < 3 * MAXOPBLOCKS && Base(l) + k < |d| && op == k / MAXOPBLOCKS && b == Base(l) + k
    ensures var s, t := Filled(l, d, k), Filled(l, d, k + 1);
            b !in s.blocks && s.blocks + [b] == t.blocks && s.cache[b := d[b]] == t.cache && b !in s.cache &&
            s.pinned + {b} == t.pinned && op in s.active && s.active[op := s.active[op] + {b}] == t.active
  {
    var s, t := Filled(l, d, k), Filled(l, d, k + 1);
    assert s.blocks + [b] == t.blocks;
    assert s.cache[b := d[b]] == t.cache;
    assert s.pinned + {b} == t.pinned;
    forall c: Op ensures Used(l, c, k + 1) == if c == op then Used(l, c, k) + {b} else Used(l, c, k) {
      FillUsed(l, c, k);
    }
    assert s.active[op := s.active[op] + {b}] == t.active;
  }

  lemma FillRelease(l: Layout, d: Disk, k: nat, op: Op, b: nat, s: State)
    requires GoodHeader(l, d) && k < 3 * MAXOPBLOCKS && k < l.size - 1 && Base(l) + k < |d| && op == k / MAXOPBLOCKS &&
             b == Base(l) + k
    requires s == Logging1(Holding(Filled(l, d, k), op, b), op, b)
    ensures Steps(l, s, [Release(op, b)], Filled(l, d, k + 1))
  {
    FilledNext(l, d, k, op, b);
    var none: map<nat, Op> := map[];
    assert none[b := op] - {b} == none;
    RunOne(l, s, Release(op, b), Filled(l, d, k + 1));
  }

  lemma FillStep(l: Layout, d: Disk, k: nat)
    requires GoodHeader(l, d) && k < 3 * MAXOPBLOCKS && k < l.size - 1 && Base(l) + k < |d|
    ensures Steps(l, Filled(l, d, k), FillActions(l, k), Filled(l, d, k + 1))
  {
    var op, b := k / MAXOPBLOCKS, Base(l) + k;
    var s0 := Filled(l, d, k);
    var s1 := Holding(s0, op, b);
    FillAcquire(l, d, k, op, b);
    FillLog(l, d, k, op, b, s1);
    var s2 := Logging1(s1, op, b);
    FillRelease(l, d, k, op, b, s2);
    hide BudgetedRun;
    RunThree(l, s0, Acquire(op, b), s1, LogWrite(op, b), s2, Release(op, b), Filled(l, d, k + 1));
  }

  lemma FillUsed(l: Layout, op: Op, k: nat)
    ensures Used(l, op, k + 1) == if op == k / MAXOPBLOCKS then Used(l, op, k) + {Base(l) + k} else Used(l, op, k)
    ensures Base(l) + k !in Used(l, op, k)
  {
  }

  lemma {:induction false} UsedCount(l: Layout, op: Op, k: nat)
    ensures |Used(l, op, k)| == if k < op * MAXOPBLOCKS then 0
                                else if k < (op + 1) * MAXOPBLOCKS then k - op * MAXOPBLOCKS else MAXOPBLOCKS
  {
    if k == 0 {
      assert Used(l, op, k) == {};
    } else {
      UsedCount(l, op, k - 1);
      FillUsed(l, op, k - 1);
      OpOfBlock(op, k - 1);
    }
  }

  lemma OpOfBlock(op: Op, i: nat)
    ensures i / MAXOPBLOCKS == op <==> op * MAXOPBLOCKS <= i < (op + 1) * MAXOPBLOCKS
  {
  }

  function FillRun(l: Layout, k: nat): seq<Action> {
    if k == 0 then [RecoverStep, RecoverStep, Evict(l.start), Begin(0), Begin(1), Begin(2)]
    else FillRun(l, k - 1) + FillActions(l, k - 1)
  }

  function Quiet(d: Disk, active: map<Op, set<nat>>): State { State(d, map[], map[], {}, {}, [], active, Running) }

  lemma Booted(l: Layout, s: State)
    requires Init(l, s) && Base(l) <= |s.disk|
    ensures GoodHeader(l, s.disk) && Steps(l, s, FillRun(l, 0), Filled(l, s.disk, 0))
  {
    var d := s.disk;
    assert GoodHeader(l, d);
    Recovers(l, s);
    BeginThree(l, d);
    hide BudgetedRun;
    RunConcat(l, s, [RecoverStep, RecoverStep, Evict(l.start)], Quiet(d, map[]), [Begin(0), Begin(1), Begin(2)],
              Filled(l, d, 0));
    assert [RecoverStep, RecoverStep, Evict(l.start)] + [Begin(0), Begin(1), Begin(2)] == FillRun(l, 0);
  }

  lemma Recovers(l: Layout, s: State)
    requires Init(l, s) && Base(l) <= |s.disk|
    ensures Steps(l, s, [RecoverStep, RecoverStep, Evict(l.start)], Quiet(s.disk, map[]))
  {
    var d := s.disk;
    assert HeaderNames(l, d) == [];
    assert HeadBlock(d[l.start], []) == d[l.start];
    assert d[l.start := d[l.start]] == d;
    var s1 := Next(l, s, RecoverStep);
    var s2 := Next(l, s1, RecoverStep);
    RunOne(l, s, RecoverStep, s1);
    RunOne(l, s1, RecoverStep, s2);
    RunOne(l, s2, Evict(l.start), Quiet(d, map[]));
    hide BudgetedRun;
    RunThree(l, s, RecoverStep, s1, RecoverStep, s2, Evict(l.start), Quiet(d, map[]));
  }

  lemma FilledNone(l: Layout, d: Disk)
    requires GoodHeader(l, d) && Base(l) <= |d|
    ensures Filled(l, d, 0) == Quiet(d, map[0 := {}, 1 := {}, 2 := {}])
  {
    assert Used(l, 0, 0) == {} && Used(l, 1, 0) == {} && Used(l, 2, 0) == {};
    assert Filled(l, d, 0).cache == map[];
  }

  lemma BeginThree(l: Layout, d: Disk)
    requires GoodHeader(l, d) && Base(l) <= |d|
    ensures Steps(l, Quiet(d, map[]), [Begin(0), Begin(1), Begin(2)], Filled(l, d, 0))
  {
    var none: map<Op, set<nat>> := map[];
    var one := none[0 := {}];
    var two := one[1 := {}];
    assert |one| == 1 && |two| == 2;
    BeginStep(l, d, none, 0);
    BeginStep(l, d, one, 1);
    BeginStep(l, d, two, 2);
    hide BudgetedRun;
    FilledNone(l, d);
    RunThree(l, Quiet(d, none), Begin(0), Quiet(d, one), Begin(1), Quiet(d, two), Begin(2), Filled(l, d, 0));
  }

  lemma BeginStep(l: Layout, d: Disk, active: map<Op, set<nat>>, op: Op)
    requires GoodHeader(l, d) && op !in active && |active| <= 2
    ensures Steps(l, Quiet(d, active), [Begin(op)], Quiet(d, active[op := {}]))
  {
    RunOne(l, Quiet(d, active), Begin(op), Quiet(d, active[op := {}]));
  }

  lemma {:induction false} FillReaches(l: Layout, s: State, k: nat)
    requires Init(l, s) && k <= 3 * MAXOPBLOCKS && k < l.size && Base(l) + k <= |s.disk|
    ensures GoodHeader(l, s.disk) && Steps(l, s, FillRun(l, k), Filled(l, s.disk, k))
  {
    Booted(l, s);
    if k > 0 {
      FillReaches(l, s, k - 1);
      FillStep(l, s.disk, k - 1);
      RunConcat(l, s, FillRun(l, k - 1), Filled(l, s.disk, k - 1), FillActions(l, k - 1), Filled(l, s.disk, k));
    }
  }

  lemma FillAndHold(l: Layout, s: State, k: nat, op: Op, b: nat)
    requires Init(l, s) && k <= 3 * MAXOPBLOCKS && k < l.size && Base(l) + k <= |s.disk| && Base(l) <= b < |s.disk|
    ensures GoodHeader(l, s.disk) && Steps(l, s, FillRun(l, k) + [Acquire(op, b)], Holding(Filled(l, s.disk, k), op, b))
  {
    FillReaches(l, s, k);
    var u := Filled(l, s.disk, k);
    FillAcquire(l, s.disk, k, op, b);
    RunConcat(l, s, FillRun(l, k), u, [Acquire(op, b)], Holding(u, op, b));
  }

  /** With a log of LOGSIZE blocks or fewer, its header included, three operations within their budgets run into the
      panic:
      block number l.size - 1 of the thirty they may log does not fit. */
  lemma LogTooSmall(l: Layout, s: State)
    requires Init(l, s) && 1 <= l.size <= LOGSIZE && Base(l) + l.size <= |s.disk|
    ensures var k := l.size - 1;
            var op, b := k / MAXOPBLOCKS, Base(l) + k;
            var t := Holding(Filled(l, s.disk, k), op, b);
            BudgetedRun(l, s, FillRun(l, k) + [Acquire(op, b)], t, MAXOPBLOCKS) && op in t.active &&
            |t.active[op] + {b}| <= MAXOPBLOCKS && b !in t.blocks && t.held[b] == op && !Enabled(l, t, LogWrite(op, b))
  {
    hide BudgetedRun, Next, FillRun;
    var k := l.size - 1;
    var op, b := k / MAXOPBLOCKS, Base(l) + k;
    FillAndHold(l, s, k, op, b);
    UsedCount(l, op, k);
    OpOfBlock(op, k);
    AddOne(Used(l, op, k), b);
  }

  /** Operation op, within its budget, has b locked, and b is new to the log. */
  predicate WantsRoom(t: State, op: Op, b: nat) {
    op in t.active && b in t.held && t.held[b] == op && |t.active[op] + {b}| <= MAXOPBLOCKS && b !in t.blocks
  }

  /** In every run within budgets, log_write of a block that is new to the log goes through. */
  ghost predicate AlwaysRoom(l: Layout, s: State) {
    forall run: seq<Action>, t: State, op: Op, b: nat ::
      BudgetedRun(l, s, run, t, MAXOPBLOCKS) && WantsRoom(t, op, b) ==> Enabled(l, t, LogWrite(op, b))
  }

  lemma NoRoomAt(l: Layout, s: State, run: seq<Action>, t: State, op: Op, b: nat)
    requires BudgetedRun(l, s, run, t, MAXOPBLOCKS) && WantsRoom(t, op, b) && !Enabled(l, t, LogWrite(op, b))
    ensures !AlwaysRoom(l, s)
  {
    hide BudgetedRun, Enabled;
  }

  lemma RoomWhenLarge(l: Layout, s: State)
    requires Init(l, s) && l.size > LOGSIZE
    ensures AlwaysRoom(l, s)
  {
    hide BudgetedRun, Enabled, Init, WantsRoom;
    forall run: seq<Action>, t: State, op: Op, b: nat
      | BudgetedRun(l, s, run, t, MAXOPBLOCKS) && WantsRoom(t, op, b)
      ensures Enabled(l, t, LogWrite(op, b))
    {
      RoomAt(l, s, run, t, op, b);
    }
  }

  /** There is always room if and only if the log has more than LOGSIZE blocks, its header included. */
  lemma RoomIff(l: Layout, s: State)
    requires Init(l, s) && l.size >= 1 && Base(l) + l.size <= |s.disk|
    ensures AlwaysRoom(l, s) <==> l.size > LOGSIZE
  {
    hide BudgetedRun, Enabled, Init, AlwaysRoom, FillRun;
    if l.size > LOGSIZE {
      RoomWhenLarge(l, s);
    } else {
      LogTooSmall(l, s);
      var k := l.size - 1;
      var op, b := k / MAXOPBLOCKS, Base(l) + k;
      NoRoomAt(l, s, FillRun(l, k) + [Acquire(op, b)], Holding(Filled(l, s.disk, k), op, b), op, b);
    }
  }

  lemma RoomAt(l: Layout, s: State, run: seq<Action>, t: State, op: Op, b: nat)
    requires Init(l, s) && BudgetedRun(l, s, run, t, MAXOPBLOCKS) && WantsRoom(t, op, b) && l.size > LOGSIZE
    ensures Enabled(l, t, LogWrite(op, b))
  {
    SpaceAtBoot(l, s, MAXOPBLOCKS);
    SpaceAlways(l, s, run, t, MAXOPBLOCKS);
    LogWriteGoesThrough(l, t, op, b);
  }

  lemma AddOne(a: set<nat>, b: nat)
    ensures |a + {b}| <= |a| + 1
  {
    if b in a {
      assert a + {b} == a;
    }
  }

  /** With a larger log, rewriting the last of k blocks already logged panics once the log is full. */
  lemma AbsorptionPanicsWhenFull(l: Layout, s: State, k: nat)
    requires Init(l, s) && l.size > LOGSIZE && k == LOGSIZE && Base(l) + k <= |s.disk|
    ensures var b := Base(l) + k - 1;
            var t := Holding(Filled(l, s.disk, k), 2, b);
            BudgetedRun(l, s, FillRun(l, k) + [Acquire(2, b)], t, MAXOPBLOCKS) && |t.active[2] + {b}| <= MAXOPBLOCKS &&
            b in t.blocks &&
            t.held[b] == 2 && !Enabled(l, t, LogWrite(2, b))
  {
    hide BudgetedRun, Next, FillRun;
    var b := Base(l) + k - 1;
    FillAndHold(l, s, k, 2, b);
    UsedCount(l, 2, k);
    assert Filled(l, s.disk, k).blocks[k - 1] == b;
    assert b in Used(l, 2, k) by { OpOfBlock(2, k - 1); }
    assert Used(l, 2, k) + {b} == Used(l, 2, k);
  }
}
