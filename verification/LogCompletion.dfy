/**
 Finished operations are committed (kernel/log.c): when the last operation ends the log is written, and whenever no
 operation is under way and no commit is, everything users see is on disk.
 */
module LogCompletion {
  import opened LogDisk
  import opened RedoLog
  import opened LogProtocol

  // ---------------------------------------------------------------- nothing is left behind

  /** With no operation under way and no commit, the log is empty. */
  predicate NothingLeft(s: State) { s.phase.Running? && s.active == map[] ==> s.blocks == [] }

  lemma StepLeavesNothing(l: Layout, s: State, a: Action)
    requires Inv(l, s) && NothingLeft(s) && Enabled(l, s, a)
    ensures NothingLeft(Next(l, s, a))
  {
    if a.Begin? || a.LogWrite? {
      assert a.op in Next(l, s, a).active;
    }
  }

  lemma {:induction false} RunLeavesNothing(l: Layout, s: State, run: seq<Action>, s': State)
    requires Inv(l, s) && NothingLeft(s) && Run(l, s, run, s')
    ensures Inv(l, s') && NothingLeft(s')
    decreases |run|
  {
    if run != [] {
      StepRefines(l, s, run[0]);
      StepLeavesNothing(l, s, run[0]);
      hide Inv, Enabled, Next;
      RunLeavesNothing(l, Next(l, s, run[0]), run[1..], s');
    }
  }

  /** Between transactions, what is seen is what is on disk. */
  lemma EmptyIsDurable(l: Layout, s: State)
    requires Inv(l, s) && s.phase.Running? && s.blocks == []
    requires forall b: nat :: b !in s.unlogged
    ensures Abs(l, s).current == Abs(l, s).durable
  {
    forall b: nat | b < |s.disk| && IsHome(l, b) ensures Seen(s.disk, s.cache, b) == Durable(l, s.disk, b) {
      assert BufferGood(l, s, b);
    }
    assert SeenHome(l, s.disk, s.cache) == DurableHome(l, s.disk);
  }

  lemma NothingUnlogged(l: Layout, s: State, b: nat)
    requires Inv(l, s) && s.active == map[]
    ensures b !in s.unlogged
  {
    assert BufferGood(l, s, b);
  }

  /** After every run from a fresh file system, crashes included: if no operation is under way and the system neither
      commits nor recovers, the log is empty and all that users see is durable. */
  lemma QuietIsDurable(l: Layout, s: State, run: seq<Action>, s': State)
    requires Init(l, s) && Run(l, s, run, s') && s'.phase.Running? && s'.active == map[]
    ensures Inv(l, s') && s'.blocks == [] && Abs(l, s').current == Abs(l, s').durable
  {
    InitInv(l, s);
    RunLeavesNothing(l, s, run, s');
    forall b: nat ensures b !in s'.unlogged {
      NothingUnlogged(l, s', b);
    }
    EmptyIsDurable(l, s');
  }

  // ---------------------------------------------------------------- a commit under way

  predicate Committing(s: State) { s.phase.Logging? || s.phase.Installing? }

  /** Since the commit began with `seen` before the users' eyes, nothing has changed for them, and when it is over that
      is durable. */
  predicate Committed(l: Layout, s: State, seen: map<nat, Block>)
    requires GoodHeader(l, s.disk)
  {
    s.active == map[] && Abs(l, s).current == seen &&
    (Committing(s) || (s.phase.Running? && s.blocks == [] && Abs(l, s).durable == seen))
  }

  lemma StepCommitted(l: Layout, s: State, a: Action, seen: map<nat, Block>)
    requires Inv(l, s) && Enabled(l, s, a) && !a.Begin? && !a.Crash? && Committed(l, s, seen)
    ensures Inv(l, Next(l, s, a)) && Committed(l, Next(l, s, a), seen)
  {
    StepRefines(l, s, a);
    var s' := Next(l, s, a);
    assert Abs(l, s).active == {};
    if s'.phase.Running? && Committing(s) {
      forall b: nat ensures b !in s'.unlogged {
        NothingUnlogged(l, s', b);
      }
      EmptyIsDurable(l, s');
    }
  }

  /** Once a commit has begun, whatever readers and the cache do: no user sees a change before the next operation
      begins,
      and when the commit is over, what was seen at its beginning is durable. */
  lemma {:induction false} CommitDurable(l: Layout, s: State, run: seq<Action>, s': State, seen: map<nat, Block>)
    requires Inv(l, s) && Run(l, s, run, s') && Committed(l, s, seen)
    requires forall a :: a in run ==> !a.Begin? && !a.Crash?
    ensures Inv(l, s') && Committed(l, s', seen)
    decreases |run|
  {
    hide Inv, Committed, Enabled, Next;
    if run != [] {
      assert run[0] in run && forall a :: a in run[1..] ==> a in run;
      HeaderGood(l, s);
      StepCommitted(l, s, run[0], seen);
      CommitDurable(l, Next(l, s, run[0]), run[1..], s', seen);
    } else {
      HeaderGood(l, s');
    }
  }

  lemma HeaderGood(l: Layout, s: State)
    requires Inv(l, s)
    ensures |s.blocks| <= LOGSIZE && GoodHeader(l, s.disk)
  {
  }

  /** The end of the last operation starts the commit of what is then seen, unless nothing was logged, and then that is
      durable already. */
  lemma LastEndCommits(l: Layout, s: State, op: Op)
    requires Inv(l, s) && Enabled(l, s, End(op)) && s.active.Keys == {op}
    ensures var s' := Next(l, s, End(op));
            Inv(l, s') && Committed(l, s', Abs(l, s).current) && (s.blocks != [] ==> s'.phase == Logging(0))
  {
    StepRefines(l, s, End(op));
    var s' := Next(l, s, End(op));
    assert s'.active == map[];
    if s.blocks == [] {
      assert s.phase == Running;
      forall b: nat ensures b !in s'.unlogged {
        NothingUnlogged(l, s', b);
      }
      EmptyIsDurable(l, s');
    }
  }

  /** Group commit is durable: what was seen when the last operation ended is durable as soon as the system runs on,
      in every run in which it does not crash before and no new operation begins. */
  lemma EndIsDurable(l: Layout, s: State, op: Op, run: seq<Action>, s': State)
    requires Inv(l, s) && Enabled(l, s, End(op)) && s.active.Keys == {op} && Run(l, s, [End(op)] + run, s')
    requires forall a :: a in run ==> !a.Begin? && !a.Crash?
    ensures Inv(l, s') && (s'.phase.Running? ==> Abs(l, s').durable == Abs(l, s).current == Abs(l, s').current)
  {
    assert ([End(op)] + run)[1..] == run;
    LastEndCommits(l, s, op);
    CommitDurable(l, Next(l, s, End(op)), run, s', Abs(l, s).current);
  }

  // ---------------------------------------------------------------- commit comes to its end

  /** Steps left of a commit. */
  function Left(s: State): int
    requires Committing(s)
  {
    if s.phase.Logging? then 2 * |s.blocks| + 2 - s.phase.k else |s.blocks| + 1 - s.phase.k
  }

  function CommitSteps(n: nat): seq<Action> { seq(n, _ => CommitStep) }

  lemma StepLeft(l: Layout, s: State)
    requires Inv(l, s) && Committing(s) && Enabled(l, s, CommitStep)
    ensures Left(s) >= 1
    ensures var s' := Next(l, s, CommitStep);
            s'.held == s.held && s'.active == s.active &&
            if Left(s) == 1 then s'.phase.Running? && s'.blocks == [] else Committing(s') && Left(s') == Left(s) - 1
  {
  }

  lemma CommittedOver(l: Layout, s: State, seen: map<nat, Block>)
    requires Inv(l, s) && Committed(l, s, seen) && s.phase.Running?
    ensures Abs(l, s).durable == seen == Abs(l, s).current
  {
  }

  lemma NobodyInTheWay(l: Layout, s: State)
    requires Inv(l, s) && Committing(s) && s.held == map[]
    ensures Enabled(l, s, CommitStep)
  {
  }

  /** With no buffer locked, commit takes its steps one after the other and is over. */
  lemma {:induction false} CommitEnds(l: Layout, s: State, n: nat, seen: map<nat, Block>) returns (s': State)
    requires Inv(l, s) && Committing(s) && s.held == map[] && Left(s) == n && Committed(l, s, seen)
    ensures Run(l, s, CommitSteps(n), s') && Inv(l, s') && AtRest(s')
    ensures Abs(l, s').durable == seen == Abs(l, s').current
    decreases n
  {
    hide Inv, Next, Enabled, Committed, Abs, Run, Committing, Left;
    HeaderGood(l, s);
    NobodyInTheWay(l, s);
    StepLeft(l, s);
    StepCommitted(l, s, CommitStep, seen);
    var t := Next(l, s, CommitStep);
    HeaderGood(l, t);
    if n == 1 {
      s' := t;
      CommittedOver(l, t, seen);
      RunNothing(l, t);
    } else {
      s' := CommitEnds(l, t, n - 1, seen);
    }
    RunFirst(l, s, n, s');
  }

  lemma RunNothing(l: Layout, s: State)
    ensures Run(l, s, CommitSteps(0), s)
  {
    assert CommitSteps(0) == [];
  }

  lemma RunFirst(l: Layout, s: State, n: nat, s': State)
    requires n > 0 && Enabled(l, s, CommitStep) && |s.blocks| <= LOGSIZE && GoodHeader(l, s.disk)
    requires Run(l, Next(l, s, CommitStep), CommitSteps(n - 1), s')
    ensures Run(l, s, CommitSteps(n), s')
  {
    hide Enabled, Next;
    assert CommitSteps(n)[0] == CommitStep && CommitSteps(n)[1..] == CommitSteps(n - 1);
  }

  // ---------------------------------------------------------------- one operation from begin_op to the disk

  function Operation(op: Op, b: nat, data: Block): seq<Action> {
    [Begin(op), Acquire(op, b), Modify(op, b, data), LogWrite(op, b), Release(op, b), End(op)]
  }

  /** The file system is up, and nobody is at work. */
  predicate AtRest(s: State) { s.phase.Running? && s.active == map[] && s.blocks == [] && s.held == map[] }

  /** Operation op has block b locked, with data in it that are not logged yet. */
  lemma Modified(l: Layout, s: State, op: Op, b: nat, data: Block) returns (t: State)
    requires Inv(l, s) && AtRest(s) && b < |s.disk| && IsHome(l, b)
    ensures Run(l, s, [Begin(op), Acquire(op, b), Modify(op, b, data)], t) && Inv(l, t)
    ensures t.phase.Running? && t.active == map[op := {}] && t.blocks == [] && t.held == map[b := op]
    ensures Abs(l, t) == Abs(l, s).(active := {op}, current := Abs(l, s).current[b := data])
  {
    hide Inv, Run, Abs;
    HeaderGood(l, s);
    NoSteps(l, s);
    WhoIsAtWork(l, s);
    var s1 := Goes(l, s, [], s, Begin(op), [Begin(op)]);
    var s2 := Goes(l, s, [Begin(op)], s1, Acquire(op, b), [Begin(op), Acquire(op, b)]);
    t := Goes(l, s, [Begin(op), Acquire(op, b)], s2, Modify(op, b, data),
              [Begin(op), Acquire(op, b), Modify(op, b, data)]);
  }

  lemma WhoIsAtWork(l: Layout, s: State)
    requires GoodHeader(l, s.disk)
    ensures Abs(l, s).active == s.active.Keys
  {
  }

  lemma NoSteps(l: Layout, s: State)
    ensures Run(l, s, [], s)
  {
  }

  /** One step more. */
  lemma Goes(l: Layout, s: State, run: seq<Action>, t: State, a: Action, run': seq<Action>) returns (u: State)
    requires Run(l, s, run, t) && Inv(l, t) && Enabled(l, t, a) && run' == run + [a]
    ensures |t.blocks| <= LOGSIZE && GoodHeader(l, t.disk) && u == Next(l, t, a)
    ensures Run(l, s, run', u) && Inv(l, u) && GoodHeader(l, u.disk) && SpecStep(Abs(l, t), a, Abs(l, u))
  {
    HeaderGood(l, t);
    StepRefines(l, t, a);
    hide Inv, Next, Enabled;
    u := Next(l, t, a);
    HeaderGood(l, u);
    RunSnoc(l, s, run, t, a);
  }

  /** log_write and brelse. */
  lemma LoggedAndReleased(l: Layout, s: State, op: Op, b: nat) returns (t: State)
    requires Inv(l, s) && s.phase.Running? && s.active == map[op := {}] && s.blocks == [] && s.held == map[b := op]
    requires l.size >= 2
    ensures Run(l, s, [LogWrite(op, b), Release(op, b)], t) && Inv(l, t)
    ensures t.phase.Running? && t.active.Keys == {op} && t.blocks == [b] && t.held == map[]
    ensures Abs(l, t) == Abs(l, s)
  {
    hide Inv, Run, Abs;
    HeaderGood(l, s);
    NoSteps(l, s);
    var s1 := Goes(l, s, [], s, LogWrite(op, b), [LogWrite(op, b)]);
    t := Goes(l, s, [LogWrite(op, b)], s1, Release(op, b), [LogWrite(op, b), Release(op, b)]);
    assert t.held == map[];
  }

  /** And end_op: the commit of this one block begins. */
  lemma Logged(l: Layout, s: State, op: Op, b: nat) returns (t: State)
    requires Inv(l, s) && s.phase.Running? && s.active == map[op := {}] && s.blocks == [] && s.held == map[b := op]
    requires l.size >= 2
    ensures Run(l, s, [LogWrite(op, b), Release(op, b), End(op)], t) && Inv(l, t)
    ensures t.phase == Logging(0) && t.active == map[] && t.blocks == [b] && t.held == map[]
    ensures Abs(l, t) == Abs(l, s).(active := {})
  {
    hide Inv, Run, Abs;
    HeaderGood(l, s);
    WhoIsAtWork(l, s);
    var u := LoggedAndReleased(l, s, op, b);
    t := Goes(l, s, [LogWrite(op, b), Release(op, b)], u, End(op), [LogWrite(op, b), Release(op, b), End(op)]);
    assert t.active == map[];
  }

  /** A write reaches the disk: an operation that modifies one block runs through, its commit takes four steps, and then
      the block is durable with its new contents, as is everything else. */
  lemma WriteIsDurable(l: Layout, s: State, op: Op, b: nat, data: Block) returns (s': State)
    requires Inv(l, s) && AtRest(s) && b < |s.disk| && IsHome(l, b) && l.size >= 2
    ensures Run(l, s, Operation(op, b, data) + CommitSteps(4), s') && Inv(l, s') && AtRest(s')
    ensures Abs(l, s').durable == Abs(l, s).current[b := data] == Abs(l, s').current
  {
    hide Inv, Run, Abs;
    HeaderGood(l, s);
    var t := Modified(l, s, op, b, data);
    HeaderGood(l, t);
    var u := Logged(l, t, op, b);
    HeaderGood(l, u);
    RunThen(l, s, [Begin(op), Acquire(op, b), Modify(op, b, data)], t, [LogWrite(op, b), Release(op, b), End(op)], u);
    assert [Begin(op), Acquire(op, b), Modify(op, b, data)] + [LogWrite(op, b), Release(op, b), End(op)] ==
           Operation(op, b, data);
    s' := CommitEnds(l, u, 4, Abs(l, u).current);
    RunThen(l, s, Operation(op, b, data), u, CommitSteps(4), s');
  }

  // ---------------------------------------------------------------- the steps of commit are commit()

  /** Disk and cache after j of the steps that commit() takes one after the other. */
  function StoreAfter(l: Layout, st: Store, blocks: seq<nat>, j: nat): Store
    requires |blocks| <= LOGSIZE && j <= 2 * |blocks| + 2
  {
    var n := |blocks|;
    if j <= n then CopyLoop(st, LogArea(l, n), blocks, j)
    else
      var headed := HeadStore(l, CopyLoop(st, LogArea(l, n), blocks, n), blocks);
      if j <= 2 * n + 1 then CopyLoop(headed, blocks, LogArea(l, n), j - n - 1)
      else HeadStore(l, CopyLoop(headed, blocks, LogArea(l, n), n), [])
  }

  function PhaseAfter(n: nat, j: nat): Phase
    requires j <= 2 * n + 2
  {
    if j <= n then Logging(j) else if j <= 2 * n + 1 then Installing(j - n - 1) else Running
  }

  /** The protocol is j steps into the commit that began at st. */
  predicate Into(l: Layout, st: Store, blocks: seq<nat>, j: nat, t: State) {
    |blocks| <= LOGSIZE && j <= 2 * |blocks| + 2 && t.phase == PhaseAfter(|blocks|, j) &&
    t.blocks == (if j == 2 * |blocks| + 2 then [] else blocks) &&
    t.disk == StoreAfter(l, st, blocks, j).disk && t.cache == StoreAfter(l, st, blocks, j).cache
  }

  /** A turn of a copying loop. */
  lemma CopyNext(st: Store, to: seq<nat>, from: seq<nat>, k: nat, t: State)
    requires k < |to| == |from| && t.disk == CopyLoop(st, to, from, k).disk &&
             t.cache == CopyLoop(st, to, from, k).cache
    ensures var r, c := CopyLoop(st, to, from, k + 1), Copied(t, to[k], from[k]);
            c.disk == r.disk && c.cache == r.cache && c == t.(disk := c.disk, cache := c.cache)
  {
    hide Seen;
  }

  lemma HeadNext(l: Layout, st: Store, blocks: seq<nat>, t: State)
    requires |blocks| <= LOGSIZE && t.disk == st.disk && t.cache == st.cache
    ensures var r, c := HeadStore(l, st, blocks), Headed(l, t, blocks);
            c.disk == r.disk && c.cache == r.cache && c == t.(disk := c.disk, cache := c.cache)
  {
  }

  lemma NoTurns(st: Store, to: seq<nat>, from: seq<nat>)
    requires |to| == |from|
    ensures CopyLoop(st, to, from, 0) == st
  {
  }

  /** Steps of write_log, and the header after the last. */
  lemma IntoLog(l: Layout, st: Store, blocks: seq<nat>, j: nat, t: State)
    requires Into(l, st, blocks, j, t) && j <= |blocks| && Enabled(l, t, CommitStep) && GoodHeader(l, t.disk)
    ensures Into(l, st, blocks, j + 1, Next(l, t, CommitStep))
  {
    hide Copied, Headed, CopyLoop, HeadStore, LogArea, GoodHeader;
    var n := |blocks|;
    if j < n {
      CopyNext(st, LogArea(l, n), blocks, j, t);
    } else {
      var logged := CopyLoop(st, LogArea(l, n), blocks, n);
      HeadNext(l, logged, blocks, t);
      NoTurns(HeadStore(l, logged, blocks), blocks, LogArea(l, n));
    }
  }

  /** Steps of install_trans, and the header after the last. */
  lemma IntoInstall(l: Layout, st: Store, blocks: seq<nat>, j: nat, t: State)
    requires Into(l, st, blocks, j, t) && |blocks| < j < 2 * |blocks| + 2
    requires Enabled(l, t, CommitStep) && GoodHeader(l, t.disk)
    ensures Into(l, st, blocks, j + 1, Next(l, t, CommitStep))
  {
    hide Copied, Headed, CopyLoop, HeadStore, LogArea, GoodHeader;
    var n := |blocks|;
    var headed := HeadStore(l, CopyLoop(st, LogArea(l, n), blocks, n), blocks);
    if j < 2 * n + 1 {
      CopyNext(headed, blocks, LogArea(l, n), j - n - 1, t);
    } else {
      HeadNext(l, CopyLoop(headed, blocks, LogArea(l, n), n), [], t);
    }
  }

  lemma IntoNext(l: Layout, st: Store, blocks: seq<nat>, j: nat, t: State)
    requires Into(l, st, blocks, j, t) && j < 2 * |blocks| + 2 && Enabled(l, t, CommitStep) && GoodHeader(l, t.disk)
    ensures Into(l, st, blocks, j + 1, Next(l, t, CommitStep))
  {
    hide StoreAfter, Next;
    if j <= |blocks| { IntoLog(l, st, blocks, j, t); } else { IntoInstall(l, st, blocks, j, t); }
  }

  lemma {:induction false} StepsInto(l: Layout, st: Store, blocks: seq<nat>, j: nat, t: State, m: nat, s': State)
    requires Into(l, st, blocks, j, t) && Run(l, t, CommitSteps(m), s') && j + m <= 2 * |blocks| + 2
    ensures Into(l, st, blocks, j + m, s')
    decreases m
  {
    hide Into, Next, Enabled;
    if m > 0 {
      assert CommitSteps(m)[0] == CommitStep && CommitSteps(m)[1..] == CommitSteps(m - 1);
      IntoNext(l, st, blocks, j, t);
      StepsInto(l, st, blocks, j + 1, Next(l, t, CommitStep), m - 1, s');
    }
  }

  /** From its beginning, the protocol's commit does to disk and cache what commit() does. */
  lemma StepsAreCommit(l: Layout, s: State, s': State)
    requires Inv(l, s) && s.phase == Logging(0) && Run(l, s, CommitSteps(2 * |s.blocks| + 2), s')
    ensures s'.phase == Running && s'.blocks == []
    ensures var r := CommitStore(l, Store(s.disk, s.cache, []), s.blocks); s'.disk == r.disk && s'.cache == r.cache
  {
    HeaderGood(l, s);
    StepsInto(l, Store(s.disk, s.cache, []), s.blocks, 0, s, 2 * |s.blocks| + 2, s');
  }

  // ---------------------------------------------------------------- the steps of recovery are recovery

  function RecoverSteps(n: nat): seq<Action> { seq(n, _ => RecoverStep) }

  /** Recovery has read the header and copied k blocks home. */
  predicate Recovers(l: Layout, st: Store, blocks: seq<nat>, k: nat, t: State) {
    k <= |blocks| && t.phase == Recovering(k) && t.blocks == blocks &&
    t.disk == CopyLoop(st, blocks, LogArea(l, |blocks|), k).disk &&
    t.cache == CopyLoop(st, blocks, LogArea(l, |blocks|), k).cache
  }

  lemma RecoversNext(l: Layout, st: Store, blocks: seq<nat>, k: nat, t: State)
    requires Recovers(l, st, blocks, k, t) && |blocks| <= LOGSIZE && GoodHeader(l, t.disk)
    ensures k < |blocks| ==> Recovers(l, st, blocks, k + 1, Next(l, t, RecoverStep))
    ensures k == |blocks| ==>
              var r := HeadStore(l, CopyLoop(st, blocks, LogArea(l, k), k), []);
              var t' := Next(l, t, RecoverStep);
              t'.phase == Running && t'.blocks == [] && t'.disk == r.disk && t'.cache == r.cache
  {
    hide Copied, Headed, CopyLoop, HeadStore, LogArea, GoodHeader;
    if k < |blocks| {
      CopyNext(st, blocks, LogArea(l, |blocks|), k, t);
    } else {
      HeadNext(l, CopyLoop(st, blocks, LogArea(l, k), k), [], t);
    }
  }

  lemma {:induction false} RecoverRuns(l: Layout, st: Store, blocks: seq<nat>, k: nat, t: State) returns (s': State)
    requires Inv(l, t) && Recovers(l, st, blocks, k, t) && |blocks| <= LOGSIZE
    ensures Run(l, t, RecoverSteps(|blocks| + 1 - k), s') && Inv(l, s') && s'.phase == Running && s'.blocks == []
    ensures s'.disk == HeadStore(l, CopyLoop(st, blocks, LogArea(l, |blocks|), |blocks|), []).disk
    decreases |blocks| - k
  {
    HeaderGood(l, t);
    StepRefines(l, t, RecoverStep);
    RecoversNext(l, st, blocks, k, t);
    hide Inv, Run, Next, HeadStore, CopyLoop, GoodHeader;
    var m := |blocks| + 1 - k;
    if k < |blocks| {
      s' := RecoverRuns(l, st, blocks, k + 1, Next(l, t, RecoverStep));
    } else {
      s' := Next(l, t, RecoverStep);
      NoRecoverSteps(l, s');
    }
    RecoverFirst(l, t, m, s');
  }

  lemma NoRecoverSteps(l: Layout, s: State)
    ensures Run(l, s, RecoverSteps(0), s)
  {
    assert RecoverSteps(0) == [];
  }

  lemma RecoverFirst(l: Layout, s: State, n: nat, s': State)
    requires n > 0 && Enabled(l, s, RecoverStep) && |s.blocks| <= LOGSIZE && GoodHeader(l, s.disk)
    requires Run(l, Next(l, s, RecoverStep), RecoverSteps(n - 1), s')
    ensures Run(l, s, RecoverSteps(n), s')
  {
    hide Enabled, Next;
    assert RecoverSteps(n)[0] == RecoverStep && RecoverSteps(n)[1..] == RecoverSteps(n - 1);
  }

  /** After a crash, recovery comes to its end in as many steps as there are blocks in the log and two more, and leaves
      the disk that recover_from_log leaves. */
  lemma RecoveryEnds(l: Layout, s: State) returns (s': State)
    requires Inv(l, s) && s.phase.Booting?
    ensures GoodHeader(l, s.disk) && Run(l, s, RecoverSteps(Count(l, s.disk) + 2), s')
    ensures Inv(l, s') && s'.phase == Running && s'.blocks == [] && s'.disk == Recovered(l, s.disk)
  {
    hide Inv, Run, CopyLoop, HeadStore, Next, HeaderRead, Recovered, Recovers, LogArea, SpecStep, Abs;
    ReadThenRecovers(l, s);
    var blocks, st := HeaderNames(l, s.disk), HeaderRead(l, s);
    StepRefines(l, s, RecoverStep);
    s' := RecoverRuns(l, st, blocks, 0, Next(l, s, RecoverStep));
    RecoverFirst(l, s, |blocks| + 2, s');
  }

  /** Disk and cache once read_head has read the header block. */
  function HeaderRead(l: Layout, s: State): Store
    requires l.start < |s.disk|
  {
    Store(s.disk, map[l.start := s.disk[l.start]], [])
  }

  lemma ReadThenRecovers(l: Layout, s: State)
    requires Inv(l, s) && s.phase.Booting?
    ensures |s.blocks| <= LOGSIZE && GoodHeader(l, s.disk)
    ensures Recovers(l, HeaderRead(l, s), HeaderNames(l, s.disk), 0, Next(l, s, RecoverStep))
    ensures var blocks := HeaderNames(l, s.disk);
            |blocks| <= LOGSIZE &&
            HeadStore(l, CopyLoop(HeaderRead(l, s), blocks, LogArea(l, |blocks|), |blocks|), []).disk ==
            Recovered(l, s.disk)
  {
    var blocks, st := HeaderNames(l, s.disk), HeaderRead(l, s);
    NoTurns(st, blocks, LogArea(l, |blocks|));
    assert s.cache[l.start := Seen(s.disk, s.cache, l.start)] == map[l.start := s.disk[l.start]];
    hide CopyLoop, HeadStore;
    RecoverResult(l, st, blocks);
  }
}
