/**
 The scheduler's code on the process table and the tree, against the steps of module Scheduler
 (kernel/proc.c, kernel/trap.c).
 */
module SchedulerCode {
  import opened RbTree
  import opened ProcTable
  import opened RunQueues
  import opened Scheduler
  import opened Weights

  predicate SameTask(t: Task, r: Proc) {
    t.state == r.state && t.vr == r.virtualRuntime && t.cr == r.currentRuntime && t.slice == r.maximumExecutiontime &&
    t.nice == r.niceValue && t.weight == r.weightValue
  }

  /** Table, tree order, running total and period are those of the machine's state. */
  predicate Matches(s: State, h: seq<Proc>, q: seq<Slot>, total: int, period: int) {
    |h| == NPROC == |s.task| && |s.place| == NPROC && s.queue == q && s.rbTreeWeight == total && s.period == period &&
    forall p: Slot :: p < NPROC ==> SameTask(s.task[p], h[p])
  }

  ghost predicate Models(rq: RunQueue, s: State)
    reads rq, rq.proc
  {
    rq.Valid() && Matches(s, rq.proc[..], rq.Queue(), rq.rbTreeWeight, rq.period)
  }

  lemma SameRuntimes(s: State, h: seq<Proc>)
    requires |h| == NPROC == |s.task| && forall p: Slot :: p < NPROC ==> SameTask(s.task[p], h[p])
    ensures Runtimes(s.task) == VirtualRuntimes(h)
  {
    forall p: Slot | p < NPROC ensures Runtimes(s.task)[p] == VirtualRuntimes(h)[p] {
      assert SameTask(s.task[p], h[p]);
    }
  }

  // ---------------------------------------------------------------- the two tree operations

  lemma InsertMatches(s: State, h: seq<Proc>, h': seq<Proc>, slots: set<Slot>, q: seq<Slot>, total: int, period: int,
                      p: Slot)
    requires Matches(s, h, q, total, period) && QueueGood(s) && p < NPROC && p !in q && |h'| == NPROC
    requires h'[p].weightValue == WeightOf(h[p].niceValue)
    requires OnlyLinks(h[p := h[p].(weightValue := h'[p].weightValue)], h', slots)
    ensures Matches(PutInQueue(s, p), h', Enqueue(VirtualRuntimes(h), q, p), total + h'[p].weightValue, period)
  {
    hide WeightOf, Enqueue;
    SameRuntimes(s, h);
    RoomInQueue(s, p);
    var s' := PutInQueue(s, p);
    assert SameTask(s.task[p], h[p]);
    forall x: Slot | x < NPROC ensures SameTask(s'.task[x], h'[x]) {
      assert SameTask(s.task[x], h[x]);
    }
  }

  /** insertProcess is PutInQueue. */
  method Insert(rq: RunQueue, p: Slot, ghost s: State)
    requires Models(rq, s) && QueueGood(s) && p < NPROC && p !in s.queue
    modifies rq, rq.proc
    ensures p < |s.task| == |s.place| && Models(rq, PutInQueue(s, p))
  {
    ghost var h, q, total, period := rq.proc[..], rq.Queue(), rq.rbTreeWeight, rq.period;
    ghost var slots := Slots(rq.tree) + {p};
    rq.InsertProcess(p);
    InsertMatches(s, h, rq.proc[..], slots, q, total, period, p);
  }

  lemma RetrieveMatches(s: State, c: nat, h: seq<Proc>, h': seq<Proc>, slots: set<Slot>, q: seq<Slot>, total: int,
                        period: int)
    requires Matches(s, h, q, total, period) && Inv(s) && Enabled(s, Step.Retrieve(c)) && |h'| == NPROC && q[0] < NPROC
    requires h'[q[0]].maximumExecutiontime == MachineDiv(PeriodFor(|q|, period) * h'[q[0]].weightValue, total)
    requires OnlyLinks(h[q[0] := h[q[0]].(maximumExecutiontime := h'[q[0]].maximumExecutiontime)], h', slots)
    ensures Matches(RetrieveStep(s, c), h', q[1..], total - h[q[0]].weightValue, PeriodFor(|q|, period))
  {
    hide MachineDiv, PeriodFor;
    RetrieveInv(s, c);
    var s', p := RetrieveStep(s, c), q[0];
    assert SameTask(s.task[p], h[p]);
    forall x: Slot | x < NPROC ensures SameTask(s'.task[x], h'[x]) {
      assert SameTask(s.task[x], h[x]);
    }
  }

  /** retrieveProcess is RetrieveStep: it never meets an unrunnable head. */
  method Retrieve(rq: RunQueue, ghost c: nat, ghost s: State) returns (found: Ptr)
    requires Models(rq, s) && Inv(s) && c < |s.cpu| && s.cpu[c] == Idle
    modifies rq, rq.proc
    ensures s.queue == [] ==> found == NULL && Models(rq, s)
    ensures s.queue != [] ==> Enabled(s, Step.Retrieve(c)) && found == s.queue[0] && Models(rq, RetrieveStep(s, c))
  {
    ghost var h, q, total, period := rq.proc[..], rq.Queue(), rq.rbTreeWeight, rq.period;
    ghost var slots := Slots(rq.tree);
    if q != [] {
      assert q[0] in s.queue && TaskGood(s, q[0]) && SameTask(s.task[q[0]], h[q[0]]);
    }
    found := rq.RetrieveProcess();
    if q != [] {
      RetrieveMatches(s, c, h, rq.proc[..], slots, q, total, period);
    }
  }

  // ---------------------------------------------------------------- the transitions built on them

  lemma UpdateMatches(s: State, h: seq<Proc>, q: seq<Slot>, total: int, period: int, p: Slot, t: Task, u: Place)
    requires Matches(s, h, q, total, period) && p < NPROC && t == s.task[p].(state := t.state, vr := t.vr, cr := t.cr)
    ensures Matches(WithTask(s, p, t, u),
                    h[p := h[p].(state := t.state, virtualRuntime := t.vr, currentRuntime := t.cr)], q, total, period)
  {
    assert SameTask(s.task[p], h[p]);
  }

  /** The charge and the insertion that yield, wakeup and kill share. */
  method Requeue(rq: RunQueue, p: Slot, ghost s: State)
    requires Models(rq, s) && IsTask(s, p) && QueueGood(Charged(s, p)) && p !in s.queue
    modifies rq, rq.proc
    ensures Models(rq, PutInQueue(Charged(s, p), p))
  {
    hide WeightOf, Enqueue, PutInQueue;
    assert SameTask(s.task[p], rq.proc[p]);
    ghost var s1 := Charged(s, p);
    UpdateMatches(s, rq.proc[..], rq.Queue(), rq.rbTreeWeight, rq.period, p, s1.task[p], s.place[p]);
    rq.Update(p, RUNNABLE, rq.proc[p].virtualRuntime + rq.proc[p].currentRuntime, 0);
    Insert(rq, p, s1);
  }

  /** The body that wakeup and kill share. */
  method Wake(rq: RunQueue, p: Slot, ghost s: State)
    requires Models(rq, s) && Inv(s) && Enabled(s, Step.Wake(p))
    modifies rq, rq.proc
    ensures Models(rq, WakeStep(s, p))
  {
    assert TaskGood(s, p);
    ChargedQueue(s, p, Charged(s, p));
    Requeue(rq, p, s);
  }

  /** Asleep on the channel, and not the caller. */
  predicate Sleeper(s: State, p: Slot, me: int, onChan: set<Slot>) {
    p < |s.task| && p != me && p in onChan && s.task[p].state == SLEEPING
  }

  /** What wakeup does to one process. */
  predicate Woken(s: State, s': State, p: Slot, me: int, onChan: set<Slot>) {
    p < |s.task| == |s'.task| &&
    if Sleeper(s, p, me, onChan) then s'.task[p].state == RUNNABLE && p in s'.queue else s'.task[p] == s.task[p]
  }

  /** wakeup has been past the first n slots. */
  ghost predicate WokenBelow(s: State, s': State, n: nat, me: int, onChan: set<Slot>) {
    |s.task| == NPROC == |s'.task| && s'.cpu == s.cpu && (forall q: Slot :: q < n ==> Woken(s, s', q, me, onChan)) &&
    forall q: Slot :: n <= q < NPROC ==> s'.task[q] == s.task[q]
  }

  lemma WakeOthers(s: State, p: Slot)
    requires Inv(s) && Enabled(s, Step.Wake(p))
    ensures WakeStep(s, p).cpu == s.cpu && |WakeStep(s, p).task| == NPROC && WakeStep(s, p).task[p].state == RUNNABLE
    ensures p in WakeStep(s, p).queue && forall q: Slot :: q in s.queue ==> q in WakeStep(s, p).queue
    ensures forall q: Slot :: q < NPROC && q != p ==> WakeStep(s, p).task[q] == s.task[q]
  {
    hide WeightOf, Enqueue;
    assert TaskGood(s, p);
    WakeInv(s, p);
    ChargedQueue(s, p, Charged(s, p));
    InsertedIs(Charged(s, p), p);
    EnqueueMembers(Runtimes(WakeStep(s, p).task), s.queue, p);
  }

  lemma WokenNext(s: State, s1: State, p: Slot, me: int, onChan: set<Slot>, next: nat)
    requires Inv(s1) && Enabled(s1, Step.Wake(p)) && Sleeper(s, p, me, onChan) && WokenBelow(s, s1, p, me, onChan)
    requires next == p + 1
    ensures WokenBelow(s, WakeStep(s1, p), next, me, onChan)
  {
    WakeOthers(s1, p);
    hide WakeStep, Inv;
    forall q: Slot | q < next ensures Woken(s, WakeStep(s1, p), q, me, onChan) {
      assert q < p ==> Woken(s, s1, q, me, onChan);
    }
  }

  lemma WokenSkip(s: State, s1: State, p: Slot, me: int, onChan: set<Slot>, next: nat)
    requires !Sleeper(s, p, me, onChan) && WokenBelow(s, s1, p, me, onChan) && next == p + 1 <= NPROC
    ensures WokenBelow(s, s1, next, me, onChan)
  {
    assert s1.task[p] == s.task[p];
  }

  /** wakeup: a run of Wake steps, one for each sleeper on the channel and none for anyone else. */
  method Wakeup(rq: RunQueue, me: int, onChan: set<Slot>, ghost s: State)
    returns (ghost steps: seq<Step>, ghost s': State)
    requires Models(rq, s) && Inv(s) && forall p: Slot :: Sleeper(s, p, me, onChan) ==> Unlocked(s, p)
    modifies rq, rq.proc
    ensures Run(s, steps, s') && Inv(s') && Models(rq, s') && (forall step :: step in steps ==> step.Wake?)
    ensures forall p: Slot :: p < NPROC ==> Woken(s, s', p, me, onChan)
  {
    hide WeightOf, Enqueue, Run, WakeStep, Inv, Woken;
    steps, s' := [], s;
    assert Run(s, [], s) by { RunNothing(s); }
    var p := 0;
    while p < NPROC
      invariant 0 <= p <= NPROC && Run(s, steps, s') && Inv(s') && Models(rq, s')
      invariant (forall step :: step in steps ==> step.Wake?) && WokenBelow(s, s', p, me, onChan)
    {
      assert SameTask(s'.task[p], rq.proc[p]) && s'.task[p] == s.task[p];
      if p != me && rq.proc[p].state == SLEEPING && p in onChan {
        assert Sleeper(s, p, me, onChan);
        WokenNext(s, s', p, me, onChan, p + 1);
        WakeInv(s', p);
        RunThen(s, steps, s', Step.Wake(p));
        Wake(rq, p, s');
        steps, s' := steps + [Step.Wake(p)], WakeStep(s', p);
      } else {
        WokenSkip(s, s', p, me, onChan, p + 1);
      }
      p := p + 1;
    }
  }

  lemma RunNothing(s: State)
    ensures Run(s, [], s)
  {
  }

  /** chprio, called by the process on CPU c */
  method Renice(rq: RunQueue, p: Slot, priority: int, ghost c: nat, ghost s: State)
    requires Models(rq, s) && p < NPROC && Running(s, c)
    modifies rq.proc
    ensures Enabled(s, Step.Chprio(c, p, priority)) && Models(rq, Next(s, Step.Chprio(c, p, priority)))
  {
    hide WeightOf;
    assert SameTask(s.task[p], rq.proc[p]);
    ghost var h := rq.proc[..];
    rq.Chprio(p, priority);
    forall x: Slot | x < NPROC ensures SameTask(ChprioStep(s, p, priority).task[x], rq.proc[x]) {
      assert SameTask(s.task[x], h[x]);
    }
  }

  /** A timer interrupt on the CPU of process p: the tick is charged in user mode, then yield decides. */
  method Tick(rq: RunQueue, p: Slot, user: bool, min: Snapshot, ghost c: nat, ghost s: State)
    requires Models(rq, s) && Inv(s) && Running(s, c) && s.cpu[c].p == p
    modifies rq, rq.proc
    ensures Models(rq, TickStep(s, c, user, min))
  {
    hide WeightOf, Enqueue, PutInQueue;
    assert CpuGood(s, c) && TaskGood(s, p) && SameTask(s.task[p], rq.proc[p]);
    var cr := rq.proc[p].currentRuntime + if user then 1 else 0;
    ghost var t := s.task[p].(cr := s.task[p].cr + if user then 1 else 0);
    ghost var s1 := WithTask(s, p, t, s.place[p]);
    UpdateMatches(s, rq.proc[..], rq.Queue(), rq.rbTreeWeight, rq.period, p, t, s.place[p]);
    assert s1 == s.(task := s.task[p := t]);
    rq.Update(p, rq.proc[p].state, rq.proc[p].virtualRuntime, cr);
    if CheckPreemption(cr, rq.proc[p].maximumExecutiontime, rq.proc[p].virtualRuntime, min) {
      ChargedQueue(s, p, Charged(s1, p));
      Requeue(rq, p, s1);
    }
  }

  /** procinit and rbinit leave the machine's initial state. */
  method Boot(rq: RunQueue, ghost cpus: nat)
    requires rq.proc.Length == NPROC && forall p :: 0 <= p < NPROC ==>
               rq.proc[p].left == NULL && rq.proc[p].right == NULL && SameTask(Task(UNUSED, 0, 0, 0, 0, 0), rq.proc[p])
    modifies rq
    ensures Models(rq, Initial(cpus))
  {
    rq.Rbinit();
  }
}
