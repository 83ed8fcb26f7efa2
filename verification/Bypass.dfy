/**
 Bounded bypass (kernel/proc.c, kernel/trap.c): how often a queued process can see others dispatched before it.
 */
module Bypass {
  import opened RbTree
  import opened ProcTable
  import opened RunQueues
  import opened Scheduler
  import opened Fairness
  import opened Weights

  /** A process that can be dispatched without being forked first: queued, in a scheduler's hands, running or asleep. */
  predicate Live(s: State, q: Slot) {
    q < |s.place| && (s.place[q].Queued? || s.place[q].InHand? || s.place[q].OnCpu? || s.place[q].Asleep?)
  }

  /** The least runtime under which q can be queued from here on, if each dispatch is charged at least one tick. */
  function Earliest(s: State, q: Slot): int
    requires q < |s.task|
  {
    var t := s.task[q];
    if q in s.queue then t.vr else t.vr + if t.cr >= 1 then t.cr else 1
  }

  /** How often q can still go before a process queued at runtime v. */
  function Chances(v: int, vq: int): nat { if vq <= v then v - vq + 1 else 0 }

  function Left(s: State, p: Slot, n: nat): nat
    requires n <= |s.task| && p < |s.task|
  {
    if n == 0 then 0
    else Left(s, p, n - 1) + if n - 1 == p || !Live(s, n - 1) then 0 else Chances(s.task[p].vr, Earliest(s, n - 1))
  }

  /** The bound: over all other live processes q, how far v is ahead of q's runtime, plus one. */
  function Bound(s: State, p: Slot, n: nat): nat
    requires n <= |s.task| && p < |s.task|
  {
    if n == 0 then 0
    else Bound(s, p, n - 1) + if n - 1 == p || !Live(s, n - 1) then 0 else Chances(s.task[p].vr, s.task[n - 1].vr)
  }

  /** No process is created, and whatever joins the queue has been charged at least one tick. */
  predicate Quiet(s: State, step: Step)
    requires Enabled(s, step)
  {
    match step
    case Alloc(p) => false
    case Ready(p) => false
    case ForkInsert(p) => false
    case Tick(c, user, min) => Preempted(s, c, user, min) ==> s.task[s.cpu[c].p].cr + (if user then 1 else 0) >= 1
    case Wake(p) => s.task[p].cr >= 1
    case _ => true
  }

  /** p waits in the queue: it is not the one taken. */
  predicate Waits(s: State, step: Step, p: Slot)
    requires Enabled(s, step)
  {
    step.Retrieve? ==> s.queue[0] != p
  }

  predicate QuietRun(s: State, steps: seq<Step>, s': State, p: Slot)
    requires Run(s, steps, s')
    decreases |steps|
  {
    steps == [] || (Quiet(s, steps[0]) && Waits(s, steps[0], p) && QuietRun(Next(s, steps[0]), steps[1..], s', p))
  }

  function Dispatches(steps: seq<Step>): nat {
    if steps == [] then 0 else (if steps[0].Retrieve? then 1 else 0) + Dispatches(steps[1..])
  }

  // ---------------------------------------------------------------- one step

  /** A process that joins the queue: everyone else's place and runtime stay. */
  lemma InsertedEarliest(s: State, s1: State, p: Slot, q: Slot)
    requires Inv(s) && p < NPROC && p !in s.queue && |s1.task| == NPROC == |s1.place| && s1.queue == s.queue &&
             q < NPROC
    requires forall x: Slot :: x < NPROC && x != p ==> s1.task[x] == s.task[x]
    ensures var s' := PutInQueue(s1, p);
            |s'.task| == NPROC == |s'.place| && (q in s'.queue <==> q == p || q in s.queue) &&
            (q != p ==> s'.place[q] == s1.place[q]) &&
            s'.task[q].vr == s1.task[q].vr && s'.task[q].cr == s1.task[q].cr
  {
    ChargedQueue(s, p, s1);
    InsertedIs(s1, p);
    EnqueueMembers(Runtimes(PutInQueue(s1, p).task), s.queue, p);
    SortedFrame(s.task, PutInQueue(s1, p).task, s.queue);
  }

  predicate NotSooner(s: State, s': State, q: Slot) {
    q < |s.task| && |s'.task| == |s.task| && (Live(s', q) ==> Live(s, q)) && Earliest(s', q) >= Earliest(s, q)
  }

  predicate StillQueued(s: State, s': State, p: Slot) {
    p < |s.task| && |s'.task| == |s.task| && p in s'.queue && s'.task[p].vr == s.task[p].vr
  }

  lemma TickEarliest(s: State, c: nat, user: bool, min: Snapshot, p: Slot, q: Slot)
    requires Inv(s) && Enabled(s, Tick(c, user, min)) && Quiet(s, Tick(c, user, min)) && p in s.queue && q < NPROC
    ensures NotSooner(s, TickStep(s, c, user, min), q) && StillQueued(s, TickStep(s, c, user, min), p)
  {
    hide WeightOf, Enqueue;
    var r := s.cpu[c].p;
    assert CpuGood(s, c) && TaskGood(s, r) && TaskGood(s, p);
    var t := s.task[r].(cr := s.task[r].cr + if user then 1 else 0);
    var s1 := s.(task := s.task[r := t]);
    if Preempted(s, c, user, min) {
      InsertedEarliest(s, Charged(s1, r), r, q);
      InsertedEarliest(s, Charged(s1, r), r, p);
    }
  }

  lemma WakeEarliest(s: State, w: Slot, p: Slot, q: Slot)
    requires Inv(s) && Enabled(s, Wake(w)) && Quiet(s, Wake(w)) && p in s.queue && q < NPROC
    ensures NotSooner(s, WakeStep(s, w), q) && StillQueued(s, WakeStep(s, w), p)
  {
    assert TaskGood(s, w) && TaskGood(s, p);
    InsertedEarliest(s, Charged(s, w), w, q);
    InsertedEarliest(s, Charged(s, w), w, p);
  }

  /** A quiet step that takes nothing out of the queue lets nobody in sooner. */
  lemma QuietStep(s: State, step: Step, p: Slot, q: Slot)
    requires Inv(s) && Enabled(s, step) && Quiet(s, step) && !step.Retrieve? && p in s.queue && q < NPROC
    ensures NotSooner(s, Next(s, step), q) && StillQueued(s, Next(s, step), p)
  {
    assert TaskGood(s, p);
    match step
    case Tick(c, user, min) => TickEarliest(s, c, user, min, p, q);
    case Wake(w) => WakeEarliest(s, w, p, q);
    case Sleep(c) => assert CpuGood(s, c) && TaskGood(s, s.cpu[c].p);
    case Dispatch(c) => assert CpuGood(s, c) && TaskGood(s, s.cpu[c].p);
    case _ =>
  }

  /** Taking another process out of the queue uses up one of its chances. */
  lemma RetrieveEarliest(s: State, c: nat, p: Slot, q: Slot)
    requires Inv(s) && Enabled(s, Retrieve(c)) && p in s.queue && s.queue[0] != p && q < NPROC
    ensures var s', h := RetrieveStep(s, c), s.queue[0];
            NotSooner(s, s', q) && StillQueued(s, s', p) && (q == h ==> Earliest(s', q) == Earliest(s, q) + 1) &&
            Live(s, h) && Earliest(s, h) <= s.task[p].vr
  {
    hide MachineDiv, PeriodFor;
    var h := s.queue[0];
    assert h in s.queue && TaskGood(s, h) && TaskGood(s, p);
    RetrieveInv(s, c);
    HeadLeaves(s.queue);
    HeadLeast(s, p);
  }

  lemma HeadLeaves(q: seq<Slot>)
    requires NoDup(q) && q != []
    ensures q[0] !in q[1..] && forall x: Slot :: x in q <==> x == q[0] || x in q[1..]
  {
    assert q == [q[0]] + q[1..];
  }

  lemma HeadLeast(s: State, p: Slot)
    requires QueueGood(s) && |s.task| == NPROC && p in s.queue
    ensures s.queue[0] < NPROC && p < NPROC && s.task[s.queue[0]].vr <= s.task[p].vr
  {
    var i :| 0 <= i < |s.queue| && s.queue[i] == p;
    assert s.queue[0] in s.queue;
    assert Key(Runtimes(s.task), s.queue[0]) <= Key(Runtimes(s.task), s.queue[i]);
  }

  // ---------------------------------------------------------------- adding up

  lemma {:induction false} LeftMonotone(s: State, s': State, p: Slot, n: nat)
    requires n <= |s.task| && StillQueued(s, s', p) && forall q: Slot :: q < n ==> NotSooner(s, s', q)
    ensures Left(s', p, n) <= Left(s, p, n)
  {
    if n > 0 {
      assert NotSooner(s, s', n - 1);
      LeftMonotone(s, s', p, n - 1);
    }
  }

  lemma {:induction false} LeftDrops(s: State, s': State, p: Slot, h: Slot, n: nat)
    requires h < n <= |s.task| && h != p && Live(s, h) && StillQueued(s, s', p) &&
             forall q: Slot :: q < n ==> NotSooner(s, s', q)
    requires Earliest(s', h) == Earliest(s, h) + 1 && Earliest(s, h) <= s.task[p].vr
    ensures Left(s', p, n) + 1 <= Left(s, p, n)
  {
    assert NotSooner(s, s', n - 1);
    if h == n - 1 {
      LeftMonotone(s, s', p, n - 1);
    } else {
      LeftDrops(s, s', p, h, n - 1);
    }
  }

  lemma StepLeft(s: State, step: Step, p: Slot)
    requires Inv(s) && Enabled(s, step) && Quiet(s, step) && Waits(s, step, p) && p in s.queue
    ensures p < NPROC && StillQueued(s, Next(s, step), p)
    ensures Left(Next(s, step), p, NPROC) + (if step.Retrieve? then 1 else 0) <= Left(s, p, NPROC)
  {
    assert TaskGood(s, p);
    var s' := Next(s, step);
    if step.Retrieve? {
      RetrieveEarliest(s, step.c, p, s.queue[0]);
      assert s.queue[0] in s.queue;
      forall q: Slot | q < NPROC ensures NotSooner(s, s', q) {
        RetrieveEarliest(s, step.c, p, q);
      }
      LeftDrops(s, s', p, s.queue[0], NPROC);
    } else {
      QuietStep(s, step, p, p);
      forall q: Slot | q < NPROC ensures NotSooner(s, s', q) {
        QuietStep(s, step, p, q);
      }
      LeftMonotone(s, s', p, NPROC);
    }
  }

  lemma {:induction false} LeftWithinBound(s: State, p: Slot, n: nat)
    requires n <= |s.task| && p < |s.task|
    ensures Left(s, p, n) <= Bound(s, p, n)
  {
    if n > 0 {
      LeftWithinBound(s, p, n - 1);
    }
  }

  lemma {:induction false} RunLeft(s: State, steps: seq<Step>, s': State, p: Slot)
    requires Inv(s) && Run(s, steps, s') && QuietRun(s, steps, s', p) && p in s.queue
    ensures p < NPROC && p in s'.queue && Dispatches(steps) <= Left(s, p, NPROC)
    decreases |steps|
  {
    assert TaskGood(s, p);
    if steps != [] {
      StepInv(s, steps[0]);
      StepLeft(s, steps[0], p);
      RunLeft(Next(s, steps[0]), steps[1..], s', p);
    }
  }

  /** While a process queued at runtime v waits, at most the sum over the other live processes q of max(0, v - v_q + 1)
      dispatches happen. */
  lemma BoundedBypass(s: State, steps: seq<Step>, s': State, p: Slot)
    requires Inv(s) && Run(s, steps, s') && QuietRun(s, steps, s', p) && p in s.queue
    ensures p < NPROC && Dispatches(steps) <= Bound(s, p, NPROC)
  {
    RunLeft(s, steps, s', p);
    LeftWithinBound(s, p, NPROC);
  }
}
