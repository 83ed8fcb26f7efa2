/**
 Processes, run queue and CPUs as one machine (kernel/proc.c, kernel/trap.c).

 A step is one region under a lock.  The run queue is the in-order sequence of the tree, as module
 RunQueues proves it.  `place` names the one place each process is in.
 */
module Scheduler {
  import opened RbTree
  import opened ProcTable
  import opened RunQueues
  import opened Weights

  /** What one CPU is doing.  `Picked` has taken a process out of the tree and not yet locked it; `Off` has left a
      process whose lock it still holds. */
  datatype Cpu = Idle | Picked(p: Slot) | On(p: Slot) | Off(p: Slot)

  datatype Place = Unused | Used | Forking | Queued | InHand(c: nat) | OnCpu(c: nat) | Asleep | Dead

  datatype Task = Task(state: ProcState, vr: int, cr: nat, slice: int, nice: int, weight: int)

  datatype State = State(
    task: seq<Task>, queue: seq<Slot>, forking: set<Slot>, cpu: seq<Cpu>,
    period: int, rbTreeWeight: int, place: seq<Place>)

  function Runtimes(task: seq<Task>): (vr: seq<int>)
    ensures |vr| == |task| && forall p :: 0 <= p < |task| ==> vr[p] == task[p].vr
  {
    seq(|task|, p requires 0 <= p < |task| => task[p].vr)
  }

  // ---------------------------------------------------------------- the invariant

  /** The most a task may run before checkPreemption takes the CPU away. */
  function Budget(t: Task): int { if t.slice < MIN_GRANULARITY then MIN_GRANULARITY else t.slice }

  predicate TaskGood(s: State, p: Slot) {
    p < |s.task| && p < |s.place| ==>
      var t := s.task[p];
      (p in s.queue ==> s.place[p] == Queued) && (p in s.forking ==> s.place[p] == Forking) &&
      match s.place[p]
      case Unused => t.state == UNUSED
      case Used => t.state == USED && t.cr == 0
      case Forking => t.state == RUNNABLE && p in s.forking && t.cr == 0
      case Queued => t.state == RUNNABLE && p in s.queue && t.cr == 0 && 1 <= t.weight <= 819
      case InHand(c) => t.state == RUNNABLE && c < |s.cpu| && s.cpu[c] == Picked(p) && t.cr == 0
      case OnCpu(c) => t.state == RUNNING && c < |s.cpu| && s.cpu[c] == On(p) && t.cr < Budget(t)
      case Asleep => t.state == SLEEPING && t.cr <= Budget(t)
      case Dead => t.state == ZOMBIE
  }

  predicate CpuGood(s: State, c: nat) {
    c < |s.cpu| ==>
      match s.cpu[c]
      case Idle => true
      case Picked(p) => p < |s.place| && s.place[p] == InHand(c)
      case On(p) => p < |s.place| && s.place[p] == OnCpu(c)
      case Off(p) =>
        p < |s.place| && !s.place[p].OnCpu? && forall d :: 0 <= d < |s.cpu| && s.cpu[d] == Off(p) ==> d == c
  }

  predicate QueueGood(s: State) {
    Sorted(Runtimes(s.task), s.queue) && NoDup(s.queue) && forall p: Slot :: p in s.queue ==> p < NPROC
  }

  ghost predicate Inv(s: State) {
    |s.task| == NPROC == |s.place| && QueueGood(s) && NPROC / 2 <= s.period <= 2 * NPROC &&
    (forall p: Slot :: TaskGood(s, p)) && forall c: nat :: CpuGood(s, c)
  }

  // ---------------------------------------------------------------- what the invariant says

  predicate Available(s: State, p: Slot, c: nat) { c < |s.cpu| && s.cpu[c] == Picked(p) }

  /** A runnable process is in exactly one of the tree, a fork about to insert it, and the hands of one scheduler. */
  lemma RunnableInOnePlace(s: State, p: Slot)
    requires Inv(s) && p < NPROC && s.task[p].state == RUNNABLE
    ensures p in s.queue || p in s.forking || exists c: nat :: Available(s, p, c)
    ensures !(p in s.queue && p in s.forking)
    ensures p in s.queue || p in s.forking ==> forall c: nat :: !Available(s, p, c)
    ensures forall c: nat, d: nat :: Available(s, p, c) && Available(s, p, d) ==> c == d
  {
    assert TaskGood(s, p);
    if s.place[p].InHand? {
      assert Available(s, p, s.place[p].c);
    }
    forall c: nat | Available(s, p, c) ensures s.place[p] == InHand(c) {
      assert CpuGood(s, c);
    }
  }

  predicate Uses(s: State, p: Slot, c: nat) { c < |s.cpu| && (s.cpu[c] == On(p) || s.cpu[c] == Off(p)) }

  /** No two CPUs are on the stack of one process. */
  lemma OneStackPerCpu(s: State, p: Slot, c: nat, d: nat)
    requires Inv(s) && Uses(s, p, c) && Uses(s, p, d)
    ensures c == d
  {
    assert CpuGood(s, c) && CpuGood(s, d);
  }

  /** A running process is on one CPU, and in no queue. */
  lemma RunningOnOneCpu(s: State, p: Slot)
    requires Inv(s) && p < NPROC
    ensures s.task[p].state == RUNNING <==> exists c: nat :: c < |s.cpu| && s.cpu[c] == On(p)
    ensures s.task[p].state != RUNNABLE ==> p !in s.queue && p !in s.forking
  {
    assert TaskGood(s, p);
    if s.place[p].OnCpu? {
      assert s.cpu[s.place[p].c] == On(p);
    }
    forall c: nat | c < |s.cpu| && s.cpu[c] == On(p) ensures s.task[p].state == RUNNING {
      assert CpuGood(s, c);
    }
  }

  /** A process outside the queue always finds room in it: the full-tree branch of insertProcess is never taken. */
  lemma RoomInQueue(s: State, p: Slot)
    requires QueueGood(s) && p < NPROC && p !in s.queue
    ensures |s.queue| < NPROC
  {
    var members := Members(s.queue);
    assert members + {p} <= Upto(NPROC);
    SubsetCount(members + {p}, Upto(NPROC));
  }

  function Members(q: seq<Slot>): (m: set<Slot>)
    requires NoDup(q)
    ensures |m| == |q| && forall p: Slot :: p in m <==> p in q
  {
    if q == [] then {} else
      assert forall i, j :: 0 <= i < j < |q| - 1 ==> q[i] != q[j];
      var n := |q| - 1;
      assert q == q[..n] + [q[n]];
      Members(q[..n]) + {q[n]}
  }

  // ---------------------------------------------------------------- steps

  /** What yield saw of the queue's minimum, read without the queue's lock: any value. */
  datatype Snapshot = NoMinimum | Minimum(runnable: bool, vr: int)

  /** checkPreemption */
  predicate CheckPreemption(cr: int, slice: int, vr: int, min: Snapshot) {
    (cr >= slice && cr >= MIN_GRANULARITY) ||
    (min.Minimum? && min.runnable && vr > min.vr && ((cr != 0 && cr >= MIN_GRANULARITY) || cr == 0))
  }

  function WithTask(s: State, p: Slot, t: Task, u: Place): State
    requires p < |s.task| == |s.place|
  {
    s.(task := s.task[p := t], place := s.place[p := u])
  }

  /** insertProcess */
  function PutInQueue(s: State, p: Slot): State
    requires p < |s.task| == |s.place|
  {
    if |s.queue| == NPROC then s else
      var t := s.task[p].(weight := WeightOf(s.task[p].nice));
      WithTask(s, p, t, Queued).(queue := Enqueue(Runtimes(s.task), s.queue, p),
                                 rbTreeWeight := s.rbTreeWeight + t.weight)
  }

  /** The runtime of this dispatch is charged and the process becomes runnable. */
  function Charged(s: State, p: Slot): State
    requires p < |s.task| == |s.place|
  {
    var t := s.task[p];
    WithTask(s, p, t.(state := RUNNABLE, vr := t.vr + t.cr, cr := 0), s.place[p])
  }

  datatype Step =
    | Alloc(p: Slot)                           // allocproc
    | Abort(p: Slot)                           // fork fails
    | Ready(p: Slot)                           // fork makes the child runnable
    | ForkInsert(p: Slot)                      // and then inserts it
    | Retrieve(c: nat)                         // scheduler calls retrieveProcess
    | Dispatch(c: nat)                         // and locks and runs what it got
    | Tick(c: nat, user: bool, min: Snapshot)  // timer interrupt, then yield
    | Sleep(c: nat)
    | Exit(c: nat)
    | Release(c: nat)                          // back in scheduler, the process is unlocked
    | Wake(p: Slot)                            // wakeup or kill
    | Reap(p: Slot)                            // wait frees a zombie
    | Chprio(c: nat, p: Slot, priority: int)   // a system call of the process on CPU c; takes no lock

  /** No CPU holds p's lock. */
  predicate Unlocked(s: State, p: Slot) { forall c :: 0 <= c < |s.cpu| ==> s.cpu[c] != Off(p) }

  predicate IsTask(s: State, p: Slot) { p < |s.task| == |s.place| }

  predicate Running(s: State, c: nat) { c < |s.cpu| && s.cpu[c].On? && IsTask(s, s.cpu[c].p) }

  predicate Enabled(s: State, step: Step) {
    match step
    case Alloc(p) => IsTask(s, p) && s.task[p].state == UNUSED && Unlocked(s, p)
    case Abort(p) => IsTask(s, p) && s.task[p].state == USED
    case Ready(p) => IsTask(s, p) && s.task[p].state == USED
    case ForkInsert(p) => IsTask(s, p) && p in s.forking
    case Retrieve(c) => c < |s.cpu| && s.cpu[c] == Idle && s.queue != [] && IsTask(s, s.queue[0])
    case Dispatch(c) => c < |s.cpu| && s.cpu[c].Picked? && IsTask(s, s.cpu[c].p) && Unlocked(s, s.cpu[c].p)
    case Tick(c, user, min) => Running(s, c)
    case Sleep(c) => Running(s, c)
    case Exit(c) => Running(s, c)
    case Release(c) => c < |s.cpu| && s.cpu[c].Off?
    case Wake(p) => IsTask(s, p) && s.task[p].state == SLEEPING && Unlocked(s, p)
    case Reap(p) => IsTask(s, p) && s.task[p].state == ZOMBIE && Unlocked(s, p)
    case Chprio(c, p, priority) => Running(s, c) && IsTask(s, p)
  }

  function AllocStep(s: State, p: Slot): State
    requires IsTask(s, p)
  {
    WithTask(s, p, Task(USED, 0, 0, 0, 0, s.task[p].weight), Used)
  }

  function AbortStep(s: State, p: Slot): State
    requires IsTask(s, p)
  {
    WithTask(s, p, s.task[p].(state := UNUSED), Unused)
  }

  function ReadyStep(s: State, p: Slot): State
    requires IsTask(s, p)
  {
    WithTask(s, p, s.task[p].(state := RUNNABLE), Forking).(forking := s.forking + {p})
  }

  function ForkInsertStep(s: State, p: Slot): State
    requires IsTask(s, p)
  {
    PutInQueue(s.(forking := s.forking - {p}), p)
  }

  /** The first process leaves the queue with a time slice, and its weight leaves the running total. */
  function Dequeued(s: State, c: nat, period: int, slice: int): State
    requires c < |s.cpu| && s.queue != [] && IsTask(s, s.queue[0])
  {
    var p := s.queue[0];
    WithTask(s, p, s.task[p].(slice := slice), InHand(c)).(
      queue := s.queue[1..], cpu := s.cpu[c := Picked(p)],
      period := period, rbTreeWeight := s.rbTreeWeight - s.task[p].weight)
  }

  function RetrieveStep(s: State, c: nat): State
    requires c < |s.cpu| && s.queue != [] && IsTask(s, s.queue[0])
  {
    var p, period := s.queue[0], PeriodFor(|s.queue|, s.period);
    if s.task[p].state != RUNNABLE then s.(period := period) else
      Dequeued(s, c, period, MachineDiv(period * s.task[p].weight, s.rbTreeWeight))
  }

  function DispatchStep(s: State, c: nat): State
    requires c < |s.cpu| && s.cpu[c].Picked? && IsTask(s, s.cpu[c].p)
  {
    var p := s.cpu[c].p;
    if s.task[p].state == RUNNABLE then WithTask(s, p, s.task[p].(state := RUNNING),
                                                 OnCpu(c)).(cpu := s.cpu[c := On(p)])
    else s.(cpu := s.cpu[c := Idle])
  }

  function TickStep(s: State, c: nat, user: bool, min: Snapshot): State
    requires Running(s, c)
  {
    var p := s.cpu[c].p;
    var t := s.task[p].(cr := s.task[p].cr + if user then 1 else 0);
    var s' := s.(task := s.task[p := t]);
    if CheckPreemption(t.cr, t.slice, t.vr, min) then PutInQueue(Charged(s', p), p).(cpu := s.cpu[c := Off(p)]) else s'
  }

  function LeaveStep(s: State, c: nat, state: ProcState, u: Place): State
    requires Running(s, c)
  {
    var p := s.cpu[c].p;
    WithTask(s, p, s.task[p].(state := state), u).(cpu := s.cpu[c := Off(p)])
  }

  function ReleaseStep(s: State, c: nat): State
    requires c < |s.cpu|
  {
    s.(cpu := s.cpu[c := Idle])
  }

  function WakeStep(s: State, p: Slot): State
    requires IsTask(s, p)
  {
    PutInQueue(Charged(s, p), p)
  }

  /** chprio: the weight changes wherever the process is, and the running total is not told. */
  function ChprioStep(s: State, p: Slot, priority: int): State
    requires IsTask(s, p)
  {
    WithTask(s, p, s.task[p].(nice := priority, weight := WeightOf(priority)), s.place[p])
  }

  function Next(s: State, step: Step): State
    requires Enabled(s, step)
  {
    match step
    case Alloc(p) => AllocStep(s, p)
    case Abort(p) => AbortStep(s, p)
    case Ready(p) => ReadyStep(s, p)
    case ForkInsert(p) => ForkInsertStep(s, p)
    case Retrieve(c) => RetrieveStep(s, c)
    case Dispatch(c) => DispatchStep(s, c)
    case Tick(c, user, min) => TickStep(s, c, user, min)
    case Sleep(c) => LeaveStep(s, c, SLEEPING, Asleep)
    case Exit(c) => LeaveStep(s, c, ZOMBIE, Dead)
    case Release(c) => ReleaseStep(s, c)
    case Wake(p) => WakeStep(s, p)
    case Reap(p) => AbortStep(s, p)
    case Chprio(c, p, priority) => ChprioStep(s, p, priority)
  }

  // ---------------------------------------------------------------- every step keeps the invariant

  /** A queue stays sorted when only a process outside it changes. */
  lemma SortedFrame(task: seq<Task>, task': seq<Task>, q: seq<Slot>)
    requires |task'| == |task| && Sorted(Runtimes(task), q)
    requires forall p: Slot :: p in q && p < |task| ==> task'[p].vr == task[p].vr
    ensures Sorted(Runtimes(task'), q)
  {
    var vr, vr' := Runtimes(task), Runtimes(task');
    forall i, j | 0 <= i < j < |q| ensures Key(vr', q[i]) <= Key(vr', q[j]) {
      assert Key(vr, q[i]) <= Key(vr, q[j]);
      assert q[i] in q && q[j] in q;
    }
  }

  /** Only process p, outside the queue before and after, is changed. */
  lemma OneTask(s: State, p: Slot, t: Task, u: Place)
    requires Inv(s) && p < NPROC && p !in s.queue && p !in s.forking && !s.place[p].InHand? && !s.place[p].OnCpu?
    requires TaskGood(WithTask(s, p, t, u), p) && !u.OnCpu?
    ensures Inv(WithTask(s, p, t, u))
  {
    var s' := WithTask(s, p, t, u);
    SortedFrame(s.task, s'.task, s.queue);
    forall q: Slot ensures TaskGood(s', q) {
      assert TaskGood(s, q);
    }
    forall c: nat ensures CpuGood(s', c) {
      assert CpuGood(s, c);
    }
  }

  lemma AllocInv(s: State, p: Slot)
    requires Inv(s) && Enabled(s, Alloc(p))
    ensures Inv(AllocStep(s, p))
  {
    assert TaskGood(s, p);
    OneTask(s, p, Task(USED, 0, 0, 0, 0, s.task[p].weight), Used);
  }

  lemma AbortInv(s: State, p: Slot)
    requires Inv(s) && (Enabled(s, Abort(p)) || Enabled(s, Reap(p)))
    ensures Inv(AbortStep(s, p))
  {
    assert TaskGood(s, p);
    OneTask(s, p, s.task[p].(state := UNUSED), Unused);
  }

  lemma ReadyInv(s: State, p: Slot)
    requires Inv(s) && Enabled(s, Ready(p))
    ensures Inv(ReadyStep(s, p))
  {
    var s' := ReadyStep(s, p);
    assert TaskGood(s, p);
    SortedFrame(s.task, s'.task, s.queue);
    forall q: Slot ensures TaskGood(s', q) {
      assert TaskGood(s, q);
    }
    forall c: nat ensures CpuGood(s', c) {
      assert CpuGood(s, c);
    }
  }

  lemma EnqueueMembers(vr: seq<int>, q: seq<Slot>, p: Slot)
    requires Sorted(vr, q) && NoDup(q) && p !in q
    ensures var q' := Enqueue(vr, q, p);
            Sorted(vr, q') && NoDup(q') && |q'| == |q| + 1 && forall x: Slot :: x in q' <==> x == p || x in q
  {
    var k := EnqueueCut(vr, q, p);
    assert q == q[..k] + q[k..];
    NoDupConcat(q[..k], q[k..]);
    NoDupAround(q[..k], p, q[k..]);
  }

  /** A process from outside the queue, made runnable and inserted, while at most its own CPU changes. */
  lemma EnqueueInv(s: State, p: Slot, t: Task, s': State)
    requires Inv(s) && p < NPROC && p !in s.queue && t.state == RUNNABLE && t.cr == 0 && 1 <= t.weight <= 819
    requires s' == State(s.task[p := t], Enqueue(Runtimes(s.task[p := t]), s.queue, p), s.forking - {p}, s'.cpu,
                         s.period, s'.rbTreeWeight, s.place[p := Queued])
    requires |s'.cpu| == |s.cpu| && forall c :: 0 <= c < |s.cpu| ==> s'.cpu[c] == s.cpu[c] || s.place[p] == OnCpu(c)
    requires forall c: nat :: CpuGood(s', c)
    ensures Inv(s')
  {
    SortedFrame(s.task, s'.task, s.queue);
    EnqueueMembers(Runtimes(s'.task), s.queue, p);
    forall q: Slot ensures TaskGood(s', q) {
      assert TaskGood(s, q) && TaskGood(s, p);
    }
  }

  /** PutInQueue, spelt out, when the process is outside the queue. */
  lemma InsertedIs(s: State, p: Slot)
    requires QueueGood(s) && |s.task| == NPROC == |s.place| && p < NPROC && p !in s.queue
    ensures var t := s.task[p].(weight := WeightOf(s.task[p].nice));
            PutInQueue(s, p) == State(s.task[p := t], Enqueue(Runtimes(s.task[p := t]), s.queue, p), s.forking, s.cpu,
                                      s.period, s.rbTreeWeight + t.weight, s.place[p := Queued])
    ensures 1 <= WeightOf(s.task[p].nice) <= 819
  {
    var t := s.task[p].(weight := WeightOf(s.task[p].nice));
    RoomInQueue(s, p);
    assert Runtimes(s.task[p := t]) == Runtimes(s.task);
    WeightBounds(s.task[p].nice);
  }

  lemma ForkInsertInv(s: State, p: Slot)
    requires Inv(s) && Enabled(s, ForkInsert(p))
    ensures Inv(ForkInsertStep(s, p)) && p in ForkInsertStep(s, p).queue
  {
    assert TaskGood(s, p);
    var s1 := s.(forking := s.forking - {p});
    InsertedIs(s1, p);
    var s' := PutInQueue(s1, p);
    forall c: nat ensures CpuGood(s', c) {
      assert CpuGood(s, c);
    }
    EnqueueInv(s, p, s'.task[p], s');
    EnqueueMembers(Runtimes(s'.task), s.queue, p);
  }

  lemma QueueSize(s: State)
    requires QueueGood(s)
    ensures |s.queue| <= NPROC
  {
    SubsetCount(Members(s.queue), Upto(NPROC));
  }

  /** The scheduling period lies in NPROC/2..2*NPROC. */
  lemma PeriodBounds(s: State)
    requires Inv(s)
    ensures NPROC / 2 <= PeriodFor(|s.queue|, s.period) <= 2 * NPROC
  {
    QueueSize(s);
  }

  lemma RetrieveInv(s: State, c: nat)
    requires Inv(s) && Enabled(s, Retrieve(c))
    ensures Inv(RetrieveStep(s, c))
    ensures s.task[s.queue[0]].state == RUNNABLE && RetrieveStep(s, c).cpu[c] == Picked(s.queue[0])
  {
    var p, period := s.queue[0], PeriodFor(|s.queue|, s.period);
    assert p in s.queue && TaskGood(s, p);
    PeriodBounds(s);
    DequeueInv(s, c, period, MachineDiv(period * s.task[p].weight, s.rbTreeWeight), RetrieveStep(s, c));
  }

  lemma DequeueInv(s: State, c: nat, period: int, slice: int, s': State)
    requires Inv(s) && c < |s.cpu| && s.cpu[c] == Idle && s.queue != [] && s.queue[0] < NPROC
    requires NPROC / 2 <= period <= 2 * NPROC && s' == Dequeued(s, c, period, slice)
    ensures Inv(s')
  {
    var p := s.queue[0];
    assert p in s.queue && TaskGood(s, p);
    assert NoDup(s'.queue) && p !in s'.queue by {
      assert s.queue == [p] + s'.queue;
      assert NoDup([p] + s'.queue);
      NoDupConcat([p], s'.queue);
      assert p in [p];
    }
    forall q: Slot | q in s'.queue ensures q in s.queue {
    }
    SortedTail(Runtimes(s.task), s.queue);
    SortedFrame(s.task, s'.task, s'.queue);
    forall q: Slot ensures TaskGood(s', q) {
      assert TaskGood(s, q);
    }
    forall d: nat ensures CpuGood(s', d) {
      assert CpuGood(s, d);
    }
  }

  lemma SortedTail(vr: seq<int>, q: seq<Slot>)
    requires Sorted(vr, q) && q != []
    ensures Sorted(vr, q[1..])
  {
    var r := q[1..];
    forall i, j | 0 <= i < j < |r| ensures Key(vr, r[i]) <= Key(vr, r[j]) {
      assert Key(vr, q[i + 1]) <= Key(vr, q[j + 1]);
    }
  }

  lemma DispatchInv(s: State, c: nat)
    requires Inv(s) && Enabled(s, Dispatch(c))
    ensures Inv(DispatchStep(s, c)) && s.task[s.cpu[c].p].state == RUNNABLE &&
            DispatchStep(s, c).cpu[c] == On(s.cpu[c].p)
  {
    var p := s.cpu[c].p;
    assert CpuGood(s, c) && TaskGood(s, p);
    var s' := DispatchStep(s, c);
    SortedFrame(s.task, s'.task, s'.queue);
    forall q: Slot ensures TaskGood(s', q) {
      assert TaskGood(s, q);
    }
    forall d: nat ensures CpuGood(s', d) {
      assert CpuGood(s, d);
    }
  }

  lemma LeaveInv(s: State, c: nat, state: ProcState, u: Place)
    requires Inv(s) && Running(s, c) && ((state == SLEEPING && u == Asleep) || (state == ZOMBIE && u == Dead))
    ensures Inv(LeaveStep(s, c, state, u))
  {
    var p := s.cpu[c].p;
    assert CpuGood(s, c) && TaskGood(s, p);
    var s' := LeaveStep(s, c, state, u);
    forall d: nat | d < |s.cpu| ensures s.cpu[d] != Off(p) {
      assert CpuGood(s, d);
    }
    SortedFrame(s.task, s'.task, s'.queue);
    forall q: Slot ensures TaskGood(s', q) {
      assert TaskGood(s, q);
    }
    forall d: nat ensures CpuGood(s', d) {
      assert CpuGood(s, d);
    }
  }

  lemma ReleaseInv(s: State, c: nat)
    requires Inv(s) && Enabled(s, Release(c))
    ensures Inv(ReleaseStep(s, c))
  {
    var s' := ReleaseStep(s, c);
    forall q: Slot ensures TaskGood(s', q) {
      assert TaskGood(s, q);
    }
    forall d: nat ensures CpuGood(s', d) {
      assert CpuGood(s, d);
    }
  }

  lemma ChargedQueue(s: State, p: Slot, s1: State)
    requires Inv(s) && p < NPROC && p !in s.queue && |s1.task| == NPROC && s1.queue == s.queue
    requires forall q: Slot :: q < NPROC && q != p ==> s1.task[q].vr == s.task[q].vr
    ensures QueueGood(s1)
  {
    SortedFrame(s.task, s1.task, s.queue);
  }

  lemma WakeInv(s: State, p: Slot)
    requires Inv(s) && Enabled(s, Wake(p))
    ensures Inv(WakeStep(s, p)) && p in WakeStep(s, p).queue
    ensures s.task[p].vr <= WakeStep(s, p).task[p].vr <= s.task[p].vr + Budget(s.task[p])
  {
    hide WeightOf, Enqueue;
    assert TaskGood(s, p);
    var s1 := Charged(s, p);
    ChargedQueue(s, p, s1);
    InsertedIs(s1, p);
    var s' := PutInQueue(s1, p);
    assert s'.task == s.task[p := s'.task[p]] && s'.forking == s.forking - {p};
    forall c: nat ensures CpuGood(s', c) {
      assert CpuGood(s, c);
    }
    EnqueueInv(s, p, s'.task[p], s');
    EnqueueMembers(Runtimes(s'.task), s.queue, p);
  }

  lemma YieldInv(s: State, c: nat, t: Task, s1: State)
    requires Inv(s) && Running(s, c) && t == s.task[s.cpu[c].p].(cr := t.cr) &&
             s1 == s.(task := s.task[s.cpu[c].p := t])
    ensures Inv(PutInQueue(Charged(s1, s.cpu[c].p), s.cpu[c].p).(cpu := s.cpu[c := Off(s.cpu[c].p)]))
    ensures s.cpu[c].p in PutInQueue(Charged(s1, s.cpu[c].p), s.cpu[c].p).queue
  {
    hide WeightOf, Enqueue;
    var p := s.cpu[c].p;
    assert CpuGood(s, c) && TaskGood(s, p);
    var s2 := Charged(s1, p);
    ChargedQueue(s, p, s2);
    InsertedIs(s2, p);
    var s' := PutInQueue(s2, p).(cpu := s.cpu[c := Off(p)]);
    assert s'.task == s.task[p := s'.task[p]] && s'.forking == s.forking - {p};
    forall d: nat | d < |s.cpu| ensures s.cpu[d] != Off(p) {
      assert CpuGood(s, d);
    }
    forall d: nat ensures CpuGood(s', d) {
      assert CpuGood(s, d);
    }
    EnqueueInv(s, p, s'.task[p], s');
    EnqueueMembers(Runtimes(s'.task), s.queue, p);
  }

  /** One tick: the process runs on, within its budget, or is back in the queue with at most its budget charged. */
  lemma TickInv(s: State, c: nat, user: bool, min: Snapshot)
    requires Inv(s) && Enabled(s, Tick(c, user, min))
    ensures Inv(TickStep(s, c, user, min))
    ensures var p, s' := s.cpu[c].p, TickStep(s, c, user, min);
            s.task[p].vr <= s'.task[p].vr <= s.task[p].vr + Budget(s.task[p]) &&
            (s'.task[p].state == RUNNABLE ==> p in s'.queue)
  {
    hide WeightOf, Enqueue;
    var p := s.cpu[c].p;
    assert CpuGood(s, c) && TaskGood(s, p);
    var t := s.task[p].(cr := s.task[p].cr + if user then 1 else 0);
    var s1 := s.(task := s.task[p := t]);
    if CheckPreemption(t.cr, t.slice, t.vr, min) {
      YieldInv(s, c, t, s1);
      InsertedTask(Charged(s1, p), p);
    } else {
      RunsOnInv(s, c, t, s1);
    }
  }

  lemma RunsOnInv(s: State, c: nat, t: Task, s1: State)
    requires Inv(s) && Running(s, c) && t == s.task[s.cpu[c].p].(cr := t.cr) && t.cr < Budget(t)
    requires s1 == s.(task := s.task[s.cpu[c].p := t])
    ensures Inv(s1)
  {
    assert CpuGood(s, c);
    SortedFrame(s.task, s1.task, s.queue);
    forall q: Slot ensures TaskGood(s1, q) {
      assert TaskGood(s, q);
    }
    forall d: nat ensures CpuGood(s1, d) {
      assert CpuGood(s, d);
    }
  }

  lemma InsertedTask(s: State, p: Slot)
    requires p < |s.task| == |s.place|
    ensures PutInQueue(s, p).task[p] == s.task[p] ||
            PutInQueue(s, p).task[p] == s.task[p].(weight := WeightOf(s.task[p].nice))
  {
  }

  lemma ChprioInv(s: State, p: Slot, priority: int)
    requires Inv(s) && IsTask(s, p)
    ensures Inv(ChprioStep(s, p, priority))
  {
    hide WeightOf;
    WeightBounds(priority);
    var s' := ChprioStep(s, p, priority);
    SortedFrame(s.task, s'.task, s.queue);
    forall q: Slot ensures TaskGood(s', q) {
      assert TaskGood(s, q);
    }
    forall d: nat ensures CpuGood(s', d) {
      assert CpuGood(s, d);
    }
  }

  // ---------------------------------------------------------------- whole runs

  lemma StepInv(s: State, step: Step)
    requires Inv(s) && Enabled(s, step)
    ensures Inv(Next(s, step))
  {
    match step
    case Alloc(p) => AllocInv(s, p);
    case Abort(p) => AbortInv(s, p);
    case Ready(p) => ReadyInv(s, p);
    case ForkInsert(p) => ForkInsertInv(s, p);
    case Retrieve(c) => RetrieveInv(s, c);
    case Dispatch(c) => DispatchInv(s, c);
    case Tick(c, user, min) => TickInv(s, c, user, min);
    case Sleep(c) => LeaveInv(s, c, SLEEPING, Asleep);
    case Exit(c) => LeaveInv(s, c, ZOMBIE, Dead);
    case Release(c) => ReleaseInv(s, c);
    case Wake(p) => WakeInv(s, p);
    case Reap(p) => AbortInv(s, p);
    case Chprio(c, p, priority) => ChprioInv(s, p, priority);
  }

  /** The table after procinit and rbinit. */
  function Initial(cpus: nat): State {
    State(seq(NPROC, _ => Task(UNUSED, 0, 0, 0, 0, 0)), [], {}, seq(cpus, _ => Idle), LATENCY, 0,
          seq(NPROC, _ => Unused))
  }

  lemma InitialInv(cpus: nat)
    ensures Inv(Initial(cpus))
  {
  }

  predicate Run(s: State, steps: seq<Step>, s': State)
    decreases |steps|
  {
    if steps == [] then s == s' else Enabled(s, steps[0]) && Run(Next(s, steps[0]), steps[1..], s')
  }

  lemma {:induction false} RunInv(s: State, steps: seq<Step>, s': State)
    requires Inv(s) && Run(s, steps, s')
    ensures Inv(s')
    decreases |steps|
  {
    if steps != [] {
      StepInv(s, steps[0]);
      RunInv(Next(s, steps[0]), steps[1..], s');
    }
  }

  lemma {:induction false} RunThen(s: State, steps: seq<Step>, t: State, step: Step)
    requires Run(s, steps, t) && Enabled(t, step)
    ensures Run(s, steps + [step], Next(t, step))
    decreases |steps|
  {
    hide Enabled, Next;
    if steps == [] {
      assert [step][1..] == [];
    } else {
      RunThen(Next(s, steps[0]), steps[1..], t, step);
      assert (steps + [step])[1..] == steps[1..] + [step];
    }
  }
}
