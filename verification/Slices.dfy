/**
 Weights and time slices over whole runs of the scheduler (kernel/proc.c).

 insertProcess and retrieveProcess keep rbTreeWeight equal to the weights in the tree; chprio changes
 a weight without telling it.
 */
module Slices {
  import opened RbTree
  import opened ProcTable
  import opened RunQueues
  import opened Scheduler
  import opened Weights

  /** The weights in the queue. */
  function Total(task: seq<Task>, q: seq<Slot>): int {
    if q == [] then 0 else (if q[0] < |task| then task[q[0]].weight else 0) + Total(task, q[1..])
  }

  function Drift(s: State): int { s.rbTreeWeight - Total(s.task, s.queue) }

  // ---------------------------------------------------------------- the sum of the queued weights

  lemma {:induction false} TotalConcat(task: seq<Task>, a: seq<Slot>, b: seq<Slot>)
    ensures Total(task, a + b) == Total(task, a) + Total(task, b)
  {
    if a == [] {
      assert a + b == b;
    } else {
      assert (a + b)[1..] == a[1..] + b;
      TotalConcat(task, a[1..], b);
    }
  }

  lemma {:induction false} TotalFrame(task: seq<Task>, task': seq<Task>, q: seq<Slot>)
    requires |task'| == |task| && forall p: Slot :: p in q && p < |task| ==> task'[p].weight == task[p].weight
    ensures Total(task', q) == Total(task, q)
  {
    if q != [] {
      assert q[0] in q && forall p: Slot :: p in q[1..] ==> p in q;
      TotalFrame(task, task', q[1..]);
    }
  }

  lemma {:induction false} TotalReweighed(task: seq<Task>, task': seq<Task>, q: seq<Slot>, p: Slot)
    requires |task'| == |task| && p < |task| && NoDup(q)
    requires forall x: Slot :: x < |task| && x != p ==> task'[x].weight == task[x].weight
    ensures Total(task', q) == Total(task, q) + if p in q then task'[p].weight - task[p].weight else 0
  {
    if q != [] {
      var r := q[1..];
      assert q == [q[0]] + r;
      NoDupConcat([q[0]], r);
      assert q[0] in [q[0]];
      TotalReweighed(task, task', r, p);
    }
  }

  lemma TotalInserted(task: seq<Task>, a: seq<Slot>, p: Slot, b: seq<Slot>)
    requires p < |task|
    ensures Total(task, a + [p] + b) == Total(task, a + b) + task[p].weight
  {
    TotalConcat(task, a + [p], b);
    TotalConcat(task, a, [p]);
    TotalConcat(task, a, b);
    assert Total(task, [p]) == task[p].weight;
  }

  lemma TotalEnqueued(task: seq<Task>, vr: seq<int>, q: seq<Slot>, p: Slot)
    requires Sorted(vr, q) && p < |task|
    ensures Total(task, Enqueue(vr, q, p)) == Total(task, q) + task[p].weight
  {
    hide Enqueue, Total;
    var k := EnqueueCut(vr, q, p);
    TotalInserted(task, q[..k], p, q[k..]);
    assert q[..k] + q[k..] == q;
  }

  lemma {:induction false} TotalPositive(task: seq<Task>, q: seq<Slot>)
    requires forall p: Slot :: p in q ==> p < |task| && task[p].weight >= 1
    ensures Total(task, q) >= |q|
  {
    if q != [] {
      assert q[0] in q && forall p: Slot :: p in q[1..] ==> p in q;
      TotalPositive(task, q[1..]);
    }
  }

  // ---------------------------------------------------------------- how each step moves the drift

  /** What chprio does to a queued weight. */
  function Change(s: State, step: Step): int
    requires Enabled(s, step)
  {
    if step.Chprio? && step.p in s.queue then WeightOf(step.priority) - s.task[step.p].weight else 0
  }

  /** Inserting a process from outside the queue adds its weight on both sides. */
  lemma PutDrift(s: State, s1: State, p: Slot)
    requires Inv(s) && p < NPROC && p !in s.queue && |s1.task| == NPROC == |s1.place|
    requires s1.queue == s.queue && s1.rbTreeWeight == s.rbTreeWeight
    requires forall q: Slot :: q < NPROC && q != p ==> s1.task[q] == s.task[q]
    ensures Drift(PutInQueue(s1, p)) == Drift(s)
  {
    hide WeightOf, Enqueue;
    ChargedQueue(s, p, s1);
    InsertedIs(s1, p);
    var s' := PutInQueue(s1, p);
    TotalFrame(s.task, s'.task, s.queue);
    SortedFrame(s.task, s'.task, s.queue);
    TotalEnqueued(s'.task, Runtimes(s'.task), s.queue, p);
  }

  lemma TickDrift(s: State, c: nat, user: bool, min: Snapshot)
    requires Inv(s) && Enabled(s, Tick(c, user, min))
    ensures Drift(TickStep(s, c, user, min)) == Drift(s)
  {
    hide WeightOf, Enqueue, Total;
    var p := s.cpu[c].p;
    assert CpuGood(s, c) && TaskGood(s, p);
    var t := s.task[p].(cr := s.task[p].cr + if user then 1 else 0);
    var s1 := s.(task := s.task[p := t]);
    if CheckPreemption(t.cr, t.slice, t.vr, min) {
      PutDrift(s, Charged(s1, p), p);
    } else {
      TotalFrame(s.task, s1.task, s.queue);
    }
  }

  lemma RetrieveDrift(s: State, c: nat)
    requires Inv(s) && Enabled(s, Retrieve(c))
    ensures Drift(RetrieveStep(s, c)) == Drift(s)
  {
    hide MachineDiv, PeriodFor;
    RetrieveInv(s, c);
    var s' := RetrieveStep(s, c);
    TotalFrame(s.task, s'.task, s'.queue);
  }

  lemma OtherDrift(s: State, step: Step)
    requires Inv(s) && Enabled(s, step)
    requires !step.ForkInsert? && !step.Tick? && !step.Wake? && !step.Retrieve? && !step.Chprio?
    ensures Drift(Next(s, step)) == Drift(s)
  {
    hide Total;
    var s' := Next(s, step);
    if step.Alloc? {
      assert TaskGood(s, step.p);
    }
    TotalFrame(s.task, s'.task, s.queue);
  }

  /** Only chprio on a queued process moves the running total away from the queued weights, by the change of its
      weight. */
  lemma StepDrift(s: State, step: Step)
    requires Inv(s) && Enabled(s, step)
    ensures Drift(Next(s, step)) == Drift(s) - Change(s, step)
  {
    hide WeightOf, Enqueue, Total;
    match step
    case ForkInsert(p) =>
      assert TaskGood(s, p);
      PutDrift(s, s.(forking := s.forking - {p}), p);
    case Tick(c, user, min) => TickDrift(s, c, user, min);
    case Wake(p) =>
      assert TaskGood(s, p);
      PutDrift(s, Charged(s, p), p);
    case Retrieve(c) => RetrieveDrift(s, c);
    case Chprio(c, p, priority) => TotalReweighed(s.task, Next(s, step).task, s.queue, p);
    case _ => OtherDrift(s, step);
  }

  /** All that chprio did to queued weights in a run. */
  function Changes(s: State, steps: seq<Step>, s': State): int
    requires Run(s, steps, s')
    decreases |steps|
  {
    if steps == [] then 0 else Change(s, steps[0]) + Changes(Next(s, steps[0]), steps[1..], s')
  }

  lemma {:induction false} RunDrift(s: State, steps: seq<Step>, s': State)
    requires Inv(s) && Run(s, steps, s')
    ensures Inv(s') && Drift(s') == Drift(s) - Changes(s, steps, s')
    decreases |steps|
  {
    if steps != [] {
      StepInv(s, steps[0]);
      StepDrift(s, steps[0]);
      RunDrift(Next(s, steps[0]), steps[1..], s');
    }
  }

  /** rbTreeWeight is the sum of the queued weights after a run exactly when chprio's changes to queued weights cancel
      out. */
  lemma WeightConserved(cpus: nat, steps: seq<Step>, s': State)
    requires Run(Initial(cpus), steps, s')
    ensures s'.rbTreeWeight == Total(s'.task, s'.queue) <==> Changes(Initial(cpus), steps, s') == 0
  {
    InitialInv(cpus);
    RunDrift(Initial(cpus), steps, s');
  }

  // ---------------------------------------------------------------- time slices

  /** The slice is within the period: what weight, running total and period have to satisfy for it. */
  predicate Fits(period: int, weight: int, total: int) {
    (total > 0 && period * weight < (period + 1) * total) || (total < 0 && period * weight < -total)
  }

  lemma Quotient(x: nat, d: int, q: nat)
    requires d > 0
    ensures x / d <= q <==> x < (q + 1) * d
  {
    var k, r := x / d, x % d;
    assert x == k * d + r && 0 <= r < d;
    if k <= q {
      assert (q - k) * d >= 0;
      assert (q + 1) * d == (q - k) * d + k * d + d;
    } else {
      assert (k - q - 1) * d >= 0;
      assert k * d == (k - q - 1) * d + (q + 1) * d;
    }
  }

  /** Division on the machine: the remainder is smaller than the divisor and has the dividend's sign. */
  lemma DivTruncates(a: int, b: int)
    requires b != 0
    ensures var r := a - MachineDiv(a, b) * b;
            (b > 0 ==> -b < r < b) && (b < 0 ==> b < r < -b) && (a >= 0 ==> r >= 0) && (a <= 0 ==> r <= 0)
  {
    var x, d := if a >= 0 then a else -a, if b > 0 then b else -b;
    NegativeDivisor(x, d);
    assert x == x / d * d + x % d;
    assert (-(x / d)) * (-d) == x / d * d && (-(x / d)) * d == -(x / d * d);
    assert (x / d) * (-d) == -(x / d * d);
  }

  /** For every period and weight the scheduler can meet, a slice lies in 0..period if and only if it fits. */
  lemma SliceExact(period: nat, weight: nat, total: int)
    ensures 0 <= MachineDiv(period * weight, total) <= period <==> Fits(period, weight, total)
  {
    var x := period * weight;
    if total > 0 {
      Quotient(x, total, period);
    } else if total < 0 {
      NegativeDivisor(x, -total);
      Quotient(x, -total, 0);
    }
  }

  lemma NegativeDivisor(x: nat, d: int)
    requires d > 0
    ensures x / (-d) == -(x / d)
  {
    assert x == (x / (-d)) * (-d) + x % (-d) && x == (x / d) * d + x % d;
    Same(-(x / (-d)), x % (-d), x / d, x % d, d);
  }

  lemma Same(q: int, r: int, k: int, t: int, d: int)
    requires d > 0 && 0 <= r < d && 0 <= t < d && q * d + r == k * d + t
    ensures q == k
  {
    assert q * d < (k + 1) * d && k * d < (q + 1) * d;
    Below(q, k + 1, d);
    Below(k, q + 1, d);
  }

  lemma Below(a: int, b: int, c: int)
    requires c > 0 && a * c < b * c
    ensures a < b
  {
    assert (b - a) * c > 0;
  }

  // ---------------------------------------------------------------- runs in which chprio stays off the queue

  /** Slices within the longest period, and a running total that is right. */
  ghost predicate Weighted(s: State) {
    Drift(s) == 0 && forall p: Slot :: p < |s.task| ==> 0 <= s.task[p].slice <= 2 * NPROC
  }

  predicate OffQueue(s: State, step: Step) { step.Chprio? ==> step.p !in s.queue }

  /** With the right total, the slice fits whatever the weights are. */
  lemma WeightedFits(s: State)
    requires Inv(s) && Drift(s) == 0 && s.queue != []
    ensures s.queue[0] < NPROC && Fits(PeriodFor(|s.queue|, s.period), s.task[s.queue[0]].weight, s.rbTreeWeight)
  {
    PeriodBounds(s);
    HeadWeight(s);
    ShareFits(PeriodFor(|s.queue|, s.period), s.task[s.queue[0]].weight, s.rbTreeWeight);
  }

  lemma ShareFits(period: nat, weight: int, total: int)
    requires 1 <= weight <= total
    ensures Fits(period, weight, total)
  {
    assert period * (total - weight) >= 0;
    assert (period + 1) * total == period * (total - weight) + period * weight + total;
  }

  /** Whether the slice a step gives, if it gives one, is within the period. */
  predicate SliceInRange(s: State, step: Step)
    requires Enabled(s, step)
  {
    step.Retrieve? ==> 0 <= Next(s, step).task[s.queue[0]].slice <= Next(s, step).period
  }

  /** A retrieval gives a slice in 0..period exactly when weight and running total fit, with chprio or without. */
  lemma SliceIff(s: State, c: nat)
    requires Inv(s) && Enabled(s, Retrieve(c))
    ensures SliceInRange(s, Retrieve(c)) <==>
            Fits(PeriodFor(|s.queue|, s.period), s.task[s.queue[0]].weight, s.rbTreeWeight)
  {
    RetrieveInv(s, c);
    PeriodBounds(s);
    var p := s.queue[0];
    assert p in s.queue && TaskGood(s, p);
    SliceExact(PeriodFor(|s.queue|, s.period), s.task[p].weight, s.rbTreeWeight);
  }

  lemma StepWeighted(s: State, step: Step)
    requires Inv(s) && Weighted(s) && Enabled(s, step) && OffQueue(s, step)
    ensures Weighted(Next(s, step)) && SliceInRange(s, step)
  {
    hide WeightOf, Enqueue, MachineDiv, Fits, Total;
    StepDrift(s, step);
    if step.Retrieve? {
      SliceIff(s, step.c);
      WeightedFits(s);
      RetrieveInv(s, step.c);
      PeriodBounds(s);
    }
    forall p: Slot | p < |Next(s, step).task| ensures 0 <= Next(s, step).task[p].slice <= 2 * NPROC {
      SliceKept(s, step, p);
    }
  }

  /** Only retrieveProcess and allocproc set a slice. */
  lemma SliceKept(s: State, step: Step, p: Slot)
    requires Inv(s) && Enabled(s, step) && p < NPROC
    ensures |Next(s, step).task| == NPROC
    ensures Next(s, step).task[p].slice == s.task[p].slice || (step.Alloc? && Next(s, step).task[p].slice == 0) ||
            (step.Retrieve? && p == s.queue[0])
  {
    hide WeightOf, Enqueue, MachineDiv;
  }

  predicate OffQueueRun(s: State, steps: seq<Step>, s': State)
    requires Run(s, steps, s')
    decreases |steps|
  {
    steps == [] || (OffQueue(s, steps[0]) && OffQueueRun(Next(s, steps[0]), steps[1..], s'))
  }

  predicate SlicesInRange(s: State, steps: seq<Step>, s': State)
    requires Run(s, steps, s')
    decreases |steps|
  {
    steps == [] || (SliceInRange(s, steps[0]) && SlicesInRange(Next(s, steps[0]), steps[1..], s'))
  }

  lemma {:induction false} RunWeighted(s: State, steps: seq<Step>, s': State)
    requires Inv(s) && Weighted(s) && Run(s, steps, s') && OffQueueRun(s, steps, s')
    ensures Inv(s') && Weighted(s') && SlicesInRange(s, steps, s')
    decreases |steps|
  {
    if steps != [] {
      StepInv(s, steps[0]);
      StepWeighted(s, steps[0]);
      RunWeighted(Next(s, steps[0]), steps[1..], s');
    }
  }

  /** From boot, as long as chprio stays off queued processes: a process leaves the queue with its share of the period
      by
      weight, rounded down. */
  lemma SliceShare(cpus: nat, steps: seq<Step>, s: State, c: nat)
    requires Run(Initial(cpus), steps, s) && OffQueueRun(Initial(cpus), steps, s) && Enabled(s, Retrieve(c))
    ensures var p, s', total := s.queue[0], Next(s, Retrieve(c)), Total(s.task, s.queue);
            1 <= s.task[p].weight <= total && s'.queue == s.queue[1..] && s'.cpu[c] == Picked(p) &&
            s'.task[p].slice * total <= s'.period * s.task[p].weight < (s'.task[p].slice + 1) * total
  {
    InitialInv(cpus);
    RunInv(Initial(cpus), steps, s);
    RunWeighted(Initial(cpus), steps, s);
    RetrieveInv(s, c);
    HeadWeight(s);
    PeriodBounds(s);
    hide Inv, Run, Total, OffQueueRun, Weighted;
    var x, d := PeriodFor(|s.queue|, s.period) * s.task[s.queue[0]].weight, s.rbTreeWeight;
    Product(PeriodFor(|s.queue|, s.period), s.task[s.queue[0]].weight);
    Floor(x, d);
  }

  lemma Product(a: int, b: int)
    requires a >= 0 && b >= 0
    ensures a * b >= 0
  {
  }

  lemma Floor(x: nat, d: int)
    requires d > 0
    ensures MachineDiv(x, d) * d <= x < (MachineDiv(x, d) + 1) * d
  {
    DivTruncates(x, d);
    assert (MachineDiv(x, d) + 1) * d == MachineDiv(x, d) * d + d;
  }

  lemma HeadWeight(s: State)
    requires Inv(s) && Drift(s) == 0 && s.queue != []
    ensures s.queue[0] < NPROC && 1 <= s.task[s.queue[0]].weight <= s.rbTreeWeight == Total(s.task, s.queue)
  {
    forall p: Slot | p in s.queue ensures p < NPROC && s.task[p].weight >= 1 {
      assert TaskGood(s, p);
    }
    assert s.queue[0] in s.queue;
    forall p: Slot | p in s.queue[1..] ensures p < NPROC && s.task[p].weight >= 1 {
      assert p in s.queue;
    }
    TotalPositive(s.task, s.queue[1..]);
  }

  /** From boot, for every nice value: as long as chprio stays off queued processes, rbTreeWeight is the sum of the
      queued weights and every slice lies in 0..period. */
  lemma SlicesFromBoot(cpus: nat, steps: seq<Step>, s': State)
    requires Run(Initial(cpus), steps, s') && OffQueueRun(Initial(cpus), steps, s')
    ensures s'.rbTreeWeight == Total(s'.task, s'.queue) && SlicesInRange(Initial(cpus), steps, s')
    ensures NPROC / 2 <= s'.period <= 2 * NPROC
  {
    InitialInv(cpus);
    RunWeighted(Initial(cpus), steps, s');
  }

  // ---------------------------------------------------------------- chprio on a queued process

  /** A process set up by userinit or by fork. */
  function Fork(p: Slot): seq<Step> { [Alloc(p), Ready(p), ForkInsert(p)] }

  /** The first process runs on CPU 0 and forks process 1, which runs on CPU 1. */
  function Started(): seq<Step> { Fork(0) + [Retrieve(0), Dispatch(0)] + Fork(1) + [Retrieve(1), Dispatch(1)] }

  /** Process 1 goes to sleep; process 0 gives it nice value 30, wakes it, and gives it nice value 0 while it is
      queued. */
  function Reniced(): seq<Step> { [Sleep(1), Release(1), Chprio(0, 1, 30), Wake(1), Chprio(0, 1, 0)] }

  /** A machine with two CPUs in which only processes 0 and 1 matter. */
  predicate Two(s: State, a: Task, b: Task, queue: seq<Slot>, forking: set<Slot>, c0: Cpu, c1: Cpu, total: int) {
    |s.task| == NPROC == |s.place| && s.task[0] == a && s.task[1] == b && s.queue == queue && s.forking == forking &&
    s.cpu == [c0, c1] && s.period == 32 && s.rbTreeWeight == total
  }

  /** The process in question of the two. */
  function Of(a: Task, b: Task, p: Slot): Task { if p == 0 then a else b }

  function Put(a: Task, p: Slot, q: Slot, t: Task): Task { if p == q then t else a }

  lemma TwoForks(s: State, a: Task, b: Task, c0: Cpu, c1: Cpu, p: Slot)
    requires Two(s, a, b, [], {}, c0, c1, 0) && p < 2 && Of(a, b, p) == Task(UNUSED, 0, 0, 0, 0, 0)
    requires !c0.Off? && !c1.Off?
    ensures var t := Task(USED, 0, 0, 0, 0, 0);
            Enabled(s, Alloc(p)) && Two(Next(s, Alloc(p)), Put(a, p, 0, t), Put(b, p, 1, t), [], {}, c0, c1, 0)
  {
  }

  lemma TwoReady(s: State, a: Task, b: Task, c0: Cpu, c1: Cpu, p: Slot)
    requires Two(s, a, b, [], {}, c0, c1, 0) && p < 2 && Of(a, b, p) == Task(USED, 0, 0, 0, 0, 0)
    ensures var t := Task(RUNNABLE, 0, 0, 0, 0, 0);
            Enabled(s, Ready(p)) && Two(Next(s, Ready(p)), Put(a, p, 0, t), Put(b, p, 1, t), [], {p}, c0, c1, 0)
  {
  }

  lemma TwoInsert(s: State, a: Task, b: Task, c0: Cpu, c1: Cpu, p: Slot)
    requires Two(s, a, b, [], {p}, c0, c1, 0) && p < 2 && Of(a, b, p) == Task(RUNNABLE, 0, 0, 0, 0, 0)
    ensures var t := Task(RUNNABLE, 0, 0, 0, 0, 819);
            Enabled(s, ForkInsert(p)) &&
            Two(Next(s, ForkInsert(p)), Put(a, p, 0, t), Put(b, p, 1, t), [p], {}, c0, c1, 819)
  {
    assert WeightOf(0) == 819 by { WeightOfDefault(); }
    hide WeightOf;
    assert {p} - {p} == {};
  }

  /** CPU p retrieves process p. */
  lemma TwoRetrieve(s: State, a: Task, b: Task, c0: Cpu, c1: Cpu, p: Slot, slice: int, total: int)
    requires Two(s, a, b, [p], {}, c0, c1, total) && p < 2 && Of(a, b, p).state == RUNNABLE
    requires (p == 0 ==> c0 == Idle) && (p == 1 ==> c1 == Idle) && slice == MachineDiv(32 * Of(a, b, p).weight, total)
    ensures var t := Of(a, b, p).(slice := slice);
            Enabled(s, Retrieve(p)) &&
            Two(Next(s, Retrieve(p)), Put(a, p, 0, t), Put(b, p, 1, t), [], {}, if p == 0 then Picked(0) else c0,
                if p == 1 then Picked(1) else c1, total - t.weight)
  {
    hide MachineDiv;
  }

  lemma TwoDispatch(s: State, a: Task, b: Task, c0: Cpu, c1: Cpu, p: Slot)
    requires Two(s, a, b, [], {}, c0, c1, 0) && p < 2 && Of(a, b, p).state == RUNNABLE && !c0.Off? && !c1.Off?
    requires (p == 0 ==> c0 == Picked(0)) && (p == 1 ==> c1 == Picked(1))
    ensures var t := Of(a, b, p).(state := RUNNING);
            Enabled(s, Dispatch(p)) &&
            Two(Next(s, Dispatch(p)), Put(a, p, 0, t), Put(b, p, 1, t), [], {}, if p == 0 then On(0) else c0,
                if p == 1 then On(1) else c1, 0)
  {
  }

  lemma OneSleeps(s: State, a: Task, b: Task, c0: Cpu)
    requires Two(s, a, b, [], {}, c0, On(1), 0)
    ensures Enabled(s, Sleep(1)) && Two(Next(s, Sleep(1)), a, b.(state := SLEEPING), [], {}, c0, Off(1), 0)
  {
  }

  lemma OneReleased(s: State, a: Task, b: Task, c0: Cpu)
    requires Two(s, a, b, [], {}, c0, Off(1), 0)
    ensures Enabled(s, Release(1)) && Two(Next(s, Release(1)), a, b, [], {}, c0, Idle, 0)
  {
  }

  lemma OneWakes(s: State, a: Task, b: Task, c0: Cpu, c1: Cpu, w: int)
    requires Two(s, a, b, [], {}, c0, c1, 0) && b.state == SLEEPING && b.cr == 0 && !c0.Off? && !c1.Off?
    requires w == WeightOf(b.nice)
    ensures Enabled(s, Wake(1)) && Two(Next(s, Wake(1)), a, b.(state := RUNNABLE, weight := w), [1], {}, c0, c1, w)
  {
    hide WeightOf;
  }

  lemma OneReniced(s: State, a: Task, b: Task, queue: seq<Slot>, c1: Cpu, total: int, priority: int, w: int)
    requires Two(s, a, b, queue, {}, On(0), c1, total) && w == WeightOf(priority)
    ensures Enabled(s, Chprio(0, 1, priority))
    ensures Two(Next(s, Chprio(0, 1, priority)), a, b.(nice := priority, weight := w), queue, {}, On(0), c1, total)
  {
    hide WeightOf;
  }

  /** Process p is set up and queued. */
  lemma Starts(r: seq<Step>, s0: State, a: Task, b: Task, c0: Cpu, c1: Cpu, p: Slot) returns (s: State)
    requires Run(Initial(2), r, s0) && Two(s0, a, b, [], {}, c0, c1, 0) && p < 2
    requires Of(a, b, p) == Task(UNUSED, 0, 0, 0, 0, 0) && !c0.Off? && !c1.Off?
    ensures Run(Initial(2), r + Fork(p), s)
    ensures var t := Task(RUNNABLE, 0, 0, 0, 0, 819); Two(s, Put(a, p, 0, t), Put(b, p, 1, t), [p], {}, c0, c1, 819)
  {
    hide Next, Enabled, Run, Two;
    TwoForks(s0, a, b, c0, c1, p);
    var s1, t1 := Next(s0, Alloc(p)), Task(USED, 0, 0, 0, 0, 0);
    TwoReady(s1, Put(a, p, 0, t1), Put(b, p, 1, t1), c0, c1, p);
    var s2, t2 := Next(s1, Ready(p)), Task(RUNNABLE, 0, 0, 0, 0, 0);
    TwoInsert(s2, Put(a, p, 0, t2), Put(b, p, 1, t2), c0, c1, p);
    s := Next(s2, ForkInsert(p));
    RunThen(Initial(2), r, s0, Alloc(p));
    var r1 := r + [Alloc(p)];
    RunThen(Initial(2), r1, s1, Ready(p));
    var r2 := r1 + [Ready(p)];
    RunThen(Initial(2), r2, s2, ForkInsert(p));
    assert r2 + [ForkInsert(p)] == r + Fork(p);
  }

  /** Queued alone, it comes to run on CPU p. */
  lemma Runs(r: seq<Step>, s0: State, a: Task, b: Task, c0: Cpu, c1: Cpu, p: Slot) returns (s: State)
    requires Run(Initial(2), r, s0) && Two(s0, a, b, [p], {}, c0, c1, 819) && p < 2
    requires Of(a, b, p) == Task(RUNNABLE, 0, 0, 0, 0, 819) && !c0.Off? && !c1.Off?
    requires (p == 0 ==> c0 == Idle) && (p == 1 ==> c1 == Idle)
    ensures Run(Initial(2), r + [Retrieve(p), Dispatch(p)], s)
    ensures var t := Task(RUNNING, 0, 0, 32, 0, 819);
            Two(s, Put(a, p, 0, t), Put(b, p, 1, t), [], {},
                if p == 0 then On(0) else c0, if p == 1 then On(1) else c1, 0)
  {
    assert MachineDiv(32 * 819, 819) == 32;
    hide Next, Enabled, MachineDiv, Run, Two;
    TwoRetrieve(s0, a, b, c0, c1, p, 32, 819);
    var s1, t1 := Next(s0, Retrieve(p)), Task(RUNNABLE, 0, 0, 32, 0, 819);
    TwoDispatch(s1, Put(a, p, 0, t1), Put(b, p, 1, t1), if p == 0 then Picked(0) else c0,
                if p == 1 then Picked(1) else c1, p);
    s := Next(s1, Dispatch(p));
    RunThen(Initial(2), r, s0, Retrieve(p));
    RunThen(Initial(2), r + [Retrieve(p)], s1, Dispatch(p));
    assert r + [Retrieve(p)] + [Dispatch(p)] == r + [Retrieve(p), Dispatch(p)];
  }

  lemma BothRun() returns (s: State)
    ensures Run(Initial(2), Started(), s)
    ensures Two(s, Task(RUNNING, 0, 0, 32, 0, 819), Task(RUNNING, 0, 0, 32, 0, 819), [], {}, On(0), On(1), 0)
  {
    var s0, free, run := Initial(2), Task(UNUSED, 0, 0, 0, 0, 0), Task(RUNNING, 0, 0, 32, 0, 819);
    assert Run(s0, [], s0) && Two(s0, free, free, [], {}, Idle, Idle, 0);
    hide Next, Enabled, Run, Two;
    var s1 := Starts([], s0, free, free, Idle, Idle, 0);
    var r1 := [] + Fork(0);
    var s2 := Runs(r1, s1, Task(RUNNABLE, 0, 0, 0, 0, 819), free, Idle, Idle, 0);
    var r2 := r1 + [Retrieve(0), Dispatch(0)];
    var s3 := Starts(r2, s2, run, free, On(0), Idle, 1);
    var r3 := r2 + Fork(1);
    s := Runs(r3, s3, run, Task(RUNNABLE, 0, 0, 0, 0, 819), On(0), Idle, 1);
    assert r3 + [Retrieve(1), Dispatch(1)] == Started();
  }

  lemma SecondSleeps() returns (s: State)
    ensures Run(Initial(2), Started() + [Sleep(1), Release(1)], s)
    ensures Two(s, Task(RUNNING, 0, 0, 32, 0, 819), Task(SLEEPING, 0, 0, 32, 0, 819), [], {}, On(0), Idle, 0)
  {
    var s0, run := Initial(2), Task(RUNNING, 0, 0, 32, 0, 819);
    hide Next, Enabled, Run, Two, Started;
    var s1 := BothRun();
    OneSleeps(s1, run, run, On(0));
    var s2 := Next(s1, Sleep(1));
    OneReleased(s2, run, run.(state := SLEEPING), On(0));
    s := Next(s2, Release(1));
    RunThen(s0, Started(), s1, Sleep(1));
    RunThen(s0, Started() + [Sleep(1)], s2, Release(1));
    assert Started() + [Sleep(1)] + [Release(1)] == Started() + [Sleep(1), Release(1)];
  }

  lemma RenicedQueued() returns (s: State)
    ensures Run(Initial(2), Started() + Reniced(), s)
    ensures Two(s, Task(RUNNING, 0, 0, 32, 0, 819), Task(RUNNABLE, 0, 0, 32, 0, 819), [1], {}, On(0), Idle, 1)
  {
    var s0, a, b := Initial(2), Task(RUNNING, 0, 0, 32, 0, 819), Task(SLEEPING, 0, 0, 32, 30, 1);
    assert WeightOf(0) == 819 by { WeightOfDefault(); }
    assert WeightOf(30) == 1 by { WeightOfNicest(); }
    hide WeightOf, Run, Next, Enabled, Started, Two;
    var s1 := SecondSleeps();
    OneReniced(s1, a, Task(SLEEPING, 0, 0, 32, 0, 819), [], Idle, 0, 30, 1);
    var s2 := Next(s1, Chprio(0, 1, 30));
    OneWakes(s2, a, b, On(0), Idle, 1);
    var s3 := Next(s2, Wake(1));
    OneReniced(s3, a, b.(state := RUNNABLE), [1], Idle, 1, 0, 819);
    s := Next(s3, Chprio(0, 1, 0));
    var r1 := Started() + [Sleep(1), Release(1)];
    RunThen(s0, r1, s1, Chprio(0, 1, 30));
    var r2 := r1 + [Chprio(0, 1, 30)];
    RunThen(s0, r2, s2, Wake(1));
    var r3 := r2 + [Wake(1)];
    RunThen(s0, r3, s3, Chprio(0, 1, 0));
    assert r3 + [Chprio(0, 1, 0)] == Started() + Reniced();
  }

  /** Reniced while it is queued, process 1 gets a slice of 26208 ticks in a period of 32. */
  lemma ChprioBreaksSlice() returns (s: State)
    ensures Run(Initial(2), Started() + Reniced(), s) && s.queue == [1] && Enabled(s, Retrieve(1))
    ensures var s' := Next(s, Retrieve(1)); s'.period == 32 && s'.task[1].slice == 26208 && s'.rbTreeWeight == -818
  {
    assert MachineDiv(32 * 819, 1) == 26208;
    hide Run, Next, Enabled, MachineDiv, Started;
    s := RenicedQueued();
    TwoRetrieve(s, Task(RUNNING, 0, 0, 32, 0, 819), Task(RUNNABLE, 0, 0, 32, 0, 819), On(0), Idle, 1, 26208, 1);
  }
}
