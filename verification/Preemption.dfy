/**
 Who keeps the CPU, for how long, and what it is charged (kernel/proc.c, kernel/trap.c).
 */
module Preemption {
  import opened RbTree
  import opened ProcTable
  import opened RunQueues
  import opened Scheduler
  import opened Weights

  // ---------------------------------------------------------------- one tick

  /** A runnable process with less virtual runtime was seen at the front of the queue. */
  predicate Behind(vr: int, min: Snapshot) { min.Minimum? && min.runnable && min.vr < vr }

  /** Ticks of this dispatch, the present one included. */
  function Ran(t: Task, user: bool): nat { t.cr + if user then 1 else 0 }

  /** The CPU is taken away exactly when slice and minimum granularity are used up, or when somebody is further behind
      and the process has run for the minimum granularity or not at all. */
  lemma TickIff(s: State, c: nat, user: bool, min: Snapshot)
    requires Inv(s) && Enabled(s, Tick(c, user, min))
    ensures var p, s' := s.cpu[c].p, Next(s, Tick(c, user, min));
            var t := s.task[p];
            var cr := Ran(t, user);
            s'.cpu == s.cpu[c := s'.cpu[c]] &&
            (s'.cpu[c] == Off(p) <==> (cr >= t.slice && cr >= 2) || (Behind(t.vr, min) && (cr == 0 || cr >= 2))) &&
            (s'.cpu[c] != Off(p) ==> s' == s.(task := s.task[p := t.(cr := cr)]))
  {
    var p := s.cpu[c].p;
    assert CpuGood(s, c) && TaskGood(s, p);
    assert s.cpu[c := s.cpu[c]] == s.cpu;
  }

  /** Whoever loses the CPU is charged for the dispatch and queued behind all who have no more virtual runtime. */
  lemma TickCharges(s: State, c: nat, user: bool, min: Snapshot) returns (k: nat)
    requires Inv(s) && Enabled(s, Tick(c, user, min)) && Next(s, Tick(c, user, min)).cpu[c].Off?
    ensures var p, s' := s.cpu[c].p, Next(s, Tick(c, user, min));
            var vr := s.task[p].vr + Ran(s.task[p], user);
            s'.task[p].vr == vr && s'.task[p].cr == 0 && s'.task[p].state == RUNNABLE &&
            k <= |s.queue| && s'.queue == s.queue[..k] + [p] + s.queue[k..] &&
            (forall i :: 0 <= i < k ==> s.queue[i] < NPROC && s.task[s.queue[i]].vr <= vr) &&
            forall i :: k <= i < |s.queue| ==> s.queue[i] < NPROC && s.task[s.queue[i]].vr > vr
  {
    var p := s.cpu[c].p;
    assert CpuGood(s, c) && TaskGood(s, p);
    hide WeightOf, Enqueue, CpuGood, TaskGood;
    var t := s.task[p].(cr := Ran(s.task[p], user));
    k := InsertedAt(s, Charged(s.(task := s.task[p := t]), p), p);
  }

  /** insertProcess: where a process from outside the queue goes. */
  lemma InsertedAt(s: State, s1: State, p: Slot) returns (k: nat)
    requires Inv(s) && p < NPROC && p !in s.queue && |s1.task| == NPROC == |s1.place| && s1.queue == s.queue
    requires forall q: Slot :: q < NPROC && q != p ==> s1.task[q].vr == s.task[q].vr
    ensures k <= |s.queue| && PutInQueue(s1, p).queue == s.queue[..k] + [p] + s.queue[k..]
    ensures forall i :: 0 <= i < k ==> s.queue[i] < NPROC && s.task[s.queue[i]].vr <= s1.task[p].vr
    ensures forall i :: k <= i < |s.queue| ==> s.queue[i] < NPROC && s.task[s.queue[i]].vr > s1.task[p].vr
    ensures PutInQueue(s1, p).task == s1.task[p := s1.task[p].(weight := WeightOf(s1.task[p].nice))]
    ensures PutInQueue(s1, p).rbTreeWeight == s1.rbTreeWeight + WeightOf(s1.task[p].nice)
  {
    RoomInQueue(s, p);
    SortedFrame(s.task, s1.task, s.queue);
    var vr := Runtimes(s1.task);
    k := EnqueueCut(vr, s.queue, p);
    forall i | 0 <= i < |s.queue| ensures s.queue[i] < NPROC && Key(vr, s.queue[i]) == s.task[s.queue[i]].vr {
      assert s.queue[i] in s.queue;
    }
  }

  // ---------------------------------------------------------------- a whole slice

  /** Ticks that CPU c takes in user mode. */
  function UserTicks(steps: seq<Step>, c: nat): nat {
    if steps == [] then 0
    else (if steps[0].Tick? && steps[0].c == c && steps[0].user then 1 else 0) + UserTicks(steps[1..], c)
  }

  /** The process on CPU c neither sleeps nor exits, and no tick there sees anybody further behind than vr. */
  predicate Undisturbed(step: Step, c: nat, vr: int) {
    step != Sleep(c) && step != Exit(c) && (step.Tick? && step.c == c ==> !Behind(vr, step.min))
  }

  predicate UndisturbedRun(steps: seq<Step>, c: nat, vr: int) {
    forall step :: step in steps ==> Undisturbed(step, c, vr)
  }

  /** How long a dispatch may last. */
  function Allowance(t: Task): int { if t.slice < 2 then 2 else t.slice }

  /** CPU c goes on with p, whose runtime of this dispatch has become cr. */
  predicate RunsOn(s: State, s': State, c: nat, cr: nat) {
    Scheduler.Running(s, c) && Scheduler.Running(s', c) && s'.cpu[c] == s.cpu[c] &&
    var p := s.cpu[c].p;
    var t, t' := s.task[p], s'.task[p];
    t'.vr == t.vr && t'.slice == t.slice && t'.cr == cr
  }

  lemma OtherTick(s: State, step: Step, c: nat)
    requires Inv(s) && Enabled(s, step) && Scheduler.Running(s, c) && step.Tick? && step.c != c
    ensures RunsOn(s, Next(s, step), c, s.task[s.cpu[c].p].cr)
  {
    hide WeightOf, Enqueue, CheckPreemption;
    assert CpuGood(s, c) && CpuGood(s, step.c) && TaskGood(s, s.cpu[c].p) && TaskGood(s, s.cpu[step.c].p);
  }

  /** A step of anybody else leaves the process on CPU c alone. */
  lemma OthersLeaveAlone(s: State, step: Step, c: nat)
    requires Inv(s) && Enabled(s, step) && Scheduler.Running(s, c)
    requires step != Sleep(c) && step != Exit(c) && !(step.Tick? && step.c == c)
    ensures RunsOn(s, Next(s, step), c, s.task[s.cpu[c].p].cr)
  {
    hide WeightOf, Enqueue, MachineDiv, PeriodFor, CheckPreemption;
    var p := s.cpu[c].p;
    assert CpuGood(s, c) && TaskGood(s, p);
    match step
    case Tick(d, _, _) => OtherTick(s, step, c);
    case Sleep(d) => assert CpuGood(s, d);
    case Exit(d) => assert CpuGood(s, d);
    case Dispatch(d) => assert CpuGood(s, d);
    case Retrieve(d) => assert s.queue[0] in s.queue && TaskGood(s, s.queue[0]);
    case _ =>
  }

  lemma StepRunsOn(s: State, step: Step, c: nat)
    requires Inv(s) && Enabled(s, step) && Scheduler.Running(s, c) && Undisturbed(step, c, s.task[s.cpu[c].p].vr)
    requires s.task[s.cpu[c].p].cr + UserTicks([step], c) < Allowance(s.task[s.cpu[c].p])
    ensures RunsOn(s, Next(s, step), c, s.task[s.cpu[c].p].cr + UserTicks([step], c))
  {
    if step.Tick? && step.c == c {
      TickIff(s, c, step.user, step.min);
    } else {
      OthersLeaveAlone(s, step, c);
    }
  }

  lemma {:induction false} KeepsCpu(s: State, steps: seq<Step>, s': State, c: nat)
    requires Inv(s) && Run(s, steps, s') && Scheduler.Running(s, c) && UndisturbedRun(steps, c, s.task[s.cpu[c].p].vr)
    requires s.task[s.cpu[c].p].cr + UserTicks(steps, c) < Allowance(s.task[s.cpu[c].p])
    ensures Inv(s') && RunsOn(s, s', c, s.task[s.cpu[c].p].cr + UserTicks(steps, c))
    decreases |steps|
  {
    hide Inv, Next, Enabled;
    if steps != [] {
      assert steps[0] in steps && forall step :: step in steps[1..] ==> step in steps;
      assert [steps[0]][1..] == [];
      StepInv(s, steps[0]);
      StepRunsOn(s, steps[0], c);
      KeepsCpu(Next(s, steps[0]), steps[1..], s', c);
    }
  }

  /** A process that is nowhere seen to be ahead of another keeps the CPU for its whole slice, or two ticks if that is
      longer, and loses it at the tick that uses it up. */
  lemma WholeSlice(s: State, steps: seq<Step>, m: State, c: nat, min: Snapshot)
    requires Inv(s) && Run(s, steps, m) && Scheduler.Running(s, c)
    requires UndisturbedRun(steps + [Tick(c, true, min)], c, s.task[s.cpu[c].p].vr)
    requires s.task[s.cpu[c].p].cr + UserTicks(steps, c) < Allowance(s.task[s.cpu[c].p])
    ensures var p := s.cpu[c].p;
            Scheduler.Running(m, c) && m.cpu[c] == On(p) && Enabled(m, Tick(c, true, min)) &&
            (Next(m, Tick(c, true, min)).cpu[c] == Off(p) <==>
             s.task[p].cr + UserTicks(steps, c) + 1 >= Allowance(s.task[p]))
  {
    hide Inv, Next, Run;
    assert forall step :: step in steps ==> step in steps + [Tick(c, true, min)];
    assert Tick(c, true, min) in steps + [Tick(c, true, min)];
    KeepsCpu(s, steps, m, c);
    TickIff(m, c, true, min);
  }

  // ---------------------------------------------------------------- what a process is charged

  /** The process took this tick in user mode. */
  predicate TicksFor(s: State, step: Step, p: Slot) {
    step.Tick? && step.user && step.c < |s.cpu| && s.cpu[step.c] == On(p)
  }

  /** CPU time of p at the end of a run: the ticks it took in user mode since it was allocated. */
  function CpuTime(s: State, steps: seq<Step>, s': State, p: Slot, before: int): int
    requires Run(s, steps, s')
    decreases |steps|
  {
    if steps == [] then before
    else
      CpuTime(Next(s, steps[0]), steps[1..], s', p,
              if steps[0] == Alloc(p) then 0 else before + if TicksFor(s, steps[0], p) then 1 else 0)
  }

  function Charge(s: State, p: Slot): int
    requires p < |s.task|
  {
    s.task[p].vr + s.task[p].cr
  }

  lemma StepCharges(s: State, step: Step, p: Slot)
    requires Inv(s) && Enabled(s, step) && p < NPROC
    ensures |Next(s, step).task| == NPROC
    ensures Charge(Next(s, step), p) ==
            if step == Alloc(p) then 0 else Charge(s, p) + if TicksFor(s, step, p) then 1 else 0
  {
    hide WeightOf, Enqueue, MachineDiv, PeriodFor, CheckPreemption;
  }

  /** Virtual runtime is CPU time: over every run, runtime charged and runtime of the present dispatch together are the
      ticks the process took in user mode since it was allocated. */
  lemma {:induction false} RuntimeIsCpuTime(s: State, steps: seq<Step>, s': State, p: Slot)
    requires Inv(s) && Run(s, steps, s') && p < NPROC
    ensures |s'.task| == NPROC && Charge(s', p) == CpuTime(s, steps, s', p, Charge(s, p))
    decreases |steps|
  {
    if steps != [] {
      StepInv(s, steps[0]);
      StepCharges(s, steps[0], p);
      hide Inv, Next, Enabled;
      RuntimeIsCpuTime(Next(s, steps[0]), steps[1..], s', p);
    }
  }

  // ---------------------------------------------------------------- a new process and the period

  /** fork: a new process starts with no runtime and nice value 0, so with weight 819, and is queued behind no process
      that has run. */
  lemma ForkStartsFresh(s: State, p: Slot) returns (s': State, k: nat)
    requires Inv(s) && Enabled(s, Alloc(p))
    ensures Run(s, [Alloc(p), Ready(p), ForkInsert(p)], s') && Inv(s')
    ensures s'.task[p] == Task(RUNNABLE, 0, 0, 0, 0, 819) && s'.rbTreeWeight == s.rbTreeWeight + 819
    ensures k <= |s.queue| && s'.queue == s.queue[..k] + [p] + s.queue[k..]
    ensures forall i :: 0 <= i < |s.queue| ==> s.queue[i] < NPROC && (i < k <==> s.task[s.queue[i]].vr <= 0)
    ensures forall q: Slot :: q < NPROC && q != p ==> s'.task[q] == s.task[q]
  {
    assert TaskGood(s, p);
    var s1 := Next(s, Alloc(p));
    StepInv(s, Alloc(p));
    var s2 := Next(s1, Ready(p));
    StepInv(s1, Ready(p));
    s' := Next(s2, ForkInsert(p));
    StepInv(s2, ForkInsert(p));
    ThreeSteps(s, Alloc(p), s1, Ready(p), s2, ForkInsert(p));
    hide Run, WeightOf, Enqueue;
    assert p !in s.queue && s2.queue == s.queue;
    k := InsertedAt(s2, s2.(forking := s2.forking - {p}), p);
    WeightOfDefault();
  }

  lemma ThreeSteps(s: State, a: Step, s1: State, b: Step, s2: State, c: Step)
    requires Enabled(s, a) && s1 == Next(s, a) && Enabled(s1, b) && s2 == Next(s1, b) && Enabled(s2, c)
    ensures Run(s, [a, b, c], Next(s2, c))
  {
    hide Next, Enabled;
    var t := Next(s2, c);
    assert [c][1..] == [] && Run(s2, [c], t);
    assert [b, c][1..] == [c] && Run(s1, [b, c], t);
    assert [a, b, c][1..] == [b, c];
  }

  /** The period gives every queued process two ticks at least, exactly two above sixteen processes, and is else what it
      was. */
  lemma PeriodPerProcess(s: State, c: nat)
    requires Inv(s) && Enabled(s, Retrieve(c))
    ensures var period := Next(s, Retrieve(c)).period;
            period >= 2 * |s.queue| && period == if |s.queue| > 16 then 2 * |s.queue| else s.period
  {
    assert s.queue[0] in s.queue && TaskGood(s, s.queue[0]);
  }

  // ---------------------------------------------------------------- nobody is stuck

  /** A free CPU can get the first process of the queue to run, waiting at most for another to let go of it. */
  lemma HeadCanRun(s: State, c: nat) returns (steps: seq<Step>, s': State)
    requires Inv(s) && c < |s.cpu| && s.cpu[c] == Idle && s.queue != []
    ensures Run(s, steps, s') && Inv(s') && |steps| <= 3
    ensures var p := s.queue[0];
            c < |s'.cpu| && s'.cpu[c] == On(p) && p < |s'.task| && s'.task[p].state == RUNNING &&
            s'.queue == s.queue[1..]
  {
    var p := s.queue[0];
    assert p in s.queue && TaskGood(s, p);
    var s1 := Next(s, Retrieve(c));
    StepInv(s, Retrieve(c));
    hide MachineDiv, PeriodFor;
    if d :| 0 <= d < |s1.cpu| && s1.cpu[d] == Off(p) {
      var s2 := Next(s1, Release(d));
      StepInv(s1, Release(d));
      assert CpuGood(s1, d);
      assert Unlocked(s2, p);
      StepInv(s2, Dispatch(c));
      ThreeSteps(s, Retrieve(c), s1, Release(d), s2, Dispatch(c));
      steps, s' := [Retrieve(c), Release(d), Dispatch(c)], Next(s2, Dispatch(c));
    } else {
      StepInv(s1, Dispatch(c));
      TwoSteps(s, Retrieve(c), s1, Dispatch(c));
      steps, s' := [Retrieve(c), Dispatch(c)], Next(s1, Dispatch(c));
    }
  }

  lemma TwoSteps(s: State, a: Step, s1: State, b: Step)
    requires Enabled(s, a) && s1 == Next(s, a) && Enabled(s1, b)
    ensures Run(s, [a, b], Next(s1, b))
  {
    hide Next, Enabled;
    assert [b][1..] == [] && Run(s1, [b], Next(s1, b));
    assert [a, b][1..] == [b];
  }

  /** The step by which a process outside the queue goes on. */
  function OwnStep(u: Place, p: Slot): Step
    requires !u.Unused? && !u.Queued?
  {
    match u
    case Used => Ready(p)
    case Forking => ForkInsert(p)
    case InHand(c) => Dispatch(c)
    case OnCpu(c) => Tick(c, true, NoMinimum)
    case Asleep => Wake(p)
    case Dead => Reap(p)
  }

  /** Every such process can go on, once a CPU that has just left it has let go of it. */
  lemma CanGoOn(s: State, p: Slot)
    requires Inv(s) && p < NPROC && !s.place[p].Unused? && !s.place[p].Queued?
    ensures Enabled(s, OwnStep(s.place[p], p)) ||
            exists d: nat :: d < |s.cpu| && s.cpu[d] == Off(p) && Enabled(s, Release(d))
  {
    assert TaskGood(s, p);
    if d: nat :| d < |s.cpu| && s.cpu[d] == Off(p) {
      assert Enabled(s, Release(d));
    } else {
      assert Unlocked(s, p);
    }
  }
}
