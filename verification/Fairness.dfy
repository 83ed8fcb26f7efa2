/**
 What the order of the run queue amounts to: a stable priority queue (kernel/proc.c).
 */
module Fairness {
  import opened RbTree
  import opened ProcTable
  import opened Scheduler
  import opened Weights

  // ---------------------------------------------------------------- a stable priority queue

  datatype Entry = Entry(slot: Slot, key: int)

  /** The reference: a bag in order of arrival; its first entry among those with the least key. */
  function FirstMin(bag: seq<Entry>): (i: nat)
    requires bag != []
    ensures i < |bag|
    ensures forall j :: 0 <= j < |bag| ==> bag[i].key <= bag[j].key
    ensures forall j :: 0 <= j < i ==> bag[i].key < bag[j].key
  {
    var n := |bag| - 1;
    if n == 0 then 0 else
      var i := FirstMin(bag[..n]);
      assert forall j :: 0 <= j < n ==> bag[..n][j] == bag[j];
      if bag[n].key < bag[i].key then n else i
  }

  function Without(bag: seq<Entry>, i: nat): seq<Entry>
    requires i < |bag|
  {
    bag[..i] + bag[i + 1..]
  }

  /** The run queue's way: keep the entries in order as they come. */
  function Insert(q: seq<Entry>, e: Entry): seq<Entry> {
    if q == [] || q[0].key > e.key then [e] + q else [q[0]] + Insert(q[1..], e)
  }

  function InOrderOf(bag: seq<Entry>): seq<Entry> {
    if bag == [] then [] else Insert(InOrderOf(bag[..|bag| - 1]), bag[|bag| - 1])
  }

  lemma InsertHead(q: seq<Entry>, e: Entry)
    ensures q == [] || q[0].key > e.key ==> Insert(q, e)[0] == e && Insert(q, e)[1..] == q
    ensures q != [] && q[0].key <= e.key ==> Insert(q, e)[0] == q[0] && Insert(q, e)[1..] == Insert(q[1..], e)
  {
  }

  lemma AddLast(bag: seq<Entry>, e: Entry)
    ensures InOrderOf(bag + [e]) == Insert(InOrderOf(bag), e)
    ensures bag != [] ==> FirstMin(bag + [e]) == if e.key < bag[FirstMin(bag)].key then |bag| else FirstMin(bag)
    ensures bag == [] ==> FirstMin(bag + [e]) == 0
  {
    assert (bag + [e])[..|bag|] == bag;
  }

  lemma WithoutLast(bag: seq<Entry>, e: Entry, i: nat)
    requires i < |bag|
    ensures Without(bag + [e], i) == Without(bag, i) + [e] && Without(bag + [e], |bag|) == bag
  {
  }

  /** The head of the ordered queue is the bag's first least entry, and removing both leaves them in step. */
  lemma {:induction false} TakeAgrees(bag: seq<Entry>)
    requires bag != []
    ensures var q := InOrderOf(bag);
            q != [] && q[0] == bag[FirstMin(bag)] && q[1..] == InOrderOf(Without(bag, FirstMin(bag)))
    decreases |bag|
  {
    var n := |bag| - 1;
    var e, rest := bag[n], bag[..n];
    assert bag == rest + [e];
    AddLast(rest, e);
    InsertHead(InOrderOf(rest), e);
    if n == 0 {
      assert Without(bag, 0) == [];
    } else {
      TakeAgrees(rest);
      WithoutLast(rest, e, FirstMin(rest));
      AddLast(Without(rest, FirstMin(rest)), e);
    }
  }

  datatype Op = Put(e: Entry) | Take

  /** The outputs of a run on the reference bag. */
  function BagRun(bag: seq<Entry>, ops: seq<Op>): seq<Entry>
    decreases |ops|
  {
    if ops == [] then []
    else if ops[0].Put? then BagRun(bag + [ops[0].e], ops[1..])
    else if bag == [] then BagRun(bag, ops[1..])
    else [bag[FirstMin(bag)]] + BagRun(Without(bag, FirstMin(bag)), ops[1..])
  }

  /** The outputs of a run on the ordered queue. */
  function QueueRun(q: seq<Entry>, ops: seq<Op>): seq<Entry>
    decreases |ops|
  {
    if ops == [] then []
    else if ops[0].Put? then QueueRun(Insert(q, ops[0].e), ops[1..])
    else if q == [] then QueueRun(q, ops[1..])
    else [q[0]] + QueueRun(q[1..], ops[1..])
  }

  /** In every run the ordered queue gives out what a stable priority queue would: least key first, and first come
      first among equals. */
  lemma {:induction false} RunRefines(bag: seq<Entry>, ops: seq<Op>)
    ensures QueueRun(InOrderOf(bag), ops) == BagRun(bag, ops)
    decreases |ops|
  {
    if ops != [] {
      if ops[0].Put? {
        assert (bag + [ops[0].e])[..|bag|] == bag;
        RunRefines(bag + [ops[0].e], ops[1..]);
      } else if bag == [] {
        RunRefines(bag, ops[1..]);
      } else {
        TakeAgrees(bag);
        RunRefines(Without(bag, FirstMin(bag)), ops[1..]);
      }
    }
  }

  /** A queue of slots with the keys they were queued under. */
  function Entries(vr: seq<int>, q: seq<Slot>): (es: seq<Entry>)
    ensures |es| == |q| && forall i :: 0 <= i < |q| ==> es[i] == Entry(q[i], Key(vr, q[i]))
  {
    seq(|q|, i requires 0 <= i < |q| => Entry(q[i], Key(vr, q[i])))
  }

  /** insertProcess on the slots is insertion on the entries. */
  lemma {:induction false} EnqueueInserts(vr: seq<int>, q: seq<Slot>, p: Slot)
    ensures Entries(vr, Enqueue(vr, q, p)) == Insert(Entries(vr, q), Entry(p, Key(vr, p)))
  {
    var es, e := Entries(vr, q), Entry(p, Key(vr, p));
    if q == [] || Key(vr, q[0]) > Key(vr, p) {
      assert Entries(vr, [p] + q) == [e] + es;
    } else {
      EnqueueInserts(vr, q[1..], p);
      assert es[1..] == Entries(vr, q[1..]);
      assert Entries(vr, [q[0]] + Enqueue(vr, q[1..], p)) == [es[0]] + Entries(vr, Enqueue(vr, q[1..], p));
    }
  }

  // ---------------------------------------------------------------- the scheduler's runs

  function QueueOf(s: State): seq<Entry> { Entries(Runtimes(s.task), s.queue) }

  predicate Preempted(s: State, c: nat, user: bool, min: Snapshot)
    requires Scheduler.Running(s, c)
  {
    var t := s.task[s.cpu[c].p];
    CheckPreemption(t.cr + (if user then 1 else 0), t.slice, t.vr, min)
  }

  /** What a step does to the run queue. */
  function OpOf(s: State, step: Step): seq<Op>
    requires Enabled(s, step)
  {
    match step
    case ForkInsert(p) => [Put(Entry(p, s.task[p].vr))]
    case Tick(c, user, min) =>
      var p := s.cpu[c].p;
      if Preempted(s, c, user, min) then [Put(Entry(p, s.task[p].vr + s.task[p].cr + (if user then 1 else 0)))] else []
    case Wake(p) => [Put(Entry(p, s.task[p].vr + s.task[p].cr))]
    case Retrieve(c) => [Op.Take]
    case _ => []
  }

  function Apply(q: seq<Entry>, ops: seq<Op>): seq<Entry>
    requires |ops| <= 1
  {
    if ops == [] then q else if ops[0].Put? then Insert(q, ops[0].e) else if q == [] then q else q[1..]
  }

  lemma EntriesFrame(task: seq<Task>, task': seq<Task>, q: seq<Slot>)
    requires |task'| == |task| && forall p: Slot :: p in q && p < |task| ==> task'[p].vr == task[p].vr
    ensures Entries(Runtimes(task'), q) == Entries(Runtimes(task), q)
  {
    var vr, vr' := Runtimes(task), Runtimes(task');
    forall i | 0 <= i < |q| ensures Key(vr', q[i]) == Key(vr, q[i]) {
      assert q[i] in q;
    }
  }

  /** A process from outside the queue is inserted under its charged runtime. */
  lemma InsertedEntries(s: State, s1: State, p: Slot)
    requires Inv(s) && p < NPROC && p !in s.queue && |s1.task| == NPROC == |s1.place| && s1.queue == s.queue
    requires forall q: Slot :: q < NPROC && q != p ==> s1.task[q].vr == s.task[q].vr
    ensures QueueOf(PutInQueue(s1, p)) == Insert(QueueOf(s), Entry(p, s1.task[p].vr))
    ensures PutInQueue(s1, p).queue != s1.queue
  {
    ChargedQueue(s, p, s1);
    InsertedIs(s1, p);
    var s' := PutInQueue(s1, p);
    assert Runtimes(s'.task) == Runtimes(s1.task);
    EntriesFrame(s.task, s1.task, s.queue);
    EnqueueInserts(Runtimes(s1.task), s.queue, p);
    EnqueueMembers(Runtimes(s1.task), s.queue, p);
  }

  lemma RetrieveEntries(s: State, c: nat)
    requires Inv(s) && Enabled(s, Retrieve(c))
    ensures QueueOf(RetrieveStep(s, c)) == QueueOf(s)[1..]
  {
    RetrieveInv(s, c);
    var s' := RetrieveStep(s, c);
    EntriesFrame(s.task, s'.task, s'.queue);
    assert Entries(Runtimes(s.task), s.queue[1..]) == Entries(Runtimes(s.task), s.queue)[1..];
  }

  lemma TickEntries(s: State, c: nat, user: bool, min: Snapshot)
    requires Inv(s) && Enabled(s, Tick(c, user, min))
    ensures QueueOf(TickStep(s, c, user, min)) == Apply(QueueOf(s), OpOf(s, Tick(c, user, min)))
  {
    hide WeightOf, Enqueue, Insert;
    var p := s.cpu[c].p;
    assert CpuGood(s, c) && TaskGood(s, p);
    hide CpuGood, TaskGood;
    var t := s.task[p].(cr := s.task[p].cr + if user then 1 else 0);
    var s1 := s.(task := s.task[p := t]);
    if Preempted(s, c, user, min) {
      InsertedEntries(s, Charged(s1, p), p);
      assert TickStep(s, c, user, min).task == PutInQueue(Charged(s1, p), p).task;
    } else {
      EntriesFrame(s.task, s1.task, s.queue);
    }
  }

  /** Steps that leave the queue alone. */
  lemma OtherEntries(s: State, step: Step)
    requires Inv(s) && Enabled(s, step) && !step.ForkInsert? && !step.Tick? && !step.Wake? && !step.Retrieve?
    ensures QueueOf(Next(s, step)) == QueueOf(s)
  {
    var s' := Next(s, step);
    if step.Alloc? {
      assert TaskGood(s, step.p);
    }
    EntriesFrame(s.task, s'.task, s.queue);
  }

  lemma StepEntries(s: State, step: Step)
    requires Inv(s) && Enabled(s, step)
    ensures QueueOf(Next(s, step)) == Apply(QueueOf(s), OpOf(s, step))
  {
    hide WeightOf, Enqueue, Insert;
    match step
    case ForkInsert(p) =>
      assert TaskGood(s, p);
      InsertedEntries(s, s.(forking := s.forking - {p}), p);
    case Tick(c, user, min) => TickEntries(s, c, user, min);
    case Wake(p) =>
      assert TaskGood(s, p);
      InsertedEntries(s, Charged(s, p), p);
    case Retrieve(c) => RetrieveEntries(s, c);
    case _ => OtherEntries(s, step);
  }

  function OpsOf(s: State, steps: seq<Step>, s': State): seq<Op>
    requires Run(s, steps, s')
    decreases |steps|
  {
    if steps == [] then [] else OpOf(s, steps[0]) + OpsOf(Next(s, steps[0]), steps[1..], s')
  }

  /** The processes taken out of the queue in a run, in order, with the runtimes they were taken at. */
  function Taken(s: State, steps: seq<Step>, s': State): seq<Entry>
    requires Run(s, steps, s')
    decreases |steps|
  {
    if steps == [] then []
    else (if steps[0].Retrieve? then [Entry(s.queue[0], Key(Runtimes(s.task), s.queue[0]))]
          else []) + Taken(Next(s, steps[0]), steps[1..], s')
  }

  /** Over every run of the scheduler, processes leave the queue in the order of a stable priority queue. */
  lemma {:induction false} DispatchOrder(s: State, steps: seq<Step>, s': State)
    requires Inv(s) && Run(s, steps, s')
    ensures Taken(s, steps, s') == QueueRun(QueueOf(s), OpsOf(s, steps, s'))
    decreases |steps|
  {
    if steps != [] {
      var step, next := steps[0], Next(s, steps[0]);
      StepInv(s, step);
      StepEntries(s, step);
      DispatchOrder(next, steps[1..], s');
      var rest := OpsOf(next, steps[1..], s');
      assert OpOf(s, step) != [] ==> (OpOf(s, step) + rest)[1..] == rest;
      assert OpOf(s, step) == [] ==> OpOf(s, step) + rest == rest;
      assert step.Retrieve? ==>
               QueueOf(s) != [] && QueueOf(s)[0] == Entry(s.queue[0], Key(Runtimes(s.task), s.queue[0]));
    }
  }

  lemma DispatchOrderFromBoot(cpus: nat, steps: seq<Step>, s': State)
    requires Run(Initial(cpus), steps, s')
    ensures Taken(Initial(cpus), steps, s') == BagRun([], OpsOf(Initial(cpus), steps, s'))
  {
    InitialInv(cpus);
    DispatchOrder(Initial(cpus), steps, s');
    RunRefines([], OpsOf(Initial(cpus), steps, s'));
    assert QueueOf(Initial(cpus)) == InOrderOf([]);
  }
}
