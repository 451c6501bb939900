/** The scheduler and fork on the heap: task records, the task ring, the run queue, g_task
    and the page allocator. `View` reads them as a `Model`, and the contract of each method says
    which function of SchedModel it computes on that. */
module Sched {
  import opened List
  import opened PageAlloc
  import opened SchedModel
  import opened TaskRing

  const THREAD_SIZE: nat := 4096
  const PT_REGS_SIZE: nat := 320
  const PSR_MODE_EL1H: nat := 5

  function Readied(m: Model, p: nat): Model
    requires p < |m.tasks|
  {
    m.(tasks := m.tasks[p := m.tasks[p].(state := 0)])
  }

  /** wake_up_process */
  function Woken(m: Model, p: nat): Model
    requires p < |m.tasks|
  {
    Enqueue(Readied(m, p), p)
  }

  lemma ReadiedKeeps(m: Model, p: nat)
    requires Inv(m) && p < |m.tasks|
    ensures Inv(Readied(m, p)) && |Readied(m, p).tasks| == |m.tasks| && Readied(m, p).queue == m.queue
  {
  }

  lemma IsReset(m: Model, r: Model)
    requires |r.tasks| == |m.tasks| && r.(tasks := m.tasks) == m
    requires forall i :: 0 <= i < |r.tasks| ==>
               r.tasks[i] == if i == 0 then m.tasks[i] else m.tasks[i].(counter := DEF_COUNTER + m.tasks[i].priority)
    ensures r == Reset(m)
  {
    assert r.tasks == Reset(m).tasks;
  }

  lemma ScheduleSteps(m: Model, prev: nat)
    requires CanSchedule(m, prev)
    ensures Leave(m, prev) == if m.tasks[prev].state != 0 then Dequeue(m, prev) else m
    ensures Inv(Leave(m, prev)) && Leave(m, prev).queue != []
    ensures Scheduled(m, prev) == Cleared(BeforePick(Leave(m, prev)), prev)
    ensures Next(m, prev) == Picked(Leave(m, prev))
  {
    hide Inv, BeforePick, Picked, Dequeue;
    LeaveKeeps(m, prev);
  }

  /** A scan that finds 0 calls for the reset, and the scan after a reset does not. */
  lemma ScanDecides(m: Model, r: Model, p: nat, c: int)
    requires Inv(m) && m.queue != [] && Inv(r) && r.queue == m.queue
    requires r == m || (NeedsReset(m) && r == Reset(m))
    requires Best(r, p, c)
    ensures c != 0 ==> r == BeforePick(m) && p == Picked(m)
    ensures c == 0 ==> r == m && NeedsReset(m) && !NeedsReset(Reset(m))
  {
    hide Inv, Reset, Weights, FirstMax;
    PickIsBest(m);
  }

  /** k is the first position of the maximum of the first i weights. */
  predicate MaxSoFar(w: seq<int>, i: nat, k: nat) {
    i <= |w| && (i > 0 ==> k < i) && forall j :: 0 <= j < i ==> w[j] <= w[k] && (j < k ==> w[j] < w[k])
  }

  lemma MaxOfNone(w: seq<int>)
    ensures MaxSoFar(w, 0, 0)
  {
  }

  lemma MaxStep(w: seq<int>, i: nat, k: nat)
    requires MaxSoFar(w, i, k) && i < |w|
    ensures MaxSoFar(w, i + 1, if i == 0 || w[i] > w[k] then i else k)
  {
  }

  /** The scan's answer: the first task of greatest counter, and that counter. */
  ghost predicate Best(m: Model, p: nat, c: int) {
    && m.queue != [] && (forall i :: 0 <= i < |m.queue| ==> m.queue[i] < |m.tasks|)
    && p == m.queue[FirstMax(Weights(m))] && c == Weights(m)[FirstMax(Weights(m))]
  }

  ghost predicate PickedFrom(m: Model, next: nat, r: Model) {
    Inv(m) && m.queue != [] && r == BeforePick(m) && next == Picked(m)
  }

  /** One more task, not queued yet. */
  function WithTask(m: Model, t: TaskView): Model { m.(tasks := m.tasks + [t], forks := m.forks + 1) }

  lemma AddNoTask(v: seq<TaskView>)
    ensures v + [] == v
  {
  }

  lemma WithTaskKeeps(m: Model, t: TaskView)
    requires Inv(m) && |m.tasks| < NR_TASKS && TaskOk(|m.tasks|, t)
    ensures Inv(WithTask(m, t))
  {
  }

  lemma EnqueueKeeps(m: Model, p: nat)
    requires Inv(m) && 1 <= p < |m.tasks| && p !in m.queue
    ensures Inv(Enqueue(m, p))
  {
  }

  ghost predicate Forks(m: Model, cur: nat, r: Model) {
    CanFork(m) && cur < |m.tasks| && r == Forked(m, cur)
  }

  /** A fork after its page is taken. */
  ghost predicate Joins(m: Model, cur: nat, r: Model) {
    cur < |m.tasks| && r == Woken(Added(m, cur), |m.tasks|)
  }

  /** The steps of a fork put together. */
  lemma ForkOutcome(m: Model, r: Model, page: nat, cur: nat)
    requires Took(m, r, page) && cur < |m.tasks|
    ensures page == 0 ==> r == m && !CanFork(m)
    ensures page != 0 ==> IsPage(page) && PageIndex(page) !in r.free && GaveBack(r, page) == m
    ensures page != 0 ==> (CanFork(m) <==> |m.tasks| < NR_TASKS)
  {
    if page != 0 { assert r.free + {PageIndex(page)} == m.free; }
  }

  lemma JoinForks(m: Model, r: Model, page: nat, cur: nat, s: Model)
    requires page != 0 && Took(m, r, page) && |m.tasks| < NR_TASKS && Joins(r, cur, s)
    ensures Forks(m, cur, s)
  {
    var a := Added(r, cur);
    assert a.tasks[|m.tasks| := a.tasks[|m.tasks|].(state := 0)] == a.tasks;
  }

  /** A fork, field by field: the lowest free page goes, the child is ready, asks for nothing,
      may be preempted, has priority 2 and the larger half of the slice, and is first in the
      queue. */
  lemma ForkMeans(m: Model, cur: nat, r: Model)
    requires Forks(m, cur, r)
    ensures m.free != {} && cur < |m.tasks| < 128 && |r.tasks| == |m.tasks| + 1
    ensures exists x :: x in m.free && (forall y :: y in m.free ==> x <= y) && r.free == m.free - {x}
    ensures r.queue == [|m.tasks|] + m.queue && r.forks == m.forks + 1
    ensures var c, child := m.tasks[cur].counter, r.tasks[|m.tasks|];
            && child.state == 0 && child.priority == 2 && !child.needResched && child.preempt == 0
            && child.counter == (c + 1) / 2 && r.tasks[cur] == m.tasks[cur].(counter := c / 2)
    ensures forall i :: 0 <= i < |m.tasks| && i != cur ==> r.tasks[i] == m.tasks[i]
  {
    var x := Lowest(m.free);
  }

  lemma CanForkMeans(m: Model)
    ensures CanFork(m) <==> m.free != {} && |m.tasks| < 128
  {
  }

  /** One call of the scheduler by `prev` that chooses `next`. */
  ghost predicate Chooses(m: Model, prev: nat, r: Model, next: nat) {
    CanSchedule(m, prev) && r == Scheduled(m, prev) && next == Next(m, prev)
  }

  lemma FirstMaxUnique(w: seq<int>, k: nat)
    requires MaxSoFar(w, |w|, k) && |w| > 0
    ensures k == FirstMax(w)
  {
    assert w[k] <= w[FirstMax(w)];
  }

  // ----- the steps of a run -----

  ghost predicate CanStep(m: Model, p: nat, e: Event) { RunOk(Running(m, p)) && Enabled(Running(m, p), e) }

  ghost predicate CanRunAll(m: Model, p: nat, es: seq<Event>) { RunOk(Running(m, p)) && Runs(Running(m, p), es) }

  /** One event of a run of the model. */
  ghost predicate Steps(m: Model, p: nat, e: Event, r: Model, next: nat) {
    CanStep(m, p, e) && Running(r, next) == After(Running(m, p), e)
  }

  /** A whole run of the model. */
  ghost predicate RunsTo(m: Model, p: nat, es: seq<Event>, r: Model, last: nat) {
    CanRunAll(m, p, es) && Running(r, last) == Exec(Running(m, p), es)
  }

  // ----- a fork that is interrupted between its stores, and goes on -----

  /** A run of ticks and calls of the scheduler that comes back to task p. */
  ghost predicate Returns(m: Model, p: nat, es: seq<Event>) {
    CanRunAll(m, p, es) && ForkEvent !in es && Exec(Running(m, p), es).cur == p
  }

  ghost function Ran(m: Model, p: nat, es: seq<Event>): Model
    requires Returns(m, p, es)
  {
    Exec(Running(m, p), es).m
  }

  /** What the k-th store from total_forks++ on (counting from 0) does to what the lists show:
      the fifth is the one of SET_LINKS that publishes the task v, the eleventh the one of
      list_add that publishes its place in the queue. */
  function Stored(m: Model, v: TaskView, pid: nat, k: nat): Model {
    if k == 4 then WithTask(m, v) else if k == 10 then Enqueue(m, pid) else m
  }

  /** The runs after the first k stores can all happen, and come back to p. */
  ghost predicate Resumes(m: Model, v: TaskView, pid: nat, p: nat, runs: seq<seq<Event>>, k: nat)
    requires k <= |runs|
    decreases k, 0
  {
    k == 0 || (Resumes(m, v, pid, p, runs, k - 1)
               && Returns(Stored(Between(m, v, pid, p, runs, k - 1), v, pid, k - 1), p, runs[k - 1]))
  }

  /** The model after the first k stores and the runs after each of them. */
  ghost function Between(m: Model, v: TaskView, pid: nat, p: nat, runs: seq<seq<Event>>, k: nat): Model
    requires k <= |runs| && Resumes(m, v, pid, p, runs, k)
    decreases k, 1
  {
    if k == 0 then m else Ran(Stored(Between(m, v, pid, p, runs, k - 1), v, pid, k - 1), p, runs[k - 1])
  }

  const PUBLISHING: nat := 12

  /** What can happen up to store n can happen up to each store before it. */
  lemma {:induction false} ResumesEarlier(m: Model, v: TaskView, pid: nat, p: nat, runs: seq<seq<Event>>, k: nat,
                                          n: nat)
    requires k <= n <= |runs| && Resumes(m, v, pid, p, runs, n)
    ensures Resumes(m, v, pid, p, runs, k)
    decreases n
  {
    hide Returns, Stored;
    if k < n { ResumesEarlier(m, v, pid, p, runs, k, n - 1); }
  }

  /** The run after store k. */
  lemma ResumesStep(m: Model, v: TaskView, pid: nat, p: nat, runs: seq<seq<Event>>, k: nat)
    requires k < |runs| && Resumes(m, v, pid, p, runs, k + 1)
    ensures Resumes(m, v, pid, p, runs, k)
    ensures var s := Stored(Between(m, v, pid, p, runs, k), v, pid, k);
            Returns(s, p, runs[k]) && Between(m, v, pid, p, runs, k + 1) == Ran(s, p, runs[k])
  {
    hide Returns, Stored;
  }

  lemma BetweenNone(m: Model, v: TaskView, pid: nat, p: nat, runs: seq<seq<Event>>)
    ensures Resumes(m, v, pid, p, runs, 0) && Between(m, v, pid, p, runs, 0) == m
  {
  }

  /** Only the fifth store reads the task. */
  lemma StoredSame(m: Model, v: TaskView, w: TaskView, pid: nat, k: nat)
    requires k <= 4 ==> v == w
    ensures Stored(m, v, pid, k) == Stored(m, w, pid, k)
  {
  }

  lemma StoredKeeps(m: Model, v: TaskView, pid: nat, k: nat)
    requires Inv(m)
    requires k == 4 ==> |m.tasks| < NR_TASKS && TaskOk(|m.tasks|, v)
    requires k == 10 ==> 1 <= pid < |m.tasks| && pid !in m.queue
    ensures Inv(Stored(m, v, pid, k))
  {
    hide Inv;
    if k == 4 { WithTaskKeeps(m, v); }
    if k == 10 { EnqueueKeeps(m, pid); }
  }

  lemma FirstStep(m: Model, p: nat, es: seq<Event>)
    requires es != [] && CanRunAll(m, p, es)
    ensures CanStep(m, p, es[0])
  {
  }

  lemma NextSteps(m: Model, p: nat, es: seq<Event>, r: Model, next: nat)
    requires es != [] && CanRunAll(m, p, es) && Steps(m, p, es[0], r, next)
    ensures CanRunAll(r, next, es[1..])
  {
    hide RunOk, After;
  }

  lemma RunsNowhere(m: Model, p: nat)
    requires CanRunAll(m, p, [])
    ensures RunsTo(m, p, [], m, p)
  {
    hide RunOk;
  }

  lemma RunsStep(m: Model, p: nat, es: seq<Event>, m1: Model, p1: nat, r: Model, last: nat)
    requires es != [] && Steps(m, p, es[0], m1, p1) && RunsTo(m1, p1, es[1..], r, last)
    ensures RunsTo(m, p, es, r, last)
  {
    hide RunOk, After;
  }

  lemma TickDecides(m: Model, p: nat)
    requires CanStep(m, p, TickEvent)
    ensures p < |m.tasks| && Tick(m, p).tasks[p].state == 0
    ensures Tick(m, p).tasks[p].needResched ==> CanSchedule(Tick(m, p), p)
  {
    RunnerExists(m, p);
    BeforeScheduleOk(Running(m, p), TickEvent);
    if Tick(m, p).tasks[p].needResched { ScheduleOk(Running(Tick(m, p), p)); }
  }

  lemma QuietSteps(m: Model, p: nat)
    requires CanStep(m, p, TickEvent) && p < |m.tasks| && !Tick(m, p).tasks[p].needResched
    ensures Steps(m, p, TickEvent, Tick(m, p), p)
  {
    hide RunOk, Tick;
  }

  lemma TickSteps(m: Model, p: nat, r: Model, next: nat)
    requires CanStep(m, p, TickEvent) && p < |m.tasks| && Tick(m, p).tasks[p].needResched
    requires Chooses(Tick(m, p), p, r, next)
    ensures Steps(m, p, TickEvent, r, next)
  {
    hide RunOk, Tick, CanSchedule, Scheduled, Next;
  }

  lemma CallDecides(m: Model, p: nat)
    requires CanStep(m, p, ScheduleEvent)
    ensures p < |m.tasks| && CanSchedule(m, p) && m.tasks[p].state == 0
  {
    RunnerExists(m, p);
    ScheduleOk(Running(m, p));
  }

  lemma CallSteps(m: Model, p: nat, r: Model, next: nat)
    requires CanStep(m, p, ScheduleEvent) && Chooses(m, p, r, next)
    ensures Steps(m, p, ScheduleEvent, r, next)
  {
    hide RunOk, CanSchedule, Scheduled, Next;
  }

  lemma ForkSteps(m: Model, p: nat, r: Model, forked: bool)
    requires CanStep(m, p, ForkEvent) && if forked then Forks(m, p, r) else r == m && !CanFork(m)
    ensures Steps(m, p, ForkEvent, r, p)
  {
    hide Inv, Forked, CanFork;
  }

  const PF_KTHREAD: nat := 1

  lemma KernelStack(fn: nat)
    ensures GoodStack(PF_KTHREAD, fn)
  {
  }

  /** get_free_page took the lowest free page, or there was none. */
  ghost predicate Took(m: Model, r: Model, page: nat) {
    if m.free == {} then page == 0 && r == m
    else IsPage(page) && PageIndex(page) == Lowest(m.free) && r == m.(free := m.free - {Lowest(m.free)})
  }

  function GaveBack(m: Model, page: nat): Model
    requires IsPage(page)
  {
    m.(free := m.free + {PageIndex(page)})
  }

  function Unmarked(map_: seq<int>, page: nat): seq<int> {
    if 0 <= PageIndex(page) < |map_| then map_[PageIndex(page) := 0] else map_
  }

  lemma LowestIs(s: set<nat>, x: nat)
    requires x in s && forall y :: y in s ==> x <= y
    ensures Lowest(s) == x
  {
  }

  // ----- copy_thread -----

  /** clone_flags & PF_KTHREAD */
  predicate KernelThread(flags: nat) { flags % 2 == 1 }

  /** stack & 15 */
  predicate Misaligned(stack: nat) { stack % 16 != 0 }

  /** A user thread's stack pointer must be 16-byte aligned; 0 keeps the parent's. */
  predicate GoodStack(flags: nat, stack: nat) { KernelThread(flags) || !Misaligned(stack) }

  lemma AlignedZero()
    ensures !Misaligned(0)
  {
  }

  /** A new task first runs ret_from_fork on the stack just below its saved registers. */
  function ChildContext(flags: nat, stack: nat, arg: nat, page: nat, retFromFork: nat): CpuContext {
    NoContext.(x19 := if KernelThread(flags) then stack else 0, x20 := if KernelThread(flags) then arg else 0,
               sp := page + THREAD_SIZE - PT_REGS_SIZE, pc := retFromFork)
  }

  /** A user thread returns 0 from the fork, on its own stack if it was given one. */
  function ChildRegs(flags: nat, stack: nat, parent: PtRegs): PtRegs {
    if KernelThread(flags) then NoRegs.(pstate := PSR_MODE_EL1H)
    else parent.(x0 := 0, sp := if stack != 0 then stack else parent.sp)
  }

  /** A kernel thread starts with cleared registers, at EL1. */
  predicate KernelRegs(flags: nat, c: PtRegs) {
    flags % 2 == 1 ==>
      && c.x0 == 0 && c.sp == 0 && c.pc == 0 && c.pstate == 5
      && |c.x1ToX30| == 30 && forall i :: 0 <= i < 30 ==> c.x1ToX30[i] == 0
  }

  /** A user thread has its parent's registers, but 0 in x0 and the stack given, if one is. */
  predicate UserRegs(flags: nat, stack: nat, parent: PtRegs, c: PtRegs) {
    flags % 2 == 0 ==>
      && c.x0 == 0 && c.x1ToX30 == parent.x1ToX30 && c.pc == parent.pc && c.pstate == parent.pstate
      && c.sp == if stack == 0 then parent.sp else stack
  }

  /** Where a child first runs: ret_from_fork, below the saved registers at the top of its page,
      with the function and its argument if it is a kernel thread. */
  predicate StartContext(flags: nat, stack: nat, arg: nat, page: nat, retFromFork: nat, c: CpuContext) {
    && c.pc == retFromFork && c.sp == page + 4096 - 320
    && c.x19 == (if flags % 2 == 1 then stack else 0) && c.x20 == (if flags % 2 == 1 then arg else 0)
    && c.x21 == c.x22 == c.x23 == c.x24 == c.x25 == c.x26 == c.x27 == c.x28 == c.fp == 0
  }

  lemma GoodStackMeans(flags: nat, stack: nat)
    ensures GoodStack(flags, stack) <==> flags % 2 == 1 || stack % 16 == 0
  {
  }

  lemma RegsMean(flags: nat, stack: nat, arg: nat, page: nat, retFromFork: nat, parent: PtRegs)
    ensures KernelRegs(flags, ChildRegs(flags, stack, parent))
    ensures UserRegs(flags, stack, parent, ChildRegs(flags, stack, parent))
    ensures StartContext(flags, stack, arg, page, retFromFork, ChildContext(flags, stack, arg, page, retFromFork))
  {
  }

  /** The part of a fork before the child is woken: it shares its parent's slice. */
  function Added(m: Model, cur: nat): Model
    requires cur < |m.tasks|
  {
    m.(tasks := m.tasks[cur := m.tasks[cur].(counter := m.tasks[cur].counter / 2)] + [ChildOf(m.tasks[cur])],
       forks := m.forks + 1)
  }

  lemma IsAdded(m: Model, cur: nat, r: Model)
    requires cur < |m.tasks| && |r.tasks| == |m.tasks| + 1 && r.(tasks := m.tasks, forks := m.forks) == m
             && r.forks == m.forks + 1
    requires forall i :: 0 <= i < |m.tasks| ==>
               r.tasks[i] == if i == cur then m.tasks[i].(counter := m.tasks[i].counter / 2) else m.tasks[i]
    requires r.tasks[|m.tasks|] == ChildOf(m.tasks[cur])
    ensures r == Added(m, cur)
  {
    assert r.tasks == Added(m, cur).tasks;
  }

  lemma AddedKeeps(m: Model, cur: nat)
    requires Inv(m) && cur < |m.tasks| < NR_TASKS
    ensures Inv(Added(m, cur)) && |m.tasks| !in m.queue
  {
  }

  // ----- views -----

  ghost function Views(all: seq<Task>): (v: seq<TaskView>)
    reads all`state, all`counter, all`priority, all`needResched, all`preemptCount
    ensures |v| == |all| && forall i :: 0 <= i < |all| ==> v[i] == ViewOf(all[i])
  {
    if all == [] then [] else Views(all[..|all| - 1]) + [ViewOf(Last(all))]
  }

  /** The list nodes of the queued tasks, in queue order. */
  ghost function Nodes(head: ListHead<Task?>, all: seq<Task>, queue: seq<nat>): (s: seq<ListHead<Task?>>)
    ensures |s| == |queue|
    ensures forall i :: 0 <= i < |s| ==> s[i] == if queue[i] < |all| then all[queue[i]].runList else head
  {
    seq(|queue|, i requires 0 <= i < |queue| => if queue[i] < |all| then all[queue[i]].runList else head)
  }

  ghost function RunLists(all: seq<Task>): (s: seq<ListHead<Task?>>)
    ensures |s| == |all| && forall i :: 0 <= i < |s| ==> s[i] == all[i].runList
  {
    seq(|all|, i requires 0 <= i < |all| => all[i].runList)
  }

  /** Every task's own list node, in no one else's record and not the head. */
  ghost predicate OwnNodes(head: ListHead<Task?>, all: seq<Task>)
    reads RunLists(all)`entry
  {
    && (forall i, j :: 0 <= i < j < |all| ==> all[i].runList != all[j].runList)
    && (forall i :: 0 <= i < |all| ==> all[i].runList != head && RunLists(all)[i].entry == all[i])
  }

  predicate InRange(all: seq<Task>, queue: seq<nat>) {
    forall i :: 0 <= i < |queue| ==> queue[i] < |all|
  }

  lemma OtherNode(head: ListHead<Task?>, all: seq<Task>, queue: seq<nat>, p: nat)
    requires OwnNodes(head, all) && InRange(all, queue) && p < |all| && p !in queue
    ensures all[p].runList != head && all[p].runList !in Nodes(head, all, queue)
  {
  }

  lemma {:induction false} WithoutAt(q: seq<nat>, k: nat)
    requires Distinct(q) && k < |q|
    ensures Without(q, q[k]) == Removed(q, k) && |Removed(q, k)| == |q| - 1
  {
    if k > 0 {
      var r := q[1..];
      assert r[k - 1] == q[k] != q[0];
      WithoutAt(r, k - 1);
      assert Removed(q, k) == [q[0]] + Removed(r, k - 1);
    } else {
      assert Removed(q, 0) == q[1..];
    }
  }

  lemma NodesRemoved(head: ListHead<Task?>, all: seq<Task>, queue: seq<nat>, k: nat)
    requires k < |queue|
    ensures Nodes(head, all, Removed(queue, k)) == Removed(Nodes(head, all, queue), k)
  {
  }

  /** g_task lists the tasks by pid, then nothing. */
  ghost predicate Table(gTask: array<Task?>, all: seq<Task>)
    reads gTask, all`pid
  {
    && gTask.Length == NR_TASKS && 1 <= |all| <= NR_TASKS
    && (forall i :: 0 <= i < |all| ==> gTask[i] == all[i] && all[i].pid == i)
    && (forall i :: |all| <= i < NR_TASKS ==> gTask[i] == null)
  }

  /** Forked tasks live on distinct pages, all of them taken. */
  ghost predicate OwnPages(all: seq<Task>, free: set<nat>) {
    && (forall i :: 1 <= i < |all| ==> IsPage(all[i].page) && PageIndex(all[i].page) !in free)
    && (forall i, j :: 1 <= i < j < |all| ==> all[i].page != all[j].page)
  }

  lemma AppendNodes(head: ListHead<Task?>, all: seq<Task>, p: Task)
    requires OwnNodes(head, all) && p.runList !in RunLists(all) && p.runList != head && p.runList.entry == p
    ensures OwnNodes(head, all + [p])
  {
    var r := all + [p];
    forall i, j | 0 <= i < j < |r| ensures r[i].runList != r[j].runList {
      assert RunLists(all)[i] == all[i].runList;
    }
    forall i | 0 <= i < |r| ensures r[i].runList != head && RunLists(r)[i].entry == r[i] {
      if i < |all| { assert RunLists(all)[i].entry == all[i]; }
    }
  }

  ghost predicate Numbered(all: seq<Task>)
    reads all`pid
  {
    forall i :: 0 <= i < |all| ==> all[i].pid == i
  }

  lemma AppendNumbered(all: seq<Task>, p: Task)
    requires Numbered(all) && p.pid == |all|
    ensures Numbered(all + [p])
  {
  }

  lemma AppendDistinct(all: seq<Task>, p: Task)
    requires TasksDistinct(all) && p !in all
    ensures TasksDistinct(all + [p])
  {
  }

  lemma SameNodes(head: ListHead<Task?>, all: seq<Task>, p: Task, queue: seq<nat>)
    requires InRange(all, queue)
    ensures InRange(all + [p], queue) && Nodes(head, all + [p], queue) == Nodes(head, all, queue)
  {
  }

  lemma AppendPages(all: seq<Task>, p: Task, free: set<nat>)
    requires OwnPages(all, free) && |all| > 0 && IsPage(p.page) && PageIndex(p.page) !in free
    requires forall i :: 1 <= i < |all| ==> all[i].page != p.page
    ensures OwnPages(all + [p], free)
  {
  }

  class Scheduler {
    const initTask: Task
    const rqHead: ListHead<Task?>
    const gTask: array<Task?>
    const alloc: PageAllocator
    /** The address of the assembly routine of that name. */
    const retFromFork: nat
    var nrRunning: int
    var totalForks: nat
    /** init, then the forked tasks in fork order. */
    ghost var all: seq<Task>
    /** The pids in the run queue. */
    ghost var queue: seq<nat>

    ghost function View(): Model
      reads this`all, this`queue, this`totalForks, alloc.memMap
      reads all`state, all`counter, all`priority, all`needResched, all`preemptCount
    {
      Model(Views(all), queue, alloc.Free(), totalForks)
    }

    ghost predicate Ordered()
      reads this`all, all`nextTask, all`prevTask
    {
      |all| > 0 && all[0] == initTask && TasksDistinct(all) && TaskForward(all) && TaskBackward(all)
    }

    ghost predicate Queued()
      reads this`all, this`queue, this`nrRunning
      reads rqHead`next, rqHead`prev, Nodes(rqHead, all, queue)`next, Nodes(rqHead, all, queue)`prev
    {
      Ring(rqHead, Nodes(rqHead, all, queue)) && nrRunning == |queue|
    }

    ghost predicate Structure()
      reads this`all, gTask, all`pid, all`nextTask, all`prevTask, alloc.memMap
      reads RunLists(all)`entry
    {
      alloc.Valid() && Ordered() && Table(gTask, all) && OwnNodes(rqHead, all) && OwnPages(all, alloc.Free())
    }

    ghost predicate Valid()
      reads this`all, this`queue, this`nrRunning, this`totalForks, gTask, alloc.memMap
      reads all`state, all`counter, all`priority, all`needResched, all`preemptCount
      reads all`pid, all`nextTask, all`prevTask
      reads rqHead`next, rqHead`prev, Nodes(rqHead, all, queue)`next, Nodes(rqHead, all, queue)`prev
      reads RunLists(all)`entry
    {
      Structure() && Queued() && Inv(View())
    }

    /** What the picker and reset_score find by following the lists forward. */
    ghost function Seen(): Model
      reads this`all, this`queue, alloc.memMap
      reads all`state, all`counter, all`priority, all`needResched, all`preemptCount
      requires |all| > 0
    {
      Model(Views(all), queue, alloc.Free(), |all| - 1)
    }

    /** The forward links of both lists lead through the tasks and through the queue. */
    ghost predicate Links()
      reads this`all, this`queue, all`nextTask, rqHead`next, Nodes(rqHead, all, queue)`next
    {
      && |all| > 0 && all[0] == initTask && TasksDistinct(all) && TaskForward(all)
      && Forward(rqHead, Nodes(rqHead, all, queue))
    }

    ghost predicate Records()
      reads this`all, all`pid, RunLists(all)`entry
    {
      OwnNodes(rqHead, all) && Numbered(all)
    }

    /** Enough to pick: an interrupt inside an insertion finds no more than this. */
    ghost predicate Walkable()
      reads this`all, this`queue, alloc.memMap
      reads all`state, all`counter, all`priority, all`needResched, all`preemptCount
      reads all`nextTask, rqHead`next, Nodes(rqHead, all, queue)`next, all`pid, RunLists(all)`entry
    {
      Links() && Records() && Inv(Seen())
    }

    lemma ValidWalkable()
      requires Valid()
      ensures Walkable() && Seen() == View() && Inv(View()) && View().queue == queue
    {
      hide TaskForward, TaskBackward, OwnNodes, OwnPages, Forward, Backward, Views, FreeIn;
    }

    /** p is a record nobody else has, on a page taken for it alone. */
    ghost predicate NewRecord(p: Task)
      reads this`all, alloc.memMap, p.runList`entry
    {
      && p !in all && p.runList !in RunLists(all) && p.runList != rqHead && p.runList.entry == p
      && IsPage(p.page) && PageIndex(p.page) !in alloc.Free()
      && (forall i :: 1 <= i < |all| ==> all[i].page != p.page)
    }

    ghost predicate Has(p: Task)
      reads this`all, p`pid
    {
      p.pid < |all| && all[p.pid] == p
    }

    /** INIT_TASK, g_task's initializer and sched_init: one task, and nothing queued. */
    constructor (pages: PageAllocator, retFromFork: nat)
      requires pages.Valid()
      ensures all == [initTask] && fresh(initTask) && fresh(initTask.runList) && fresh(rqHead) && fresh(gTask)
      ensures Valid() && alloc == pages && this.retFromFork == retFromFork
              && View() == Model([Initial], [], pages.Free(), 0)
      ensures initTask.state == 0 && initTask.counter == 25 && initTask.priority == 20 && initTask.pid == 0
              && !initTask.needResched && initTask.preemptCount == 0 && queue == [] && gTask.Length == 128
    {
      initTask := new Task(0);
      rqHead := new ListHead<Task?>(null);
      gTask := new Task?[NR_TASKS](_ => null);
      alloc, this.retFromFork := pages, retFromFork;
      nrRunning, totalForks := 0, 0;
      all, queue := [], [];
      new;
      hide *;
      initTask.priority, initTask.counter := 20, DEF_COUNTER;
      initTask.nextTask, initTask.prevTask := initTask, initTask;
      all := [initTask];
      gTask[0] := initTask;
      InitListHead(rqHead);
      OneTask();
    }

    /** The initial records, as their initializers leave them, are a valid state. */
    lemma OneTask()
      requires all == [initTask] && queue == [] && nrRunning == 0 && totalForks == 0
      requires initTask.state == 0 && initTask.pid == 0 && initTask.counter == DEF_COUNTER && initTask.priority == 20
      requires !initTask.needResched && initTask.preemptCount == 0
      requires initTask.nextTask == initTask && initTask.prevTask == initTask
      requires initTask.runList != rqHead && initTask.runList.entry == initTask
      requires gTask.Length == NR_TASKS && gTask[0] == initTask && forall i :: 1 <= i < NR_TASKS ==> gTask[i] == null
      requires alloc.Valid() && Ring(rqHead, [])
      ensures Valid() && View() == Model([Initial], [], alloc.Free(), 0)
    {
      hide Ring, FreeIn, Structure;
      OneTaskStructure();
      assert Views(all) == [Initial];
      assert Nodes(rqHead, all, queue) == [];
    }

    lemma OneTaskStructure()
      requires all == [initTask] && initTask.pid == 0
      requires initTask.nextTask == initTask && initTask.prevTask == initTask
      requires initTask.runList != rqHead && initTask.runList.entry == initTask
      requires gTask.Length == NR_TASKS && gTask[0] == initTask && forall i :: 1 <= i < NR_TASKS ==> gTask[i] == null
      requires alloc.Valid()
      ensures Structure()
    {
      hide FreeIn;
    }

    lemma TasksApart(p: Task)
      requires Structure() && Has(p)
      ensures forall i {:trigger all[i]} :: 0 <= i < |all| && i != p.pid ==> all[i] != p
    {
    }

    /** enqueue_task_nop */
    method EnqueueTask(p: Task)
      requires OwnNodes(rqHead, all) && Queued() && Has(p) && p.pid !in queue && InRange(all, queue)
      modifies this`nrRunning, this`queue, p.runList`next, p.runList`prev, rqHead`next
      modifies NodeAt(rqHead, Nodes(rqHead, all, queue), 0)`prev
      ensures Queued() && queue == [p.pid] + old(queue)
    {
      hide OwnNodes, Ring, Nodes, InRange;
      ghost var s := Nodes(rqHead, all, queue);
      OtherNode(rqHead, all, queue, p.pid);
      ListAdd(p.runList, rqHead, s);
      nrRunning := nrRunning + 1;
      queue := [p.pid] + queue;
      assert Nodes(rqHead, all, queue) == [p.runList] + s;
    }

    /** dequeue_task_nop */
    method DequeueTask(p: Task)
      requires OwnNodes(rqHead, all) && Queued() && Has(p) && p.pid in queue && Distinct(queue) && InRange(all, queue)
      modifies this`nrRunning, this`queue, rqHead`next, rqHead`prev
      modifies Nodes(rqHead, all, queue)`next, Nodes(rqHead, all, queue)`prev
      ensures Queued() && queue == Without(old(queue), p.pid) && Departed(old(queue), p.pid, queue)
    {
      hide OwnNodes, Ring, InRange, Distinct, Removed, Departed;
      WithoutMeans(queue, p.pid);
      ghost var s := Nodes(rqHead, all, queue);
      ghost var k: nat :| k < |queue| && queue[k] == p.pid;
      ListDel(p.runList, rqHead, s, k);
      WithoutAt(queue, k);
      NodesRemoved(rqHead, all, queue, k);
      nrRunning := nrRunning - 1;
      queue := Without(queue, p.pid);
    }

    /** wake_up_process, of a task that is not queued. */
    method WakeUpProcess(p: Task)
      requires Valid() && Has(p) && 0 < p.pid && p.pid !in queue
      modifies this`nrRunning, this`queue, p`state, p.runList`next, p.runList`prev, rqHead`next
      modifies NodeAt(rqHead, Nodes(rqHead, all, queue), 0)`prev
      ensures Valid()
      ensures View() == Woken(old(View()), p.pid) && p.state == 0 && queue == [p.pid] + old(queue)
    {
      hide Structure, Queued, Inv, Views, FreeIn, OwnNodes, InRange, Nodes, Readied, RunLists;
      ReadiedKeeps(View(), p.pid);
      SetRunning(p);
      QueueParts();
      EnqueueKeeps(View(), p.pid);
      NodesAllocated();
      EnqueueTask(p);
      assert Structure();
      assert Queued();
    }

    lemma NodesAllocated()
      ensures forall x :: x in RunLists(all) ==> allocated(x)
    {
    }

    /** p->state = TASK_RUNNING */
    method SetRunning(p: Task)
      requires Valid() && Has(p)
      modifies p`state
      ensures Valid() && View() == Readied(old(View()), p.pid) && p.state == 0
    {
      hide Structure, Queued, Inv, Views, FreeIn;
      TasksApart(p);
      ReadiedKeeps(View(), p.pid);
      p.state := 0;
      assert Views(all) == Readied(old(View()), p.pid).tasks;
      assert Structure();
      assert Queued();
    }

    /** task_tick_nop, on whatever the forward links show. */
    method TaskTick(p: Task)
      requires Walkable() && Has(p)
      modifies p`counter, p`needResched
      ensures Walkable() && Seen() == Tick(old(Seen()), p.pid)
      ensures p.counter == if old(p.counter) <= 1 then 0 else old(p.counter) - 1
      ensures p.needResched == (old(p.needResched) || old(p.counter) <= 1)
    {
      hide Inv, Views, FreeIn, Records, TaskForward, Forward, Nodes, RunLists;
      SeenApart(p);
      TickKeeps(Seen(), p.pid);
      NodesAllocated();
      assert forall x :: x in Nodes(rqHead, all, queue) ==> allocated(x);
      p.counter := p.counter - 1;
      if p.counter <= 0 {
        p.counter := 0;
        p.needResched := true;
      }
      assert Views(all) == Tick(old(Seen()), p.pid).tasks;
      assert Links();
      assert Records();
    }

    /** tick_handle_periodic, between complete operations. */
    method TickHandlePeriodic(p: Task)
      requires Valid() && Has(p)
      modifies p`counter, p`needResched
      ensures Valid() && View() == Tick(old(View()), p.pid)
      ensures p.counter == if old(p.counter) <= 1 then 0 else old(p.counter) - 1
      ensures p.needResched == (old(p.needResched) || old(p.counter) <= 1)
    {
      hide Structure, Queued, Walkable, Inv, Views, FreeIn;
      ValidWalkable();
      TickKeeps(View(), p.pid);
      assert forall x :: x in RunLists(all) ==> allocated(x);
      assert forall x :: x in Nodes(rqHead, all, queue) ==> allocated(x);
      TaskTick(p);
      assert Structure();
      assert Queued();
    }

    lemma SeenApart(p: Task)
      requires Walkable() && Has(p)
      ensures forall i {:trigger all[i]} :: 0 <= i < |all| && i != p.pid ==> all[i] != p
      ensures |Seen().tasks| == |all|
    {
      hide Inv, OwnNodes, TaskForward, Forward, TasksDistinct;
    }

    lemma QueueParts()
      requires Valid()
      ensures OwnNodes(rqHead, all) && InRange(all, queue) && Distinct(queue)
              && forall i :: 0 <= i < |queue| ==> queue[i] < |View().tasks|
    {
      hide OwnNodes;
    }

    /** What list_for_each, list_entry and goodness find at each position of the queue. */
    lemma QueueEntries()
      requires Walkable()
      ensures forall i :: 0 <= i < |queue| ==> queue[i] < |Seen().tasks|
      ensures var s := Nodes(rqHead, all, queue);
              && rqHead.next == NodeAt(rqHead, s, 0) && |Weights(Seen())| == |queue|
              && forall i :: 0 <= i < |queue| ==>
                   && s[i] != rqHead && s[i].next == NodeAt(rqHead, s, i + 1)
                   && s[i].entry == all[queue[i]] && all[queue[i]].pid == queue[i]
                   && Weights(Seen())[i] == all[queue[i]].counter >= 0
    {
      forall i | 0 <= i < |queue| ensures TaskOk(queue[i], Seen().tasks[queue[i]]) {
      }
    }

    /** The loop of reset_score: every task but init gets a full slice. */
    method ResetCounters()
      requires |all| > 0 && all[0] == initTask && TasksDistinct(all) && TaskForward(all)
      modifies all`counter
      ensures forall i :: 0 <= i < |all| ==>
                all[i].counter == if i == 0 then old(all[i].counter) else DEF_COUNTER + all[i].priority
    {
      ghost var i: nat := 1;
      assert all[0].nextTask == NextIn(all, 0);
      var p := initTask.nextTask;
      while p != initTask
        invariant 1 <= i <= |all| && p == NextIn(all, i - 1)
        invariant forall j :: 0 <= j < |all| ==>
                    all[j].counter == if j == 0 || i <= j then old(all[j].counter) else DEF_COUNTER + all[j].priority
        decreases |all| - i
      {
        p.counter := DEF_COUNTER + p.priority;
        p := p.nextTask;
        i := i + 1;
      }
    }

    /** The same, as the model sees it. */
    method ResetViews()
      requires |all| > 0 && all[0] == initTask && TasksDistinct(all) && TaskForward(all)
      modifies all`counter
      ensures Seen() == Reset(old(Seen()))
    {
      hide Reset, TaskForward, TasksDistinct, FreeIn;
      ResetCounters();
      IsReset(old(Seen()), Seen());
    }

    /** reset_score */
    method ResetScore()
      requires Walkable()
      modifies all`counter
      ensures Walkable() && Seen() == Reset(old(Seen()))
    {
      hide Records, Inv, Seen, TaskForward, TasksDistinct, Forward, Reset;
      ResetKeeps(Seen());
      assert forall x :: x in RunLists(all) ==> allocated(x);
      assert forall x :: x in Nodes(rqHead, all, queue) ==> allocated(x);
      ResetViews();
    }

    /** The scan of pick_next_task_nop over the nodes s, whose tasks have the counters w. */
    method Scan(ghost s: seq<ListHead<Task?>>, ghost w: seq<int>) returns (best: Task?, c: int)
      requires |s| == |w| && rqHead.next == NodeAt(rqHead, s, 0)
      requires forall i {:trigger s[i]} :: 0 <= i < |s| ==> s[i] != rqHead && s[i].next == NodeAt(rqHead, s, i + 1)
      requires forall i {:trigger s[i]} :: 0 <= i < |s| ==> s[i].entry != null && w[i] == s[i].entry.counter >= 0
      ensures |w| > 0 ==> best == s[FirstMax(w)].entry && c == w[FirstMax(w)]
      ensures |w| == 0 ==> best == null && c == -1000    // next was never set, and no reset follows
    {
      hide FirstMax, MaxSoFar;
      MaxOfNone(w);
      ghost var i: nat, k: nat := 0, 0;
      best := null;
      c := -1000;
      var tmp := rqHead.next;
      while tmp != rqHead
        invariant i <= |s| && tmp == NodeAt(rqHead, s, i)
        invariant MaxSoFar(w, i, k) && (i > 0 ==> k < i)
        invariant if i == 0 then c == -1000 && best == null else best == s[k].entry && c == w[k]
        decreases |s| - i
      {
        MaxStep(w, i, k);
        var p := tmp.entry;
        var weight := p.counter;
        if weight > c {
          c := weight;
          best := p;
          k := i;
        }
        tmp := tmp.next;
        i := i + 1;
      }
      if |w| > 0 { FirstMaxUnique(w, k); }
    }

    method BestTask() returns (next: Task, c: int)
      requires Walkable() && queue != []
      ensures Has(next) && Best(Seen(), next.pid, c)
      ensures Walkable() && Seen() == old(Seen())
    {
      hide Records, Inv, Views, FreeIn, TaskForward, TasksDistinct, Forward, Nodes, Weights, FirstMax;
      QueueEntries();
      assert forall x :: x in RunLists(all) ==> allocated(x);
      assert forall x :: x in Nodes(rqHead, all, queue) ==> allocated(x);
      next, c := Scan(Nodes(rqHead, all, queue), Weights(Seen()));
    }

    lemma SeenModel()
      requires Walkable()
      ensures |all| > 0 && Inv(Seen()) && Seen().queue == queue
    {
    }

    /** pick_next_task_nop, on whatever the forward links show. */
    method PickNextTask() returns (next: Task)
      requires Walkable() && queue != []
      modifies all`counter
      ensures Walkable() && Seen() == BeforePick(old(Seen()))
      ensures Has(next) && next.pid == Picked(old(Seen()))
      ensures |all| > 0 && FirstBest(Seen(), next.pid) && SlicesAfter(old(Seen().tasks), queue, Seen().tasks)
    {
      hide Walkable, Seen, Inv, NeedsReset, BeforePick, Picked, Reset, Best, Has, FirstBest, SlicesAfter;
      SeenModel();
      PickMeans(Seen());
      while true
        invariant Walkable() && |all| > 0 && Inv(Seen()) && Seen().queue == queue && queue != []
        invariant Seen() == old(Seen()) || (NeedsReset(old(Seen())) && Seen() == Reset(old(Seen())))
        decreases if NeedsReset(Seen()) then 1 else 0
      {
        SeenModel();
        var c;
        next, c := BestTask();
        ScanDecides(old(Seen()), Seen(), next.pid, c);
        if c != 0 { return; }
        ResetScore();
        SeenModel();
      }
    }

    /** pick_next_task between complete operations. */
    method Pick() returns (next: Task)
      requires Valid() && queue != []
      modifies all`counter
      ensures Valid() && View() == BeforePick(old(View()))
      ensures Has(next) && next.pid == Picked(old(View()))
      ensures FirstBest(View(), next.pid) && SlicesAfter(old(Views(all)), queue, Views(all))
    {
      hide Structure, Queued, Walkable, Inv, BeforePick, Picked, Views, FreeIn, Has, FirstBest, SlicesAfter;
      PickMeans(View());
      ValidWalkable();
      BeforePickKeeps(View());
      assert forall x :: x in RunLists(all) ==> allocated(x);
      assert forall x :: x in Nodes(rqHead, all, queue) ==> allocated(x);
      next := PickNextTask();
      assert Structure();
      assert Queued();
    }

    lemma ValidModel()
      requires Valid()
      ensures Inv(View()) && View().queue == queue
    {
    }

    /** A pick taken after any prefix of the stores of enqueue_task is a pick on the old queue
        or on the new one. */
    method PickDuringEnqueue(p: Task, writes: nat) returns (next: Task)
      requires Valid() && Has(p) && 0 < p.pid && p.pid !in queue && (queue != [] || writes >= 4)
      modifies this`queue, p.runList`next, p.runList`prev, rqHead`next, all`counter
      modifies NodeAt(rqHead, Nodes(rqHead, all, queue), 0)`prev
      ensures |all| > 0 && Has(next)
      ensures PickedFrom(if writes < 4 then old(View()) else Enqueue(old(View()), p.pid), next.pid, Seen())
    {
      hide Structure, Queued, Valid, Inv, Views, FreeIn, Records, TaskForward, TasksDistinct, BeforePick, Picked, Has;
      ghost var m := View();
      ValidWalkable();
      EnqueuePrefix(p, writes);
      next := PickNextTask();
    }

    lemma FirstLink()
      requires Walkable()
      ensures rqHead.next == NodeAt(rqHead, Nodes(rqHead, all, queue), 0)
    {
    }

    method EnqueuePrefix(p: Task, writes: nat)
      requires Valid() && Has(p) && 0 < p.pid && p.pid !in queue
      modifies this`queue, p.runList`next, p.runList`prev, rqHead`next
      modifies NodeAt(rqHead, Nodes(rqHead, all, queue), 0)`prev
      ensures Walkable() && Seen() == (if writes < 4 then old(View()) else Enqueue(old(View()), p.pid))
      ensures queue == if writes < 4 then old(queue) else [p.pid] + old(queue)
    {
      hide Structure, OwnNodes, InRange, Inv, Views, FreeIn, Records, TaskForward, TasksDistinct, Nodes, Forward,
           Backward, RunLists;
      ghost var s := Nodes(rqHead, all, queue);
      ValidWalkable();
      QueueParts();
      OtherNode(rqHead, all, queue, p.pid);
      EnqueueKeeps(View(), p.pid);
      FirstLink();
      NodesAllocated();
      ListAddWrites(p.runList, rqHead, rqHead.next, writes, s);
      if writes >= 4 {
        queue := [p.pid] + queue;
        assert Nodes(rqHead, all, queue) == [p.runList] + s;
      }
      assert Links();
      assert Records();
    }

    /** A pick (and the reset in it) taken after any prefix of the stores of SET_LINKS sees
        exactly the old tasks or exactly the new; g_task and total_forks may be ahead. */
    method PickDuringLink(p: Task, writes: nat) returns (next: Task)
      requires Walkable() && Ordered() && InRange(all, queue) && queue != []
      requires |all| < NR_TASKS && p.pid == |all| && NewRecord(p) && TaskOk(p.pid, ViewOf(p))
      modifies this`all, all`counter, p`counter, p`nextTask, p`prevTask, Last(all)`nextTask, initTask`prevTask
      ensures Walkable() && Has(next)
      ensures PickedFrom(if writes < 3 then old(Seen()) else WithTask(old(Seen()), old(ViewOf(p))), next.pid, Seen())
    {
      hide Walkable, Ordered, InRange, Inv, Views, FreeIn, NewRecord, BeforePick, Picked, Has;
      SeenModel();
      ghost var m := Seen();
      LinkPrefix(p, writes);
      SeenModel();
      next := PickNextTask();
      SeenModel();
    }

    /** The stores themselves, and the tasks a walk then finds. */
    method LinkStores(p: Task, writes: nat)
      requires Ordered() && p !in all
      modifies this`all, p`nextTask, p`prevTask, Last(all)`nextTask, initTask`prevTask
      ensures all == (if writes < 3 then old(all) else old(all) + [p]) && |all| > 0 && all[0] == initTask
      ensures TasksDistinct(all) && TaskForward(all) && (writes >= 4 ==> Ordered())
      ensures Views(all) == old(Views(all)) + (if writes < 3 then [] else [ViewOf(p)])
    {
      hide TaskForward, TaskBackward, Views;
      AppendDistinct(all, p);
      ghost var a, v := all, Views(all);
      SetLinksWrites(p, initTask, writes, all);
      assert v + [] == v;
      if writes >= 3 {
        all := all + [p];
        assert Views(all) == v + [ViewOf(p)];
      }
    }

    /** The run queue is not touched. */
    method LinkBeside(p: Task, writes: nat)
      requires Links() && Ordered() && InRange(all, queue) && p !in all
      modifies this`all, p`nextTask, p`prevTask, Last(all)`nextTask, initTask`prevTask
      ensures Links() && all == if writes < 3 then old(all) else old(all) + [p]
      ensures Views(all) == old(Views(all)) + (if writes < 3 then [] else [ViewOf(p)])
    {
      hide InRange, Views, TaskForward, TaskBackward, TasksDistinct, Nodes, Forward, RunLists;
      SameNodes(rqHead, all, p, queue);
      assert forall x :: x in Nodes(rqHead, all, queue) ==> allocated(x);
      LinkStores(p, writes);
    }

    method LinkPrefix(p: Task, writes: nat)
      requires Walkable() && Ordered() && InRange(all, queue)
      requires |all| < NR_TASKS && p.pid == |all| && NewRecord(p) && TaskOk(p.pid, ViewOf(p))
      modifies this`all, p`nextTask, p`prevTask, Last(all)`nextTask, initTask`prevTask
      ensures Walkable() && Seen() == (if writes < 3 then old(Seen()) else WithTask(old(Seen()), old(ViewOf(p))))
      ensures queue == old(queue) && all == if writes < 3 then old(all) else old(all) + [p]
    {
      hide Links, Ordered, OwnNodes, Numbered, NewRecord, InRange, Inv, Views, FreeIn, TaskOk, Nodes;
      NewNodes(p);
      SeenModel();
      AppendNumbered(all, p);
      WithTaskKeeps(Seen(), ViewOf(p));
      assert forall x :: x in RunLists(all) ==> allocated(x);
      assert forall x :: x in RunLists(all + [p]) ==> allocated(x);
      assert forall x :: x in Nodes(rqHead, all, queue) ==> allocated(x);
      AddNoTask(Views(all));
      LinkBeside(p, writes);
      assert Links();
      assert Records();
    }

    lemma NewNodes(p: Task)
      requires NewRecord(p) && OwnNodes(rqHead, all)
      ensures p !in all && OwnNodes(rqHead, all + [p])
    {
      hide OwnNodes;
      AppendNodes(rqHead, all, p);
    }

    /** Complete operations leave what the stores of SET_LINKS start from. */
    lemma ReadyToLink()
      requires Valid()
      ensures Walkable() && Seen() == View() && Ordered() && InRange(all, queue)
    {
      hide OwnNodes, OwnPages, Table, Ring, FreeIn, TaskForward, TaskBackward, Views;
      ValidWalkable();
    }

    /** dequeue_task, as the model sees it. */
    method LeaveQueue(p: Task)
      requires Valid() && Has(p) && p.pid in queue
      modifies this`nrRunning, this`queue, rqHead`next, rqHead`prev
      modifies Nodes(rqHead, all, queue)`next, Nodes(rqHead, all, queue)`prev
      ensures Valid() && View() == Dequeue(old(View()), p.pid)
    {
      hide Structure, Queued, Inv, Views, FreeIn, OwnNodes, InRange, Distinct, Departed;
      QueueParts();
      DequeueKeeps(View(), p.pid);
      assert forall x :: x in RunLists(all) ==> allocated(x);
      DequeueTask(p);
      assert Structure();
      assert Queued();
    }

    /** clear_task_resched, on whatever the forward links show. */
    method ClearTaskResched(p: Task)
      requires Walkable() && Has(p)
      modifies p`needResched
      ensures Walkable() && Seen() == Cleared(old(Seen()), p.pid)
    {
      hide Inv, Views, FreeIn, Records, TaskForward, Forward, Nodes;
      SeenApart(p);
      ClearedKeeps(Seen(), p.pid);
      assert forall x :: x in RunLists(all) ==> allocated(x);
      assert forall x :: x in Nodes(rqHead, all, queue) ==> allocated(x);
      p.needResched := false;
      assert Views(all) == Cleared(old(Seen()), p.pid).tasks;
      assert Links();
      assert Records();
    }

    /** The same between complete operations. */
    method ClearRequest(p: Task)
      requires Valid() && Has(p)
      modifies p`needResched
      ensures Valid() && View() == Cleared(old(View()), p.pid)
    {
      hide Structure, Queued, Walkable, Inv, Views, FreeIn;
      ValidWalkable();
      ClearedKeeps(View(), p.pid);
      assert forall x :: x in RunLists(all) ==> allocated(x);
      assert forall x :: x in Nodes(rqHead, all, queue) ==> allocated(x);
      ClearTaskResched(p);
      assert Structure();
      assert Queued();
    }

    /** __schedule, up to the switch: who runs next. */
    method Schedule(prev: Task) returns (next: Task)
      requires Valid() && Has(prev) && CanSchedule(View(), prev.pid)
      requires prev.state != 0 ==> prev.pid in queue
      modifies this`nrRunning, this`queue, rqHead`next, rqHead`prev, all`counter, prev`needResched
      modifies Nodes(rqHead, all, queue)`next, Nodes(rqHead, all, queue)`prev
      ensures Valid() && Has(next) && Chooses(old(View()), prev.pid, View(), next.pid)
      ensures !prev.needResched && FirstBest(View(), next.pid)
      ensures if prev.state == 0 then queue == old(queue) else Departed(old(queue), prev.pid, queue)
      ensures SlicesAfter(old(Views(all)), queue, Views(all))
    {
      hide Valid, View, Inv, BeforePick, Picked, Dequeue, Cleared, Leave, CanSchedule, Scheduled, Next, Nodes, Has,
           FirstBest, Departed, SlicesAfter, Views;
      StateInView(prev);
      ScheduledMeans(View(), prev.pid);
      ScheduleSteps(View(), prev.pid);
      if prev.state != 0 {
        LeaveQueue(prev);
      }
      ValidModel();
      next := Pick();
      ClearRequest(prev);
      StateInView(prev);
    }

    lemma StateInView(p: Task)
      requires Valid() && Has(p)
      ensures p.pid < |View().tasks| == |all| && View().queue == queue && View().tasks == Views(all)
      ensures View().tasks[p.pid].state == p.state && View().tasks[p.pid].needResched == p.needResched
    {
    }

    /** find_empty_task */
    method FindEmptyTask() returns (pid: int)
      requires Table(gTask, all)
      ensures pid == if |all| < NR_TASKS then |all| else -1
    {
      for i := 0 to NR_TASKS
        invariant i <= |all|
      {
        if gTask[i] == null { return i; }
      }
      return -1;
    }

    /** The cleared record of a new task on its page, and its place in g_task. */
    method NewTask(page: nat) returns (p: Task, pid: int)
      requires Valid() && IsPage(page) && PageIndex(page) !in alloc.Free()
      requires forall i :: 1 <= i < |all| ==> all[i].page != page
      ensures Valid() && View() == old(View())
      ensures fresh(p) && fresh(p.runList) && p.page == page && NewRecord(p)
      ensures pid == if |all| < NR_TASKS then |all| else -1
    {
      hide Ordered, OwnNodes, OwnPages, Queued, View, Inv;
      assert forall x :: x in RunLists(all) ==> allocated(x);
      assert forall x :: x in Nodes(rqHead, all, queue) ==> allocated(x);
      p := new Task(page);
      pid := FindEmptyTask();
    }

    /** The child's record takes its half of the parent's slice. */
    method SplitSlice(p: Task, pid: nat, current: Task)
      requires p != current
      modifies current`counter, p`state, p`pid, p`counter, p`priority, p`needResched, p`preemptCount
      ensures ViewOf(p) == ChildOf(old(ViewOf(current))) && p.pid == pid
      ensures ViewOf(current) == old(ViewOf(current)).(counter := old(current.counter) / 2)
      ensures p.state == 0 && p.priority == 2 && !p.needResched && p.preemptCount == 0
      ensures p.counter == (old(current.counter) + 1) / 2 && current.counter == old(current.counter) / 2
    {
      p.state := 0;
      p.pid := pid;
      p.counter := (current.counter + 1) / 2;
      current.counter := current.counter / 2;
      p.needResched := false;
      p.preemptCount := 0;
      p.priority := 2;
    }

    /** g_task[pid] = p; SET_LINKS(p) */
    method LinkTask(p: Task, pid: nat)
      requires Structure() && NewRecord(p) && p.pid == pid == |all| < NR_TASKS
      modifies this`all, gTask, p`nextTask, p`prevTask, Last(all)`nextTask, initTask`prevTask
      ensures all == old(all) + [p] && Structure()
    {
      hide OwnNodes, OwnPages, FreeIn, Ordered, TaskForward, TaskBackward, TasksDistinct, Views;
      ghost var a := all;
      AppendNodes(rqHead, all, p);
      AppendPages(all, p, alloc.Free());
      assert forall x :: x in RunLists(all + [p]) ==> allocated(x);
      gTask[pid] := p;
      LinkStores(p, 4);
      assert forall i :: 0 <= i < pid ==> all[i] == a[i];
      assert Table(gTask, all);
      assert OwnNodes(rqHead, all) && OwnPages(all, alloc.Free());
    }

    lemma RecordApart(p: Task)
      requires NewRecord(p)
      ensures forall i {:trigger all[i]} :: 0 <= i < |all| ==> all[i] != p
    {
    }

    method SplitViews(p: Task, pid: nat, current: Task)
      requires Structure() && Has(current) && NewRecord(p)
      modifies current`counter, p`state, p`pid, p`counter, p`priority, p`needResched, p`preemptCount
      ensures Structure() && NewRecord(p) && p.pid == pid && Has(current)
      ensures ViewOf(p) == ChildOf(old(ViewOf(current)))
      ensures forall i :: 0 <= i < |all| ==>
                Views(all)[i] == if i
                    == current.pid then old(Views(all))[i].(counter := old(Views(all))[i].counter / 2)
                                 else old(Views(all))[i]
    {
      hide Structure, NewRecord, Views, FreeIn, ChildOf;
      TasksApart(current);
      RecordApart(p);
      assert forall x :: x in RunLists(all) ==> allocated(x);
      SplitSlice(p, pid, current);
    }

    /** The stores of do_fork between copy_thread and wake_up_process. */
    method AddRecord(p: Task, pid: nat, current: Task)
      requires Structure() && Has(current) && pid == |all| < NR_TASKS && NewRecord(p)
      modifies this`all, this`totalForks, gTask, current`counter, Last(all)`nextTask, initTask`prevTask
      modifies p`state, p`pid, p`counter, p`priority, p`needResched, p`preemptCount, p`nextTask, p`prevTask
      ensures Structure() && all == old(all) + [p] && Has(p) && Has(current)
      ensures View() == Added(old(View()), current.pid)
    {
      hide Structure, NewRecord, Views, FreeIn, Added, ChildOf;
      ghost var a, v := all, View();
      SplitViews(p, pid, current);
      totalForks := totalForks + 1;
      LinkTask(p, pid);
      assert forall i :: 0 <= i < pid ==> all[i] == a[i];
      IsAdded(v, current.pid, View());
    }

    /** The same, from a valid state: the queue is as it was. */
    method AddTask(p: Task, pid: nat, current: Task)
      requires Valid() && Has(current) && pid == |all| < NR_TASKS && NewRecord(p)
      modifies this`all, this`totalForks, gTask, current`counter, Last(all)`nextTask, initTask`prevTask
      modifies p`state, p`pid, p`counter, p`priority, p`needResched, p`preemptCount, p`nextTask, p`prevTask
      ensures Valid() && all == old(all) + [p] && Has(p) && pid !in queue
      ensures View() == Added(old(View()), current.pid)
    {
      hide Structure, Ring, Inv, View, InRange, Nodes, Added;
      StateInView(current);
      AddedKeeps(View(), current.pid);
      QueueParts();
      SameNodes(rqHead, all, p, queue);
      assert forall x :: x in Nodes(rqHead, all, queue) ==> allocated(x);
      AddRecord(p, pid, current);
    }

    method CopyThread(flags: nat, p: Task, stack: nat, arg: nat, current: Task) returns (ok: bool)
      requires p != current
      modifies p`regs, p`context
      ensures ok == GoodStack(flags, stack)
      ensures ok ==> p.regs == ChildRegs(flags, stack, current.regs)
      ensures ok ==> p.context == ChildContext(flags, stack, arg, p.page, retFromFork)
    {
      hide Zeros, KernelThread, Misaligned;
      AlignedZero();
      p.regs := NoRegs;
      p.context := NoContext;
      if KernelThread(flags) {
        p.regs := p.regs.(pstate := PSR_MODE_EL1H);
        p.context := p.context.(x19 := stack, x20 := arg);
      } else {
        p.regs := current.regs;
        p.regs := p.regs.(x0 := 0);
        if stack != 0 {
          if Misaligned(stack) { return false; }
          p.regs := p.regs.(sp := stack);
        }
      }
      p.context := p.context.(pc := retFromFork);
      p.context := p.context.(sp := p.page + THREAD_SIZE - PT_REGS_SIZE);
      return true;
    }

    /** copy_thread touches nothing the scheduler reads. */
    method SetRegisters(flags: nat, p: Task, stack: nat, arg: nat, current: Task) returns (ok: bool)
      requires Valid() && NewRecord(p) && Has(current)
      modifies p`regs, p`context
      ensures Valid() && View() == old(View()) && NewRecord(p)
      ensures ok == GoodStack(flags, stack)
      ensures ok ==> p.regs == ChildRegs(flags, stack, current.regs)
      ensures ok ==> p.context == ChildContext(flags, stack, arg, p.page, retFromFork)
    {
      hide Structure, Queued, View, Inv, GoodStack, ChildRegs, ChildContext;
      assert forall x :: x in RunLists(all) ==> allocated(x);
      assert forall x :: x in Nodes(rqHead, all, queue) ==> allocated(x);
      ok := CopyThread(flags, p, stack, arg, current);
    }

    /** get_free_page, for a child. */
    method TakePage() returns (page: nat)
      requires Valid()
      modifies alloc.memMap
      ensures Valid() && Took(old(View()), View(), page)
      ensures page == 0 ==> alloc.memMap[..] == old(alloc.memMap[..])
      ensures page != 0 ==>
                PageIndex(page) < NR_PAGES && alloc.memMap[..] == old(alloc.memMap[..])[PageIndex(page) := 1]
      ensures page != 0 ==>
                old(alloc.memMap[PageIndex(page)]) == 0 && forall i :: 1 <= i < |all| ==> all[i].page != page
    {
      hide Ordered, Table, OwnNodes, Queued, Views, TaskForward, TaskBackward, TasksDistinct, Forward, Backward,
           Nodes;
      assert forall x :: x in RunLists(all) ==> allocated(x);
      assert forall x :: x in Nodes(rqHead, all, queue) ==> allocated(x);
      page := alloc.GetFreePage();
      if page != 0 { LowestIs(old(alloc.Free()), PageIndex(page)); }
      assert Structure();
      assert Queued();
    }

    /** free_page */
    method GiveBack(page: nat)
      requires Valid() && IsPage(page) && forall i :: 1 <= i < |all| ==> all[i].page != page
      modifies alloc.memMap
      ensures Valid() && alloc.memMap[..] == Unmarked(old(alloc.memMap[..]), page)
      ensures View() == GaveBack(old(View()), page)
    {
      hide Ordered, Table, OwnNodes, Queued, Views, FreeIn;
      assert forall x :: x in RunLists(all) ==> allocated(x);
      assert forall x :: x in Nodes(rqHead, all, queue) ==> allocated(x);
      alloc.FreePage(page);
      assert Structure();
      assert Queued();
    }

    /** do_fork from the page on. */
    method ForkOnPage(flags: nat, stack: nat, arg: nat, current: Task, page: nat) returns (pid: int,
                      ghost child: Task?)
      requires Valid() && Has(current) && IsPage(page) && PageIndex(page) !in alloc.Free()
      requires forall i :: 1 <= i < |all| ==> all[i].page != page
      modifies this`all, this`queue, this`nrRunning, this`totalForks, gTask, alloc.memMap, current`counter
      modifies Last(all)`nextTask, initTask`prevTask, rqHead`next, NodeAt(rqHead, Nodes(rqHead, all, queue), 0)`prev
      ensures Valid()
      ensures pid >= 0 <==> |old(all)| < NR_TASKS && GoodStack(flags, stack)
      ensures pid < 0 ==> pid == -1 && View() == GaveBack(old(View()), page) && all == old(all)
      ensures pid < 0 ==> alloc.memMap[..] == Unmarked(old(alloc.memMap[..]), page) && gTask[..] == old(gTask[..])
      ensures pid >= 0 ==> pid == |old(all)| && Joins(old(View()), current.pid, View())
      ensures pid >= 0 ==>
                child != null && fresh(child) && fresh(child.runList) && child.pid == pid && all == old(all) + [child]
      ensures pid >= 0 ==> child.context == ChildContext(flags, stack, arg, page, retFromFork)
      ensures pid >= 0 ==> child.page == page && child.regs == ChildRegs(flags, stack, current.regs)
    {
      hide Valid, View, NewRecord, GoodStack, ChildContext, ChildRegs, Added, Woken, Nodes, RunLists;
      ViewFields(current);
      child := null;
      var p;
      p, pid := NewTask(page);
      if pid < 0 {
        GiveBack(page);
        return;
      }
      var ok := SetRegisters(flags, p, stack, arg, current);
      if !ok {
        GiveBack(page);
        return -1, null;
      }
      AddTask(p, pid, current);
      WakeUpProcess(p);
      child := p;
    }

    /** do_fork. A failed fork leaves everything as it was; a successful one returns the
        fork's ordinal and is `Forked`. */
    method DoFork(flags: nat, stack: nat, arg: nat, current: Task) returns (pid: int, ghost child: Task?)
      requires Valid() && Has(current)
      modifies this`all, this`queue, this`nrRunning, this`totalForks, gTask, alloc.memMap, current`counter
      modifies Last(all)`nextTask, initTask`prevTask, rqHead`next, NodeAt(rqHead, Nodes(rqHead, all, queue), 0)`prev
      ensures Valid()
      ensures pid >= 0 <==> CanFork(old(View())) && GoodStack(flags, stack)
      ensures pid < 0 ==> pid == -1 && View() == old(View()) && all == old(all)
      ensures pid < 0 ==> alloc.memMap[..] == old(alloc.memMap[..]) && gTask[..] == old(gTask[..])
      ensures pid >= 0 ==> pid == old(totalForks) + 1 && Forks(old(View()), current.pid, View())
      ensures pid >= 0 ==>
                child != null && fresh(child) && fresh(child.runList) && child.pid == pid && all == old(all) + [child]
      ensures pid >= 0 ==> child.context == ChildContext(flags, stack, arg, child.page, retFromFork)
      ensures pid >= 0 ==> child.regs == ChildRegs(flags, stack, current.regs)
      ensures pid >= 0 <==>
                old(alloc.Free()) != {} && |old(all)| < 128 && (flags % 2 == 1 || stack % 16 == 0)
      ensures pid >= 0 ==>
                && child.state == 0 && child.priority == 2 && !child.needResched && child.preemptCount == 0
                && child.counter == (old(current.counter) + 1) / 2 && current.counter == old(current.counter) / 2
                && queue == [pid] + old(queue) && gTask.Length == 128 && gTask[pid] == child
      ensures pid >= 0 ==> KernelRegs(flags, child.regs) && UserRegs(flags, stack, current.regs, child.regs)
                           && StartContext(flags, stack, arg, child.page, retFromFork, child.context)
    {
      hide Valid, View, Took, GoodStack, ChildContext, ChildRegs, CanFork, Joins, Forks, Nodes, KernelRegs, UserRegs,
           StartContext;
      ViewFields(current);
      ghost var m, cur := View(), current.pid;
      GoodStackMeans(flags, stack);
      CanForkMeans(m);
      var page := TakePage();
      ForkOutcome(m, View(), page, cur);
      if page == 0 { return -1, null; }
      ghost var r := View();
      pid, child := ForkOnPage(flags, stack, arg, current, page);
      if pid >= 0 {
        JoinForks(m, r, page, cur, View());
        ForkMeans(m, cur, View());
        ForkedFields(current, child);
        RegsMean(flags, stack, arg, child.page, retFromFork, current.regs);
      }
    }

    /** The records of two tasks as the model sees them, and the child's place in g_task. */
    lemma ForkedFields(current: Task, child: Task)
      requires Valid() && |all| > 1 && child == Last(all) && child.pid == |all| - 1 && current.pid < |all|
      requires all[current.pid] == current
      ensures View().tasks[child.pid] == ViewOf(child) && View().tasks[current.pid] == ViewOf(current)
      ensures View().queue == queue && gTask.Length == 128 && gTask[child.pid] == child
    {
    }

    lemma ViewFields(p: Task)
      requires Valid() && Has(p)
      ensures |View().tasks| == |all| == totalForks + 1 && p.pid < |all| && View().free == alloc.Free()
      ensures View().queue == queue && View().tasks[p.pid] == ViewOf(p)
    {
    }

    // ----- runs -----

    /** All a run may write: the scheduler's own fields, the tables, and its tasks. */
    lemma RunFrame()
      requires Valid()
      ensures |all| > 0 && Last(all) in all && initTask in all
      ensures forall x :: x in Nodes(rqHead, all, queue) ==> x in RunLists(all) || x == rqHead
      ensures var n := NodeAt(rqHead, Nodes(rqHead, all, queue), 0); n in RunLists(all) || n == rqHead
    {
      hide Table, OwnNodes, OwnPages, TaskForward, TaskBackward, TasksDistinct, Queued, Inv;
      assert initTask == all[0];
      forall x | x in Nodes(rqHead, all, queue) ensures x in RunLists(all) || x == rqHead {
        var s := Nodes(rqHead, all, queue);
        var i :| 0 <= i < |s| && s[i] == x;
        if queue[i] < |all| { assert RunLists(all)[queue[i]] == x; }
      }
    }

    /** One event of a run: a tick and the check after it, a fork of a kernel thread, or a
        call of the scheduler. */
    method Perform(e: Event, cur: Task, fn: nat, arg: nat) returns (next: Task)
      requires Valid() && Has(cur) && CanStep(View(), cur.pid, e)
      modifies this, gTask, alloc.memMap, all, RunLists(all), rqHead
      ensures Valid() && Has(next) && Steps(old(View()), old(cur.pid), e, View(), next.pid)
      ensures old(all) <= all && forall i :: |old(all)| <= i < |all| ==> fresh(all[i]) && fresh(all[i].runList)
    {
      hide Valid, View, CanStep, CanSchedule, Chooses, Forks, CanFork, GoodStack, Tick, After, Steps, NodeAt,
           Nodes, RunLists, Last;
      RunFrame();
      ghost var m, p := View(), cur.pid;
      next := cur;
      match e {
        case TickEvent =>
          TickDecides(m, p);
          TickHandlePeriodic(cur);
          StateInView(cur);
          if cur.needResched {
            next := Schedule(cur);
            TickSteps(m, p, View(), next.pid);
          } else {
            QuietSteps(m, p);
          }
        case ForkEvent =>
          KernelStack(fn);
          var pid, child := DoFork(PF_KTHREAD, fn, arg, cur);
          ForkSteps(m, p, View(), pid >= 0);
        case ScheduleEvent =>
          CallDecides(m, p);
          StateInView(cur);
          next := Schedule(cur);
          CallSteps(m, p, View(), next.pid);
      }
    }

    /** Any run of events on the heap is that run of the model; tasks are only ever added. */
    method RunEvents(es: seq<Event>, cur: Task, fn: nat, arg: nat) returns (last: Task)
      requires Valid() && Has(cur) && CanRunAll(View(), cur.pid, es)
      modifies this, gTask, alloc.memMap, all, RunLists(all), rqHead
      ensures Valid() && Has(last) && RunsTo(old(View()), old(cur.pid), es, View(), last.pid)
      ensures old(all) <= all
      decreases |es|
    {
      hide Valid, View, CanStep, CanRunAll, Steps, RunsTo, Has;
      ghost var m, p := View(), cur.pid;
      if es == [] {
        RunsNowhere(m, p);
        return cur;
      }
      FirstStep(m, p, es);
      var next := Perform(es[0], cur, fn, arg);
      ghost var m1, p1 := View(), next.pid;
      NextSteps(m, p, es, m1, p1);
      last := RunEvents(es[1..], next, fn, arg);
      RunsStep(m, p, es, m1, p1, View(), last.pid);
    }

    // ----- runs on lists that an insertion left half done -----

    /** __schedule of a task that stays runnable, on whatever the forward links show. */
    method ScheduleOnLists(prev: Task) returns (next: Task)
      requires Walkable() && Has(prev) && CanSchedule(Seen(), prev.pid) && Seen().tasks[prev.pid].state == 0
      modifies all`counter, prev`needResched
      ensures Walkable() && Has(next) && Chooses(old(Seen()), prev.pid, Seen(), next.pid)
    {
      hide Walkable, Seen, Inv, BeforePick, Picked, Dequeue, Cleared, Leave, CanSchedule, Scheduled, Next, Nodes, Has;
      SeenModel();
      ScheduleSteps(Seen(), prev.pid);
      next := PickNextTask();
      ClearTaskResched(prev);
    }

    /** A tick and the check after it, or a call of the scheduler. */
    method PerformOnLists(e: Event, cur: Task) returns (next: Task)
      requires Walkable() && Has(cur) && CanStep(Seen(), cur.pid, e) && e != ForkEvent
      modifies all`counter, all`needResched
      ensures Walkable() && Has(next) && Steps(old(Seen()), cur.pid, e, Seen(), next.pid)
    {
      hide Walkable, Seen, CanStep, CanSchedule, Chooses, Tick, After, Steps, Nodes, RunLists;
      SeenModel();
      ghost var m, p := Seen(), cur.pid;
      next := cur;
      if e == TickEvent {
        TickDecides(m, p);
        TaskTick(cur);
        RequestInView(cur);
        if cur.needResched {
          next := ScheduleOnLists(cur);
          TickSteps(m, p, Seen(), next.pid);
        } else {
          QuietSteps(m, p);
        }
      } else {
        CallDecides(m, p);
        next := ScheduleOnLists(cur);
        CallSteps(m, p, Seen(), next.pid);
      }
    }

    lemma RequestInView(p: Task)
      requires Walkable() && Has(p)
      ensures |all| > 0 && p.pid < |Seen().tasks| && Seen().tasks[p.pid].needResched == p.needResched
    {
      hide Inv, Records, TaskForward, Forward, TasksDistinct;
    }

    /** However long the lists stay as they are, a run without forks is that run of the model
        they show. */
    method RunOnLists(es: seq<Event>, cur: Task) returns (last: Task)
      requires Walkable() && Has(cur) && CanRunAll(Seen(), cur.pid, es) && ForkEvent !in es
      modifies all`counter, all`needResched
      ensures Walkable() && Has(last) && RunsTo(old(Seen()), cur.pid, es, Seen(), last.pid)
      decreases |es|
    {
      hide Walkable, Seen, CanStep, CanRunAll, Steps, RunsTo, Has;
      SeenModel();
      ghost var m, p := Seen(), cur.pid;
      if es == [] {
        RunsNowhere(m, p);
        return cur;
      }
      FirstStep(m, p, es);
      var next := PerformOnLists(es[0], cur);
      SeenModel();
      ghost var m1, p1 := Seen(), next.pid;
      NextSteps(m, p, es, m1, p1);
      last := RunOnLists(es[1..], next);
      SeenModel();
      RunsStep(m, p, es, m1, p1, Seen(), last.pid);
    }

    /** A task preempted after any prefix of the stores of enqueue_task, and never resumed:
        whatever runs from then on runs on the old queue or on the new one. */
    method RunDuringEnqueue(q: Task, writes: nat, es: seq<Event>, cur: Task) returns (last: Task)
      requires Valid() && Has(q) && 0 < q.pid && q.pid !in queue && Has(cur) && ForkEvent !in es
      requires CanRunAll(if writes < 4 then View() else Enqueue(View(), q.pid), cur.pid, es)
      modifies this`queue, q.runList`next, q.runList`prev, rqHead`next, all`counter, all`needResched
      modifies NodeAt(rqHead, Nodes(rqHead, all, queue), 0)`prev
      ensures Walkable() && Has(last)
      ensures RunsTo(if writes < 4 then old(View()) else Enqueue(old(View()), q.pid), cur.pid, es, Seen(), last.pid)
    {
      hide Structure, Queued, Valid, Inv, Views, FreeIn, Records, TaskForward, TasksDistinct, Has, CanRunAll, RunsTo;
      EnqueuePrefix(q, writes);
      last := RunOnLists(es, cur);
    }

    /** The same for the stores of SET_LINKS; g_task and total_forks may be ahead. */
    method RunDuringLink(q: Task, writes: nat, es: seq<Event>, cur: Task) returns (last: Task)
      requires Walkable() && Ordered() && InRange(all, queue)
      requires |all| < NR_TASKS && q.pid == |all| && NewRecord(q) && TaskOk(q.pid, ViewOf(q))
      requires Has(cur) && ForkEvent !in es
      requires CanRunAll(if writes < 3 then Seen() else WithTask(Seen(), ViewOf(q)), cur.pid, es)
      modifies this`all, all`counter, all`needResched, q`counter, q`needResched
      modifies q`nextTask, q`prevTask, Last(all)`nextTask, initTask`prevTask
      ensures Walkable() && Has(last)
      ensures RunsTo(if writes < 3 then old(Seen()) else WithTask(old(Seen()), old(ViewOf(q))), cur.pid, es,
                     Seen(), last.pid)
    {
      hide Walkable, Ordered, InRange, Inv, Views, FreeIn, NewRecord, CanRunAll, RunsTo;
      SeenModel();
      LinkPrefix(q, writes);
      SeenModel();
      last := RunOnLists(es, cur);
      SeenModel();
    }

    // ----- a fork interrupted between its stores -----

    /** Stores of SET_LINKS, and of list_add, among the first k from total_forks++ on. */
    static function LinksDone(k: nat): nat { if k <= 2 then 0 else if k <= 6 then k - 2 else 4 }

    static function AddsDone(k: nat): nat { if k <= 7 then 0 else if k <= 11 then k - 7 else 4 }

    /** The scheduler after k of those stores for p, on the tasks a and the queue q. */
    ghost predicate Publishing(p: Task, a: seq<Task>, q: seq<nat>, k: nat)
      reads this`all, this`queue, this`totalForks, this`nrRunning, gTask, alloc.memMap
      reads p`pid, p`state, p`nextTask, p`prevTask, a`pid, a`nextTask, a`prevTask, p.runList`entry, RunLists(a)`entry
      reads p.runList`next, p.runList`prev, rqHead`next, rqHead`prev
      reads Nodes(rqHead, a, q)`next, Nodes(rqHead, a, q)`prev
    {
      && all == (if k < 5 then a else a + [p]) && queue == (if k < 11 then q else [|a|] + q)
      && Linking(p, initTask, a, LinksDone(k)) && Adding(p.runList, rqHead, Nodes(rqHead, a, q), AddsDone(k))
      && Filling(p, a, k >= 2) && InRange(a, q) && p.state == 0
      && totalForks == (if k < 1 then |a| - 1 else |a|) && nrRunning == (if k < 12 then |q| else |q| + 1)
    }

    /** g_task, the pids, nodes and pages. */
    ghost predicate Filling(p: Task, a: seq<Task>, listed: bool)
      reads gTask, alloc.memMap, p`pid, a`pid, p.runList`entry, RunLists(a)`entry
    {
      && alloc.Valid() && 1 <= |a| < NR_TASKS && Numbered(a) && p.pid == |a| && gTask.Length == NR_TASKS
      && (forall i :: 0 <= i < |a| ==> gTask[i] == a[i])
      && (forall i :: |a| <= i < NR_TASKS ==> gTask[i] == if i == |a| && listed then p else null)
      && OwnNodes(rqHead, a) && p.runList !in RunLists(a) && p.runList != rqHead && p.runList.entry == p
      && OwnPages(a + [p], alloc.Free())
    }

    lemma ListsAllocated(a: seq<Task>, q: seq<nat>)
      ensures forall x :: x in RunLists(a) ==> allocated(x)
      ensures forall x :: x in Nodes(rqHead, a, q) ==> allocated(x)
    {
    }

    /** One of the first two stores. */
    method CountFork(p: Task, ghost a: seq<Task>, ghost q: seq<nat>, k: nat)
      requires Publishing(p, a, q, k) && k < 2 && |all| > 0
      modifies this`totalForks, gTask
      ensures Publishing(p, a, q, k + 1)
      ensures |all| > 0 && Seen() == old(Seen()) && ViewOf(p) == old(ViewOf(p))
    {
      hide Linking, Adding, OwnPages, FreeIn, OwnNodes, Views;
      if k == 0 { totalForks := totalForks + 1; } else { gTask[p.pid] := p; }
    }

    /** One of the four stores of SET_LINKS. */
    method LinkOne(p: Task, ghost a: seq<Task>, ghost q: seq<nat>, k: nat)
      requires Publishing(p, a, q, k) && 2 <= k < 6 && |all| > 0 && |a| > 0
      modifies this`all, p`nextTask, p`prevTask, Last(a)`nextTask, initTask`prevTask
      ensures Publishing(p, a, q, k + 1) && |all| > 0 && ViewOf(p) == old(ViewOf(p))
      ensures Seen() == if k == 4 then WithTask(old(Seen()), old(ViewOf(p))) else old(Seen())
    {
      hide Linking, Adding, Filling, InRange, Views, FreeIn;
      ListsAllocated(a, q);
      LastOf(p, a, LinksDone(k));
      SetLinksStore(p, initTask, k - 2, a);
      if k == 4 {
        ghost var v := Views(all);
        all := all + [p];
        assert Views(all) == v + [ViewOf(p)];
      }
    }

    lemma LastOf(p: Task, a: seq<Task>, k: nat)
      requires Linking(p, initTask, a, k)
      ensures |a| > 0
    {
    }

    /** One of the four stores of list_add. */
    method AddOne(p: Task, ghost a: seq<Task>, ghost q: seq<nat>, next: ListHead<Task?>, k: nat)
      requires Publishing(p, a, q, k) && 7 <= k < 11 && next == NodeAt(rqHead, Nodes(rqHead, a, q), 0) && |all| > 0
      modifies this`queue, p.runList`next, p.runList`prev, rqHead`next, next`prev
      ensures Publishing(p, a, q, k + 1) && |all| > 0 && ViewOf(p) == old(ViewOf(p))
      ensures Seen() == if k == 10 then Enqueue(old(Seen()), |a|) else old(Seen())
    {
      hide Linking, Adding, Filling, InRange, Nodes, Views, FreeIn;
      ListsAllocated(a, q);
      ListAddStore(p.runList, rqHead, next, k - 7, Nodes(rqHead, a, q));
      if k == 10 { queue := [|a|] + queue; }
    }

    /** p->state = TASK_RUNNING, or nr_running++. */
    method MarkOne(p: Task, ghost a: seq<Task>, ghost q: seq<nat>, k: nat)
      requires Publishing(p, a, q, k) && (k == 6 || k == 11) && |all| > 0
      modifies p`state, this`nrRunning
      ensures Publishing(p, a, q, k + 1)
      ensures |all| > 0 && Seen() == old(Seen()) && ViewOf(p) == old(ViewOf(p))
    {
      hide Linking, Adding, Filling, InRange, Nodes, Views, FreeIn;
      ListsAllocated(a, q);
      if k == 6 { p.state := 0; } else { nrRunning := nrRunning + 1; }
    }

    /** What the lists show halfway is enough to pick. */
    lemma PublishWalk(p: Task, a: seq<Task>, q: seq<nat>, k: nat)
      requires Publishing(p, a, q, k) && k <= PUBLISHING && Inv(Seen())
      ensures Walkable() && |all| > 0
    {
      hide Inv, Forward, TaskForward, TaskBackward, OwnPages, FreeIn, BackwardBeyond, Backward, Views;
      AppendDistinct(a, p);
      AppendNumbered(a, p);
      SameNodes(rqHead, a, p, q);
      AppendNodes(rqHead, a, p);
      PublishNodes(p, a, q, k);
      assert Links();
      assert Records();
    }

    lemma PublishNodes(p: Task, a: seq<Task>, q: seq<nat>, k: nat)
      requires InRange(a, q) && p !in a
      ensures Nodes(rqHead, if k < 5 then a else a + [p], q) == Nodes(rqHead, a, q)
      ensures Nodes(rqHead, a + [p], [|a|] + q) == [p.runList] + Nodes(rqHead, a, q)
    {
      SameNodes(rqHead, a, p, q);
    }

    lemma PublishParts(p: Task, a: seq<Task>, q: seq<nat>, k: nat)
      requires Publishing(p, a, q, k)
      ensures p.pid == |a| && 1 <= |a| < NR_TASKS && p !in a && InRange(a, q) && |a| !in q
      ensures all == (if k < 5 then a else a + [p]) && queue == (if k < 11 then q else [|a|] + q)
      ensures rqHead.next == NodeAt(rqHead, Nodes(rqHead, a, q), 0) || k >= 11
    {
      hide TaskForward, TaskBackward, BackwardBeyond, Backward, OwnPages, OwnNodes, FreeIn;
    }

    /** One store, and what the lists show after it. */
    method StoreOne(p: Task, ghost a: seq<Task>, ghost q: seq<nat>, next: ListHead<Task?>, k: nat)
      requires Publishing(p, a, q, k) && k < PUBLISHING && next == NodeAt(rqHead, Nodes(rqHead, a, q), 0)
      requires |all| > 0 && |a| > 0
      modifies this`all, this`queue, this`totalForks, this`nrRunning, gTask, p`state
      modifies p`nextTask, p`prevTask, Last(a)`nextTask, initTask`prevTask
      modifies p.runList`next, p.runList`prev, rqHead`next, next`prev
      ensures Publishing(p, a, q, k + 1) && |all| > 0 && ViewOf(p) == old(ViewOf(p))
      ensures Seen() == Stored(old(Seen()), old(ViewOf(p)), p.pid, k)
    {
      PublishParts(p, a, q, k);
      hide Publishing, Views, FreeIn, Nodes, Seen, WithTask, Enqueue;
      if k < 2 { CountFork(p, a, q, k); }
      else if k < 6 { LinkOne(p, a, q, k); }
      else if k == 6 || k == 11 { MarkOne(p, a, q, k); }
      else { AddOne(p, a, q, next, k); }
    }

    /** A run that comes back to the task it interrupted. */
    method RunBack(es: seq<Event>, cur: Task)
      requires Walkable() && Has(cur) && Returns(Seen(), cur.pid, es)
      modifies all`counter, all`needResched
      ensures Walkable() && Has(cur) && Seen() == Ran(old(Seen()), cur.pid, es)
    {
      hide Walkable, Seen, CanRunAll;
      SeenModel();
      var last := RunOnLists(es, cur);
      SeenModel();
    }

    /** The run leaves the stores of the fork as they are. */
    method RunBetween(p: Task, ghost a: seq<Task>, ghost q: seq<nat>, k: nat, es: seq<Event>, cur: Task)
      requires Publishing(p, a, q, k) && Walkable() && Has(cur) && Returns(Seen(), cur.pid, es)
      modifies all`counter, all`needResched
      ensures Publishing(p, a, q, k) && Walkable() && Seen() == Ran(old(Seen()), cur.pid, es)
      ensures k < 5 ==> ViewOf(p) == old(ViewOf(p))
    {
      hide Walkable, Seen, Linking, Adding, Filling, Nodes, InRange, Returns, Ran, Has, RunLists;
      SeenModel();
      PrivateRecord(p, a, q, k);
      ListsAllocated(a, q);
      RunBack(es, cur);
      SeenModel();
      assert Linking(p, initTask, a, LinksDone(k));
      assert Adding(p.runList, rqHead, Nodes(rqHead, a, q), AddsDone(k));
      assert Filling(p, a, k >= 2);
    }

    lemma StillHas(p: Task, a: seq<Task>, q: seq<nat>, k: nat, cur: Task)
      requires Publishing(p, a, q, k) && cur.pid < |a| && a[cur.pid] == cur
      ensures Has(cur) && all == if k < 5 then a else a + [p]
    {
      hide Linking, Adding, Filling;
    }

    lemma PrivateRecord(p: Task, a: seq<Task>, q: seq<nat>, k: nat)
      requires Publishing(p, a, q, k)
      ensures k < 5 ==> p !in all
    {
      hide TaskForward, TaskBackward, Adding, Filling;
    }

    lemma StoredKept(p: Task, a: seq<Task>, q: seq<nat>, k: nat)
      requires Publishing(p, a, q, k) && |all| > 0 && Inv(Seen()) && (k == 4 ==> TaskOk(|a|, ViewOf(p)))
      ensures Inv(Stored(Seen(), ViewOf(p), p.pid, k))
    {
      PublishParts(p, a, q, k);
      hide Publishing, Inv, FreeIn;
      StoredKeeps(Seen(), ViewOf(p), p.pid, k);
    }

    lemma PublishStart(p: Task)
      requires Valid() && NewRecord(p) && p.pid == |all| < NR_TASKS && p.state == 0
      ensures Publishing(p, all, queue, 0) && Seen() == View() && Inv(Seen())
    {
      hide FreeIn, Views, TaskForward, TaskBackward, TasksDistinct, Forward;
      AppendPages(all, p, alloc.Free());
      StartLinks(p);
      StartNodes(p);
    }

    lemma StartLinks(p: Task)
      requires Ordered() && p !in all
      ensures Linking(p, initTask, all, 0)
    {
      hide TaskForward, TaskBackward, TasksDistinct;
    }

    lemma StartNodes(p: Task)
      requires Queued() && OwnNodes(rqHead, all) && InRange(all, queue) && p.runList != rqHead
      requires p.runList !in RunLists(all)
      ensures Adding(p.runList, rqHead, Nodes(rqHead, all, queue), 0)
    {
      hide Forward, Backward;
      var s := Nodes(rqHead, all, queue);
      forall i | 0 <= i < |s| ensures s[i] != p.runList {
        assert s[i] == RunLists(all)[queue[i]];
      }
    }

    lemma PublishDone(p: Task, a: seq<Task>, q: seq<nat>)
      requires Publishing(p, a, q, PUBLISHING) && Inv(Seen())
      ensures Valid() && View() == Seen() && all == a + [p]
    {
      hide FreeIn, Views, TaskForward, TaskBackward, Forward, Backward, BackwardBeyond, OwnPages, Inv;
      AppendDistinct(a, p);
      AppendNodes(rqHead, a, p);
      SameNodes(rqHead, a, p, q);
      PublishNodes(p, a, q, PUBLISHING);
      AddingDone(p.runList, rqHead, Nodes(rqHead, a, q));
      assert Table(gTask, all);
      assert Structure();
      assert Queued();
      SeenIsView();
    }

    lemma SeenIsView()
      requires |all| > 0 && totalForks == |all| - 1
      ensures View() == Seen()
    {
      hide Views, FreeIn;
    }

    /** do_fork from total_forks++ on, interrupted after every store by a run that comes back to
        it: the state is valid at the end, and what the lists showed all along is the model
        with the task added at the fifth store and queued at the eleventh, and the runs between. */
    method PublishResumed(p: Task, cur: Task, runs: seq<seq<Event>>)
      requires Valid() && Has(cur) && NewRecord(p) && p.pid == |all| < NR_TASKS && p.state == 0
      requires TaskOk(p.pid, ViewOf(p)) && |runs| == PUBLISHING
      requires Resumes(View(), ViewOf(p), p.pid, cur.pid, runs, PUBLISHING)
      modifies this`all, this`queue, this`totalForks, this`nrRunning, gTask, p`state
      modifies p`nextTask, p`prevTask, Last(all)`nextTask, initTask`prevTask
      modifies p.runList`next, p.runList`prev, rqHead`next, NodeAt(rqHead, Nodes(rqHead, all, queue), 0)`prev
      modifies all`counter, all`needResched, p`counter, p`needResched
      ensures Valid() && all == old(all) + [p]
      ensures View() == Between(old(View()), old(ViewOf(p)), p.pid, cur.pid, runs, PUBLISHING)
    {
      hide *;
      ghost var a, q, m, v := all, queue, View(), ViewOf(p);
      PublishStart(p);
      FirstIn(cur);
      BetweenNone(m, v, p.pid, cur.pid, runs);
      FirstNode();
      var next := rqHead.next;
      for k := 0 to PUBLISHING
        invariant Publishing(p, a, q, k) && |all| > 0 && Inv(Seen())
        invariant Resumes(m, v, p.pid, cur.pid, runs, k) && Seen() == Between(m, v, p.pid, cur.pid, runs, k)
        invariant k <= 4 ==> ViewOf(p) == v
      {
        ResumesEarlier(m, v, p.pid, cur.pid, runs, k + 1, PUBLISHING);
        ResumesStep(m, v, p.pid, cur.pid, runs, k);
        StoredSame(Seen(), v, ViewOf(p), p.pid, k);
        PublishParts(p, a, q, k);
        StoredKept(p, a, q, k);
        StoreOne(p, a, q, next, k);
        PublishWalk(p, a, q, k + 1);
        StillHas(p, a, q, k + 1, cur);
        RunBetween(p, a, q, k + 1, runs[k], cur);
        SeenModel();
      }
      PublishDone(p, a, q);
    }

    lemma FirstIn(cur: Task)
      requires Valid() && Has(cur)
      ensures |all| > 0 && cur.pid < |all| && all[cur.pid] == cur
    {
    }

    lemma FirstNode()
      requires Valid()
      ensures rqHead.next == NodeAt(rqHead, Nodes(rqHead, all, queue), 0)
    {
      hide Structure, Inv, Nodes;
    }
  }

  /** Any run from boot: what the initializers leave, then the events. */
  method RunFromBoot(pages: PageAllocator, retFromFork: nat, es: seq<Event>, fn: nat, arg: nat)
    returns (s: Scheduler, last: Task)
    requires pages.Valid() && CanRunAll(Booted(pages.Free()).m, 0, es)
    modifies pages.memMap
    ensures s.Valid() && s.Has(last) && RunsTo(Booted(old(pages.Free())).m, 0, es, s.View(), last.pid)
    ensures |s.all| == 1 + |Pids(Booted(old(pages.Free())), es)| <= NR_TASKS
    ensures forall k :: 0 <= k < |s.all| ==> s.all[k].pid == k
  {
    hide CanRunAll, RunsTo, Scheduler.Valid, Scheduler.View, Booted;
    ghost var free := pages.Free();
    s := new Scheduler(pages, retFromFork);
    BootView(s, free);
    last := s.RunEvents(es, s.initTask, fn, arg);
    ForkCount(free, es, s.View(), last.pid);
    TaskNumbers(s);
  }

  lemma BootView(s: Scheduler, free: set<nat>)
    requires s.Valid() && s.View() == Model([Initial], [], free, 0)
    ensures s.View() == Booted(free).m && s.Has(s.initTask) && s.initTask.pid == 0
  {
  }

  lemma ForkCount(free: set<nat>, es: seq<Event>, r: Model, last: nat)
    requires RunsTo(Booted(free).m, 0, es, r, last)
    ensures RunOk(Booted(free)) && Runs(Booted(free), es) && |r.tasks| == 1 + |Pids(Booted(free), es)| <= NR_TASKS
  {
    ForksFromBoot(free, es);
  }

  lemma TaskNumbers(s: Scheduler)
    requires s.Valid()
    ensures |s.all| == |s.View().tasks| && forall k :: 0 <= k < |s.all| ==> s.all[k].pid == k
  {
  }
}
