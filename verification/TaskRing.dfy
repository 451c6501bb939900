/** Task records and the circular list of all tasks: SET_LINKS, for_each_task, and what an
    interrupt sees of an insertion that is only partly done. */
module TaskRing {
  import opened List
  import opened SchedModel

  /** pt_regs, at the top of a task's kernel stack. */
  datatype PtRegs = PtRegs(x0: nat, x1ToX30: seq<nat>, sp: nat, pc: nat, pstate: nat)

  /** The callee-saved registers of a task that is not running. */
  datatype CpuContext = CpuContext(x19: nat, x20: nat, x21: nat, x22: nat, x23: nat, x24: nat, x25: nat,
                                   x26: nat, x27: nat, x28: nat, fp: nat, sp: nat, pc: nat)

  function Zeros(n: nat): seq<nat> { seq(n, i requires 0 <= i < n => 0) }

  const NoRegs: PtRegs := PtRegs(0, Zeros(30), 0, 0, 0)
  const NoContext: CpuContext := CpuContext(0, 0, 0, 0, 0, 0, 0, 0, 0, 0, 0, 0, 0)

  class Task {
    var state: nat
    var pid: nat
    var context: CpuContext
    var counter: int
    var priority: int
    var needResched: bool
    var preemptCount: int
    var nextTask: Task?
    var prevTask: Task?
    var regs: PtRegs
    const runList: ListHead<Task?>
    /** The page that holds the record and, above it, the kernel stack. */
    const page: nat

    /** The record as memset leaves it. */
    constructor (p: nat)
      ensures page == p && fresh(runList) && runList.entry == this
      ensures state == 0 && pid == 0 && counter == 0 && priority == 0 && !needResched && preemptCount == 0
      ensures context == NoContext && regs == NoRegs
    {
      page := p;
      runList := new ListHead<Task?>(null);
      state, pid, counter, priority, needResched, preemptCount := 0, 0, 0, 0, false, 0;
      nextTask, prevTask := null, null;
      context, regs := NoContext, NoRegs;
      new;
      runList.entry := this;
    }
  }

  ghost function ViewOf(t: Task): (v: TaskView)
    reads t`state, t`counter, t`priority, t`needResched, t`preemptCount
    ensures v.state == t.state && v.counter == t.counter && v.priority == t.priority
    ensures v.needResched == t.needResched && v.preempt == t.preemptCount
  {
    TaskView(t.state, t.counter, t.priority, t.needResched, t.preemptCount)
  }

  function NextIn(all: seq<Task>, i: nat): Task
    requires i < |all|
  {
    if i + 1 < |all| then all[i + 1] else all[0]
  }

  function PrevIn(all: seq<Task>, i: nat): Task
    requires i < |all|
  {
    if i == 0 then all[|all| - 1] else all[i - 1]
  }

  ghost predicate TaskForward(all: seq<Task>)
    reads all`nextTask
  {
    forall i {:trigger all[i]} :: 0 <= i < |all| ==> all[i].nextTask == NextIn(all, i)
  }

  ghost predicate TaskBackward(all: seq<Task>)
    reads all`prevTask
  {
    forall i {:trigger all[i]} :: 0 <= i < |all| ==> all[i].prevTask == PrevIn(all, i)
  }

  predicate TasksDistinct(all: seq<Task>) { forall i, j :: 0 <= i < j < |all| ==> all[i] != all[j] }

  function Last(all: seq<Task>): Task
    requires |all| > 0
  {
    all[|all| - 1]
  }

  lemma TasksDiffer(all: seq<Task>)
    requires |all| > 0 && TasksDistinct(all)
    ensures forall i {:trigger all[i]} :: 0 <= i < |all| - 1 ==> all[i] != Last(all)
    ensures forall i {:trigger all[i]} :: 0 < i < |all| ==> all[i] != all[0]
  {
  }

  /** After the first k stores of SET_LINKS(p), on the ring of the tasks a. */
  ghost predicate Linking(p: Task, init: Task, a: seq<Task>, k: nat)
    reads p`nextTask, p`prevTask, a`nextTask, a`prevTask
  {
    && |a| > 0 && a[0] == init && TasksDistinct(a) && p !in a
    && TaskForward(if k < 3 then a else a + [p]) && TaskBackward(if k < 4 then a else a + [p])
    && (k >= 1 ==> p.nextTask == init) && (k >= 2 ==> p.prevTask == Last(a))
  }

  /** The first two stores of SET_LINKS: into the new record. */
  method SetLinksPrivate(p: Task, init: Task, k: nat, ghost a: seq<Task>)
    requires Linking(p, init, a, k) && k < 2
    modifies p`nextTask, p`prevTask
    ensures Linking(p, init, a, k + 1)
  {
    hide TasksDistinct, TaskForward;
    assert a[0].prevTask == Last(a);
    if k == 0 { p.nextTask := init; } else { p.prevTask := init.prevTask; }
  }

  /** The third store: from here on the forward links lead through p. */
  method SetLinksPublish(p: Task, init: Task, ghost a: seq<Task>)
    requires Linking(p, init, a, 2)
    modifies Last(a)`nextTask
    ensures Linking(p, init, a, 3)
  {
    TasksDiffer(a);
    assert a[0].prevTask == Last(a);
    hide TasksDistinct, TaskBackward;
    init.prevTask.nextTask := p;
    ghost var r := a + [p];
    forall i | 0 <= i < |r| ensures r[i].nextTask == NextIn(r, i) {
      if i < |a| - 1 { assert r[i] == a[i] && old(a[i].nextTask) == NextIn(a, i); }
    }
  }

  /** The last store completes the backward links. */
  method SetLinksLast(p: Task, init: Task, ghost a: seq<Task>)
    requires Linking(p, init, a, 3)
    modifies init`prevTask
    ensures Linking(p, init, a, 4)
  {
    hide TasksDistinct, TaskForward;
    TasksDiffer(a);
    init.prevTask := p;
    ghost var r := a + [p];
    forall i | 0 <= i < |r| ensures r[i].prevTask == PrevIn(r, i) {
      if 0 < i < |a| { assert r[i] == a[i] && old(a[i].prevTask) == PrevIn(a, i); }
    }
  }

  /** One store of SET_LINKS. */
  method SetLinksStore(p: Task, init: Task, k: nat, ghost a: seq<Task>)
    requires Linking(p, init, a, k) && k < 4
    modifies p`nextTask, p`prevTask, Last(a)`nextTask, init`prevTask
    ensures Linking(p, init, a, k + 1)
  {
    hide Linking;
    if k < 2 { SetLinksPrivate(p, init, k, a); }
    else if k == 2 { SetLinksPublish(p, init, a); }
    else { SetLinksLast(p, init, a); }
  }

  /** SET_LINKS, cut off after its first `writes` stores. */
  method SetLinksWrites(p: Task, init: Task, writes: nat, ghost all: seq<Task>)
    requires |all| > 0 && all[0] == init && p !in all && TasksDistinct(all)
    requires TaskForward(all) && TaskBackward(all)
    modifies p`nextTask, p`prevTask, Last(all)`nextTask, init`prevTask
    ensures TaskForward(if writes < 3 then all else all + [p])
    ensures writes >= 4 ==> TaskBackward(all + [p])
  {
    hide TasksDistinct, TaskForward, TaskBackward;
    if writes >= 1 { SetLinksStore(p, init, 0, all); }
    if writes >= 2 { SetLinksStore(p, init, 1, all); }
    if writes >= 3 { SetLinksStore(p, init, 2, all); }
    if writes >= 4 { SetLinksStore(p, init, 3, all); }
  }

  /** for_each_task: the tasks it visits. Only the forward links are followed; init is skipped. */
  method ForEachTask(init: Task, ghost all: seq<Task>) returns (seen: seq<Task>)
    requires |all| > 0 && all[0] == init && TasksDistinct(all) && TaskForward(all)
    ensures seen == all[1..]
  {
    seen := [];
    assert init.nextTask == NextIn(all, 0);
    var p := init.nextTask;
    while p != init
      invariant |seen| < |all| && seen == all[1..|seen| + 1]
      invariant p == NextIn(all, |seen|)
      decreases |all| - |seen|
    {
      seen := seen + [p];
      p := p.nextTask;
    }
  }

  /** An interrupt after any prefix of SET_LINKS sees exactly the old tasks or exactly the new. */
  method SetLinksInterrupted(p: Task, init: Task, writes: nat, ghost all: seq<Task>) returns (seen: seq<Task>)
    requires |all| > 0 && all[0] == init && p !in all && TasksDistinct(all)
    requires TaskForward(all) && TaskBackward(all)
    modifies p`nextTask, p`prevTask, Last(all)`nextTask, init`prevTask
    ensures seen == if writes < 3 then all[1..] else all[1..] + [p]
  {
    SetLinksWrites(p, init, writes, all);
    seen := ForEachTask(init, if writes < 3 then all else all + [p]);
  }
}
