/** The scheduler's state as values, one function per operation, and what holds over
    every run of them. Sched.dfy refines these functions on the heap. */
module SchedModel {
  const NR_TASKS: nat := 128
  const DEF_COUNTER: int := 25      // HZ / 10, HZ = 250

  /** A task record, as far as scheduling reads it. Task 0 is init; pid i is at index i. */
  datatype TaskView = TaskView(state: nat, counter: int, priority: int, needResched: bool, preempt: int)

  /** Tasks in fork order, the run queue as pids, the free pages and the fork count. */
  datatype Model = Model(tasks: seq<TaskView>, queue: seq<nat>, free: set<nat>, forks: nat)

  const Initial: TaskView := TaskView(0, DEF_COUNTER, 20, false, 0)

  // ----- what every operation keeps -----

  predicate TaskOk(i: nat, t: TaskView) {
    if i == 0 then t.priority == 20 && 0 <= t.counter <= DEF_COUNTER
    else t.priority == 2 && 0 <= t.counter <= DEF_COUNTER + 2
  }

  predicate Distinct(q: seq<nat>) { forall i, j :: 0 <= i < j < |q| ==> q[i] != q[j] }

  /** init is never queued; counters stay within a full slice; pids are 0 to forks. */
  predicate Inv(m: Model) {
    && 1 <= |m.tasks| <= NR_TASKS && m.forks == |m.tasks| - 1
    && (forall i :: 0 <= i < |m.queue| ==> 1 <= m.queue[i] < |m.tasks|)
    && Distinct(m.queue)
    && (forall i :: 0 <= i < |m.tasks| ==> TaskOk(i, m.tasks[i]))
  }

  // ----- operations -----

  function Enqueue(m: Model, p: nat): Model { m.(queue := [p] + m.queue) }

  function Without(q: seq<nat>, p: nat): seq<nat> {
    if q == [] then [] else if q[0] == p then q[1..] else [q[0]] + Without(q[1..], p)
  }

  function Dequeue(m: Model, p: nat): Model { m.(queue := Without(m.queue, p)) }

  /** task_tick_nop */
  function Ticked(t: TaskView): TaskView {
    if t.counter - 1 <= 0 then t.(counter := 0, needResched := true) else t.(counter := t.counter - 1)
  }

  function Tick(m: Model, cur: nat): Model
    requires cur < |m.tasks|
  {
    m.(tasks := m.tasks[cur := Ticked(m.tasks[cur])])
  }

  /** reset_score: every forked task, queued or not; never init. */
  function Reset(m: Model): Model {
    m.(tasks := seq(|m.tasks|, i requires 0 <= i < |m.tasks| =>
      if i == 0 then m.tasks[0] else m.tasks[i].(counter := DEF_COUNTER + m.tasks[i].priority)))
  }

  function Weights(m: Model): seq<int>
    requires forall i :: 0 <= i < |m.queue| ==> m.queue[i] < |m.tasks|
  {
    seq(|m.queue|, i requires 0 <= i < |m.queue| => m.tasks[m.queue[i]].counter)
  }

  /** The first position that holds the maximum. */
  function FirstMax(w: seq<int>): (i: nat)
    requires |w| > 0
    ensures i < |w|
    ensures forall j :: 0 <= j < |w| ==> w[j] <= w[i] && (j < i ==> w[j] < w[i])
  {
    if |w| == 1 then 0
    else
      var k := FirstMax(w[..|w| - 1]);
      if w[|w| - 1] > w[k] then |w| - 1 else k
  }

  /** pick_next_task_nop: a reset first when the best counter is 0. */
  function NeedsReset(m: Model): bool
    requires Inv(m) && m.queue != []
  {
    Weights(m)[FirstMax(Weights(m))] == 0
  }

  function BeforePick(m: Model): Model
    requires Inv(m) && m.queue != []
  {
    if NeedsReset(m) then Reset(m) else m
  }

  function Picked(m: Model): nat
    requires Inv(m) && m.queue != []
  {
    m.queue[FirstMax(Weights(BeforePick(m)))]
  }

  /** __schedule: leave the queue if no longer runnable, pick, clear the request. */
  function Leave(m: Model, prev: nat): Model
    requires prev < |m.tasks|
  {
    if m.tasks[prev].state != 0 then Dequeue(m, prev) else m
  }

  predicate CanSchedule(m: Model, prev: nat) {
    Inv(m) && prev < |m.tasks| && Leave(m, prev).queue != []
  }

  function Cleared(m: Model, prev: nat): Model
    requires prev < |m.tasks|
  {
    m.(tasks := m.tasks[prev := m.tasks[prev].(needResched := false)])
  }

  function Scheduled(m: Model, prev: nat): Model
    requires CanSchedule(m, prev)
  {
    LeaveKeeps(m, prev);
    Cleared(BeforePick(Leave(m, prev)), prev)
  }

  function Next(m: Model, prev: nat): nat
    requires CanSchedule(m, prev)
  {
    LeaveKeeps(m, prev);
    Picked(Leave(m, prev))
  }

  /** do_fork: the lowest free page, the next pid, and half of the parent's slice. */
  predicate CanFork(m: Model) { m.free != {} && |m.tasks| < NR_TASKS }

  function Lowest(s: set<nat>): (x: nat)
    requires s != {}
    ensures x in s && forall y :: y in s ==> x <= y
  {
    LowestExists(s);
    var x :| x in s && forall y :: y in s ==> x <= y;
    x
  }

  lemma LowestExists(s: set<nat>)
    requires s != {}
    ensures exists x :: x in s && forall y :: y in s ==> x <= y
  {
    var x := LeastOf(s);
  }

  lemma {:induction false} LeastOf(s: set<nat>) returns (x: nat)
    requires s != {}
    ensures x in s && forall y :: y in s ==> x <= y
  {
    x :| x in s;
    if s != {x} {
      var z := LeastOf(s - {x});
      assert forall y :: y in s ==> y == x || y in s - {x};
      x := if x < z then x else z;
    }
  }

  function ChildOf(parent: TaskView): TaskView { TaskView(0, (parent.counter + 1) / 2, 2, false, 0) }

  function Forked(m: Model, cur: nat): Model
    requires CanFork(m) && cur < |m.tasks|
  {
    Model(m.tasks[cur := m.tasks[cur].(counter := m.tasks[cur].counter / 2)] + [ChildOf(m.tasks[cur])],
          [|m.tasks|] + m.queue, m.free - {Lowest(m.free)}, m.forks + 1)
  }

  function Fork(m: Model, cur: nat): Model
    requires cur < |m.tasks|
  {
    if CanFork(m) then Forked(m, cur) else m
  }

  // ----- the invariant -----

  lemma {:induction false} WithoutMembers(q: seq<nat>, p: nat)
    requires Distinct(q)
    ensures forall x :: x in Without(q, p) <==> x in q && x != p
  {
    if q != [] {
      var r := q[1..];
      assert q == [q[0]] + r;
      assert q[0] !in r;
      WithoutMembers(r, p);
    }
  }

  lemma {:induction false} WithoutKeeps(q: seq<nat>, p: nat)
    requires Distinct(q)
    ensures Distinct(Without(q, p))
    ensures forall x :: x in Without(q, p) <==> x in q && x != p
  {
    WithoutMembers(q, p);
    if q != [] && q[0] != p {
      var r := q[1..];
      WithoutKeeps(r, p);
      assert q[0] !in r && q[0] !in Without(r, p);
    }
  }

  lemma DequeueKeeps(m: Model, p: nat)
    requires Inv(m)
    ensures Inv(Dequeue(m, p))
  {
    WithoutKeeps(m.queue, p);
    var q := Without(m.queue, p);
    forall i | 0 <= i < |q| ensures 1 <= q[i] < |m.tasks| {
      assert q[i] in q;
    }
  }

  lemma LeaveKeeps(m: Model, prev: nat)
    requires Inv(m) && prev < |m.tasks|
    ensures Inv(Leave(m, prev))
  {
    DequeueKeeps(m, prev);
  }

  lemma TickKeeps(m: Model, cur: nat)
    requires Inv(m) && cur < |m.tasks|
    ensures Inv(Tick(m, cur))
  {
  }

  lemma ResetKeeps(m: Model)
    requires Inv(m)
    ensures Inv(Reset(m))
  {
  }

  lemma ClearedKeeps(m: Model, p: nat)
    requires Inv(m) && p < |m.tasks|
    ensures Inv(Cleared(m, p))
  {
  }

  lemma BeforePickKeeps(m: Model)
    requires Inv(m) && m.queue != []
    ensures Inv(BeforePick(m)) && BeforePick(m).forks == m.forks && BeforePick(m).queue == m.queue
    ensures |BeforePick(m).tasks| == |m.tasks|
  {
    hide Inv, Weights, FirstMax;
    ResetKeeps(m);
  }

  lemma PickedInQueue(m: Model)
    requires Inv(m) && m.queue != []
    ensures Picked(m) in m.queue
  {
    hide Inv, BeforePick, FirstMax;
    BeforePickKeeps(m);
  }

  lemma ScheduledKeeps(m: Model, prev: nat)
    requires CanSchedule(m, prev)
    ensures Inv(Scheduled(m, prev))
    ensures Next(m, prev) in Scheduled(m, prev).queue
  {
    hide Inv, BeforePick, Picked, Without;
    LeaveKeeps(m, prev);
    BeforePickKeeps(Leave(m, prev));
    PickedInQueue(Leave(m, prev));
    ClearedKeeps(BeforePick(Leave(m, prev)), prev);
  }

  lemma ForkKeeps(m: Model, cur: nat)
    requires Inv(m) && cur < |m.tasks|
    ensures Inv(Fork(m, cur))
  {
    if CanFork(m) {
      assert forall i :: 0 < i < |Forked(m, cur).queue| ==> Forked(m, cur).queue[i] == m.queue[i - 1];
    }
  }

  // ----- the picker -----

  /** One reset is always enough, and the task picked has the greatest counter, which is
      then positive; among equals it is the first in the queue. */
  lemma PickIsBest(m: Model)
    requires Inv(m) && m.queue != []
    ensures Inv(BeforePick(m)) && !NeedsReset(BeforePick(m))
    ensures Picked(m) in m.queue && BeforePick(m).tasks[Picked(m)].counter > 0
    ensures forall p :: p in m.queue ==>
              p < |m.tasks| && BeforePick(m).tasks[p].counter <= BeforePick(m).tasks[Picked(m)].counter
    ensures forall j :: 0 <= j < FirstMax(Weights(BeforePick(m))) ==>
              Weights(BeforePick(m))[j] < BeforePick(m).tasks[Picked(m)].counter
  {
    ResetKeeps(m);
    var b := BeforePick(m);
    var w := Weights(b);
    var i := FirstMax(w);
    hide NeedsReset, BeforePick;
    PositivePick(m);
    forall p | p in m.queue ensures p < |m.tasks| && b.tasks[p].counter <= b.tasks[Picked(m)].counter {
      var j :| 0 <= j < |m.queue| && m.queue[j] == p;
      assert w[j] <= w[i];
    }
  }

  /** n is the first in queue order of the queued tasks with the most slice left, which is some. */
  predicate FirstBest(m: Model, n: nat) {
    && n < |m.tasks| && m.tasks[n].counter > 0
    && exists k :: 0 <= k < |m.queue| && m.queue[k] == n && BestAt(m, n, k)
  }

  predicate BestAt(m: Model, n: nat, k: nat)
    requires n < |m.tasks|
  {
    forall j :: 0 <= j < |m.queue| ==>
      && m.queue[j] < |m.tasks| && m.tasks[m.queue[j]].counter <= m.tasks[n].counter
      && (j < k ==> m.tasks[m.queue[j]].counter < m.tasks[n].counter)
  }

  /** Does a task of the queue have slice left? */
  predicate SliceLeft(tasks: seq<TaskView>, queue: seq<nat>) {
    exists j :: 0 <= j < |queue| && queue[j] < |tasks| && tasks[queue[j]].counter > 0
  }

  /** The counters after a pick: as they were while a queued task has slice left, and else a new
      slice of 25 plus the priority for every task but init. */
  predicate SlicesAfter(before: seq<TaskView>, queue: seq<nat>, after: seq<TaskView>) {
    && |after| == |before|
    && forall i :: 0 <= i < |before| ==>
         after[i].counter
         == if SliceLeft(before, queue) || i == 0 then before[i].counter else 25 + before[i].priority
  }

  /** The queue without p, the rest in order. */
  predicate Departed(q: seq<nat>, p: nat, r: seq<nat>) {
    if p in q then exists k :: 0 <= k < |q| && q[k] == p && r == q[..k] + q[k + 1..] else r == q
  }

  /** __schedule, field by field: prev leaves the queue if it asked to sleep; its request is
      cleared and no other; counters change only by a reset; and the next task is the best. */
  lemma ScheduledMeans(m: Model, prev: nat)
    requires CanSchedule(m, prev)
    ensures var r := Scheduled(m, prev);
            && prev < |m.tasks| == |r.tasks| && r.free == m.free && r.forks == m.forks
            && (if m.tasks[prev].state == 0 then r.queue == m.queue else Departed(m.queue, prev, r.queue))
            && SlicesAfter(m.tasks, r.queue, r.tasks) && FirstBest(r, Next(m, prev))
            && forall i :: 0 <= i < |m.tasks| ==>
                 && r.tasks[i].needResched == (if i == prev then false else m.tasks[i].needResched)
                 && r.tasks[i].state == m.tasks[i].state && r.tasks[i].priority == m.tasks[i].priority
                 && r.tasks[i].preempt == m.tasks[i].preempt
  {
    hide Inv, BeforePick, Picked, Leave, SlicesAfter, FirstBest, Departed;
    var l := Leave(m, prev);
    LeaveKeeps(m, prev);
    LeaveMeans(m, prev);
    PickMeans(l);
    BestCleared(BeforePick(l), prev, Picked(l));
    SlicesCleared(m.tasks, l.queue, BeforePick(l), prev);
  }

  lemma SlicesCleared(before: seq<TaskView>, queue: seq<nat>, m: Model, prev: nat)
    requires prev < |m.tasks| && SlicesAfter(before, queue, m.tasks)
    ensures SlicesAfter(before, queue, Cleared(m, prev).tasks)
  {
    hide SliceLeft;
  }

  lemma BestCleared(m: Model, prev: nat, n: nat)
    requires prev < |m.tasks| && FirstBest(m, n)
    ensures FirstBest(Cleared(m, prev), n)
  {
    var k :| 0 <= k < |m.queue| && m.queue[k] == n && BestAt(m, n, k);
    assert BestAt(Cleared(m, prev), n, k);
  }

  lemma LeaveMeans(m: Model, prev: nat)
    requires Inv(m) && prev < |m.tasks|
    ensures Leave(m, prev) == m.(queue := Leave(m, prev).queue)
    ensures if m.tasks[prev].state == 0 then Leave(m, prev).queue == m.queue
            else Departed(m.queue, prev, Leave(m, prev).queue)
  {
    WithoutMeans(m.queue, prev);
  }

  lemma {:induction false} WithoutMeans(q: seq<nat>, p: nat)
    ensures Departed(q, p, Without(q, p))
  {
    hide Departed;
    if q == [] {
      NobodyDeparts(p);
    } else {
      var r := q[1..];
      assert q == [q[0]] + r;
      if q[0] == p {
        FirstDeparts(r, p);
      } else {
        WithoutMeans(r, p);
        LaterDeparts(q[0], r, p, Without(r, p));
      }
    }
  }

  lemma NobodyDeparts(p: nat)
    ensures Departed([], p, [])
  {
  }

  lemma FirstDeparts(r: seq<nat>, p: nat)
    ensures Departed([p] + r, p, r)
  {
    var q := [p] + r;
    assert q[0] == p && q[..0] + q[0 + 1..] == r;
  }

  lemma LaterDeparts(c: nat, r: seq<nat>, p: nat, w: seq<nat>)
    requires c != p && Departed(r, p, w)
    ensures Departed([c] + r, p, [c] + w)
  {
    var q := [c] + r;
    if p in r {
      var k :| 0 <= k < |r| && r[k] == p && w == r[..k] + r[k + 1..];
      assert q[k + 1] == p && q[..k + 1] == [c] + r[..k] && q[k + 1 + 1..] == r[k + 1..];
      assert [c] + w == q[..k + 1] + q[k + 1 + 1..];
    }
  }

  /** The pick, and the reset it may need, on a queue that is not empty. */
  lemma PickMeans(m: Model)
    requires Inv(m) && m.queue != []
    ensures var r := BeforePick(m);
            && r.queue == m.queue && r.free == m.free && r.forks == m.forks && |r.tasks| == |m.tasks|
            && SlicesAfter(m.tasks, m.queue, r.tasks) && FirstBest(r, Picked(m))
            && forall i :: 0 <= i < |m.tasks| ==> r.tasks[i] == m.tasks[i].(counter := r.tasks[i].counter)
  {
    PickIsBest(m);
    BeforePickKeeps(m);
    SpentMeans(m);
    PickFirst(m);
    hide NeedsReset, FirstMax, Inv, Picked, FirstBest, SliceLeft;
  }

  lemma PickFirst(m: Model)
    requires Inv(m) && m.queue != []
    ensures FirstBest(BeforePick(m), Picked(m))
  {
    PickIsBest(m);
    BeforePickKeeps(m);
    var r, n, k := BeforePick(m), Picked(m), FirstMax(Weights(BeforePick(m)));
    hide NeedsReset, FirstMax, BeforePick;
    forall j | 0 <= j < |m.queue|
      ensures m.queue[j] < |m.tasks| && r.tasks[m.queue[j]].counter <= r.tasks[n].counter
              && (j < k ==> r.tasks[m.queue[j]].counter < r.tasks[n].counter)
    {
      assert m.queue[j] in m.queue && Weights(r)[j] == r.tasks[m.queue[j]].counter;
    }
    assert r.queue[k] == n && BestAt(r, n, k);
  }

  lemma SpentMeans(m: Model)
    requires Inv(m) && m.queue != []
    ensures NeedsReset(m) <==> !SliceLeft(m.tasks, m.queue)
  {
    var w, k := Weights(m), FirstMax(Weights(m));
    assert TaskOk(m.queue[k], m.tasks[m.queue[k]]);
    if j :| 0 <= j < |m.queue| && m.tasks[m.queue[j]].counter > 0 {
      assert w[j] <= w[k];
    } else {
      assert w[k] == m.tasks[m.queue[k]].counter;
    }
  }

  lemma PositivePick(m: Model)
    requires Inv(m) && m.queue != []
    ensures BeforePick(m).queue == m.queue && |BeforePick(m).tasks| == |m.tasks|
    ensures Inv(BeforePick(m)) && !NeedsReset(BeforePick(m))
    ensures Weights(BeforePick(m))[FirstMax(Weights(BeforePick(m)))] > 0
  {
    ResetKeeps(m);
  }

  // ----- the slices left in the queue -----

  function Slices(tasks: seq<TaskView>, q: seq<nat>): int
    requires forall i :: 0 <= i < |q| ==> q[i] < |tasks|
  {
    if q == [] then 0 else tasks[q[0]].counter + Slices(tasks, q[1..])
  }

  function QueueSum(m: Model): int
    requires Inv(m)
  {
    Slices(m.tasks, m.queue)
  }

  lemma {:induction false} SlicesSame(t0: seq<TaskView>, t1: seq<TaskView>, q: seq<nat>)
    requires forall i :: 0 <= i < |q| ==> q[i] < |t0| && q[i] < |t1| && t0[q[i]].counter == t1[q[i]].counter
    ensures Slices(t0, q) == Slices(t1, q)
  {
    if q != [] {
      SlicesSame(t0, t1, q[1..]);
    }
  }

  lemma {:induction false} SlicesUpdate(t0: seq<TaskView>, t1: seq<TaskView>, q: seq<nat>, p: nat)
    requires Distinct(q) && p in q
    requires forall i :: 0 <= i < |q| ==>
              q[i] < |t0| && q[i] < |t1| && (q[i] != p ==> t0[q[i]].counter == t1[q[i]].counter)
    ensures Slices(t1, q) == Slices(t0, q) - t0[p].counter + t1[p].counter
  {
    if q[0] == p {
      assert forall i :: 0 <= i < |q[1..]| ==> q[1..][i] == q[i + 1] != p;
      SlicesSame(t0, t1, q[1..]);
    } else {
      SlicesUpdate(t0, t1, q[1..], p);
    }
  }

  /** No counter exceeds the sum. */
  lemma {:induction false} SliceBound(t: seq<TaskView>, q: seq<nat>, p: nat)
    requires forall i :: 0 <= i < |q| ==> q[i] < |t| && t[q[i]].counter >= 0
    ensures Slices(t, q) >= 0
    ensures p in q ==> Slices(t, q) >= t[p].counter
  {
    if q != [] {
      SliceBound(t, q[1..], p);
    }
  }

  lemma {:induction false} SlicesZero(t: seq<TaskView>, q: seq<nat>)
    requires forall i :: 0 <= i < |q| ==> q[i] < |t| && t[q[i]].counter == 0
    ensures Slices(t, q) == 0
  {
    if q != [] { SlicesZero(t, q[1..]); }
  }

  /** init or a queued task: what can be running. */
  predicate CanRun(m: Model, cur: nat) { cur == 0 || cur in m.queue }

  lemma RunnerExists(m: Model, cur: nat)
    requires Inv(m) && CanRun(m, cur)
    ensures cur < |m.tasks| && 0 <= m.tasks[cur].counter
    ensures cur == 0 ==> forall i :: 0 <= i < |m.queue| ==> m.queue[i] != 0
  {
    assert TaskOk(cur, m.tasks[cur]);
  }

  /** A tick of a queued task with slice left takes exactly one from the sum; with none, or
      of init, nothing. */
  lemma TickSum(m: Model, cur: nat)
    requires Inv(m) && CanRun(m, cur)
    ensures cur < |m.tasks| && Inv(Tick(m, cur))
    ensures QueueSum(Tick(m, cur)) == QueueSum(m) - (if cur != 0 && m.tasks[cur].counter > 0 then 1 else 0)
  {
    RunnerExists(m, cur);
    TickKeeps(m, cur);
    if cur == 0 {
      SlicesSame(m.tasks, Tick(m, cur).tasks, m.queue);
    } else {
      SlicesUpdate(m.tasks, Tick(m, cur).tasks, m.queue, cur);
    }
  }

  /** A fork moves slice from parent to child and creates none: a queued parent's fork keeps
      the sum, and init's brings the child's half into it. */
  lemma ForkSum(m: Model, cur: nat)
    requires Inv(m) && CanRun(m, cur)
    ensures cur < |m.tasks| && Inv(Fork(m, cur))
    ensures QueueSum(Fork(m, cur))
            == QueueSum(m) + (if cur == 0 && CanFork(m) then (m.tasks[0].counter + 1) / 2 else 0)
    ensures CanFork(m) ==>
              Fork(m, cur).tasks[cur].counter + Fork(m, cur).tasks[|m.tasks|].counter == m.tasks[cur].counter
  {
    RunnerExists(m, cur);
    ForkKeeps(m, cur);
    if CanFork(m) {
      var f := Forked(m, cur);
      assert f.queue[1..] == m.queue;
      if cur == 0 {
        SlicesSame(m.tasks, f.tasks, m.queue);
      } else {
        SlicesUpdate(m.tasks, f.tasks, m.queue, cur);
      }
    }
  }

  /** A reset happens exactly when no queued task has slice left. */
  lemma ResetIffSpent(m: Model)
    requires Inv(m) && m.queue != []
    ensures NeedsReset(m) <==> QueueSum(m) == 0
  {
    var w, i := Weights(m), FirstMax(Weights(m));
    if NeedsReset(m) {
      forall j | 0 <= j < |m.queue| ensures m.tasks[m.queue[j]].counter == 0 {
        assert w[j] <= w[i];
      }
      SlicesZero(m.tasks, m.queue);
    } else {
      SliceBound(m.tasks, m.queue, m.queue[i]);
      assert w[i] == m.tasks[m.queue[i]].counter;
    }
  }

  // ----- runs: ticks at preempt_count 0, forks by the running task -----

  datatype Event = TickEvent | ForkEvent | ScheduleEvent

  datatype Running = Running(m: Model, cur: nat)

  /** init or a queued task is running, and nobody has asked to sleep. */
  predicate RunOk(r: Running) {
    Inv(r.m) && CanRun(r.m, r.cur) && forall i :: 0 <= i < |r.m.tasks| ==> r.m.tasks[i].state == 0
  }

  /** Does the event reach the picker? A tick does when it leaves need_resched set. */
  predicate Picks(r: Running, e: Event)
    requires RunOk(r)
  {
    RunnerExists(r.m, r.cur);
    match e
    case TickEvent => Tick(r.m, r.cur).tasks[r.cur].needResched
    case ForkEvent => false
    case ScheduleEvent => true
  }

  function BeforeSchedule(r: Running, e: Event): Model
    requires RunOk(r)
  {
    RunnerExists(r.m, r.cur);
    match e
    case TickEvent => Tick(r.m, r.cur)
    case ForkEvent => Fork(r.m, r.cur)
    case ScheduleEvent => r.m
  }

  /** A pick finds somebody: on an empty queue pick_next_task_nop returns what it never set. */
  predicate Enabled(r: Running, e: Event)
    requires RunOk(r)
  {
    Picks(r, e) ==> BeforeSchedule(r, e).queue != []
  }

  lemma BeforeScheduleOk(r: Running, e: Event)
    requires RunOk(r)
    ensures RunOk(Running(BeforeSchedule(r, e), r.cur))
    ensures |BeforeSchedule(r, e).queue| >= |r.m.queue|
            && (e != ForkEvent ==> BeforeSchedule(r, e).queue == r.m.queue)
  {
    RunnerExists(r.m, r.cur);
    TickKeeps(r.m, r.cur);
    ForkKeeps(r.m, r.cur);
    if e == ForkEvent && CanFork(r.m) && r.cur != 0 {
      var i :| 0 <= i < |r.m.queue| && r.m.queue[i] == r.cur;
      assert Forked(r.m, r.cur).queue[i + 1] == r.cur;
    }
  }

  lemma ScheduleOk(r: Running)
    requires RunOk(r) && r.m.queue != []
    ensures CanSchedule(r.m, r.cur) && RunOk(Running(Scheduled(r.m, r.cur), Next(r.m, r.cur)))
    ensures Scheduled(r.m, r.cur).queue == r.m.queue
  {
    RunnerExists(r.m, r.cur);
    assert Leave(r.m, r.cur) == r.m;
    ScheduledKeeps(r.m, r.cur);
  }

  function After(r: Running, e: Event): (s: Running)
    requires RunOk(r) && Enabled(r, e)
    ensures RunOk(s)
  {
    var m := BeforeSchedule(r, e);
    BeforeScheduleOk(r, e);
    if Picks(r, e) then
      ScheduleOk(Running(m, r.cur));
      Running(Scheduled(m, r.cur), Next(m, r.cur))
    else Running(m, r.cur)
  }

  /** The events can happen one after the other. */
  predicate Runs(r: Running, es: seq<Event>)
    requires RunOk(r)
    decreases |es|
  {
    es == [] || (Enabled(r, es[0]) && Runs(After(r, es[0]), es[1..]))
  }

  function Exec(r: Running, es: seq<Event>): (s: Running)
    requires RunOk(r) && Runs(r, es)
    ensures RunOk(s)
    decreases |es|
  {
    if es == [] then r else Exec(After(r, es[0]), es[1..])
  }

  /** Every task is ready, asks for nothing and may be preempted; init has its own priority. */
  predicate AtRest(m: Model) {
    forall i :: 0 <= i < |m.tasks| ==>
      var t := m.tasks[i];
      && t.state == 0 && !t.needResched && t.preempt == 0 && t.priority == (if i == 0 then 20 else 2)
      && 0 <= t.counter <= if i == 0 then 25 else 27
  }

  /** A tick reaches the scheduler if and only if it ends the slice. */
  lemma TickPicksIff(r: Running)
    requires RunOk(r) && AtRest(r.m)
    ensures r.cur < |r.m.tasks| && (Picks(r, TickEvent) <==> r.m.tasks[r.cur].counter <= 1)
  {
    RunnerExists(r.m, r.cur);
  }

  lemma RestAfter(r: Running, e: Event)
    requires RunOk(r) && Enabled(r, e) && AtRest(r.m)
    ensures AtRest(After(r, e).m)
  {
    RunnerExists(r.m, r.cur);
    BeforeScheduleOk(r, e);
    var m := BeforeSchedule(r, e);
    if Picks(r, e) {
      ScheduleOk(Running(m, r.cur));
      ScheduledMeans(m, r.cur);
      hide Scheduled, Next, CanSchedule, SlicesAfter, FirstBest, Departed;
      RestBut(m, r.cur, Scheduled(m, r.cur));
    } else {
      RestQuiet(r, e);
    }
  }

  /** After a call of the scheduler, which takes the one request back. */
  lemma RestBut(m: Model, cur: nat, r: Model)
    requires Inv(r) && cur < |m.tasks| == |r.tasks|
    requires forall i :: 0 <= i < |m.tasks| ==>
               var t, u := m.tasks[i], r.tasks[i];
               && t.state == 0 && t.preempt == 0 && (i != cur ==> !t.needResched)
               && u.needResched == (if i == cur then false else t.needResched)
               && u.state == t.state && u.priority == t.priority && u.preempt == t.preempt
    ensures AtRest(r)
  {
    assert forall i :: 0 <= i < |r.tasks| ==> TaskOk(i, r.tasks[i]);
  }

  lemma RestQuiet(r: Running, e: Event)
    requires RunOk(r) && AtRest(r.m) && !Picks(r, e)
    ensures AtRest(BeforeSchedule(r, e))
  {
    RunnerExists(r.m, r.cur);
    BeforeScheduleOk(r, e);
    assert forall i :: 0 <= i < |BeforeSchedule(r, e).tasks| ==> TaskOk(i, BeforeSchedule(r, e).tasks[i]);
  }

  lemma {:induction false} RestOverRun(r: Running, es: seq<Event>)
    requires RunOk(r) && Runs(r, es) && AtRest(r.m)
    ensures AtRest(Exec(r, es).m)
    decreases |es|
  {
    if es != [] {
      RestAfter(r, es[0]);
      hide RunOk, AtRest, Enabled, After;
      RestOverRun(After(r, es[0]), es[1..]);
    }
  }

  /** After every run from boot no request is open and no count is up, and a tick then reaches
      the scheduler if and only if the running task has at most one tick left. */
  lemma RestFromBoot(free: set<nat>, es: seq<Event>)
    requires RunOk(Booted(free)) && Runs(Booted(free), es)
    ensures var r := Exec(Booted(free), es);
            && AtRest(r.m) && r.cur < |r.m.tasks|
            && (Picks(r, TickEvent) <==> r.m.tasks[r.cur].counter <= 1)
  {
    RestOverRun(Booted(free), es);
    TickPicksIff(Exec(Booted(free), es));
  }

  // ----- from boot, and when a pick finds nobody -----

  /** init alone, as the initializers leave it. */
  function Booted(free: set<nat>): Running { Running(Model([Initial], [], free, 0), 0) }

  lemma BootedOk(free: set<nat>)
    ensures RunOk(Booted(free))
  {
  }

  /** A pick meets an empty queue exactly when nothing was forked and init asks for one or
      its slice runs out. */
  lemma EmptyPickIff(r: Running, e: Event)
    requires RunOk(r)
    ensures r.m.queue == [] ==> r.cur == 0
    ensures !Enabled(r, e) <==>
              && r.m.queue == []
              && (e == ScheduleEvent || (e == TickEvent && (r.m.tasks[0].counter <= 1 || r.m.tasks[0].needResched)))
  {
    BeforeScheduleOk(r, e);
  }

  /** Once something is queued every event can happen. */
  lemma {:induction false} QueuedRuns(r: Running, es: seq<Event>)
    requires RunOk(r) && r.m.queue != []
    ensures Runs(r, es)
    decreases |es|
  {
    if es != [] {
      BeforeScheduleOk(r, es[0]);
      if Picks(r, es[0]) { ScheduleOk(Running(BeforeSchedule(r, es[0]), r.cur)); }
      QueuedRuns(After(r, es[0]), es[1..]);
    }
  }

  /** Before the first successful fork init can be ticked for less than its slice, and must
      not ask for the scheduler. */
  lemma {:induction false} UnforkedRunsIff(r: Running, es: seq<Event>)
    requires RunOk(r) && r.m.queue == [] && !r.m.tasks[0].needResched && (!CanFork(r.m) || ForkEvent !in es)
    ensures Runs(r, es) <==>
              ScheduleEvent !in es && (TickEvent in es ==> Count(es, TickEvent) < r.m.tasks[0].counter)
    decreases |es|
  {
    if es != [] {
      EmptyPickIff(r, es[0]);
      assert forall e :: e in es <==> e == es[0] || e in es[1..];
      CountPositive(es, TickEvent);
      CountPositive(es[1..], TickEvent);
      if Enabled(r, es[0]) {
        BeforeScheduleOk(r, es[0]);
        UnforkedRunsIff(After(r, es[0]), es[1..]);
      }
    }
  }

  lemma {:induction false} CountPositive(es: seq<Event>, e: Event)
    ensures e in es <==> Count(es, e) > 0
  {
    if es != [] {
      CountPositive(es[1..], e);
      assert e in es <==> e == es[0] || e in es[1..];
    }
  }

  function Ticks(n: nat): seq<Event> { seq(n, i requires 0 <= i < n => TickEvent) }

  lemma {:induction false} CountTicks(n: nat)
    ensures Count(Ticks(n), TickEvent) == n
  {
    if n > 0 {
      assert Ticks(n)[1..] == Ticks(n - 1);
      CountTicks(n - 1);
    }
  }

  /** From boot, 24 ticks can come before the first fork; the 25th picks from an empty queue. */
  lemma BootTicks(free: set<nat>, n: nat)
    ensures RunOk(Booted(free)) && (Runs(Booted(free), Ticks(n)) <==> n < 25)
  {
    CountTicks(n);
    BootedOk(free);
    UnforkedRunsIff(Booted(free), Ticks(n));
    CountPositive(Ticks(n), TickEvent);
  }

  // ----- bounded waiting -----

  /** Some event of the run picks task t. */
  predicate Serves(r: Running, es: seq<Event>, t: nat)
    requires RunOk(r) && Runs(r, es)
    decreases |es|
  {
    es != [] && ((Picks(r, es[0]) && After(r, es[0]).cur == t) || Serves(After(r, es[0]), es[1..], t))
  }

  /** Some event of the run resets the counters. */
  predicate Resets(r: Running, es: seq<Event>)
    requires RunOk(r) && Runs(r, es)
    decreases |es|
  {
    es != [] && (ResetsNow(r, es[0]) || Resets(After(r, es[0]), es[1..]))
  }

  predicate ResetsNow(r: Running, e: Event)
    requires RunOk(r) && Enabled(r, e)
  {
    BeforeScheduleOk(r, e);
    Picks(r, e) && NeedsReset(BeforeSchedule(r, e))
  }

  function Count(es: seq<Event>, e: Event): nat {
    if es == [] then 0 else (if es[0] == e then 1 else 0) + Count(es[1..], e)
  }

  /** Slices left in the queue and with init while it runs, plus one for the extra tick a
      running task with none can take. */
  function Potential(r: Running): int
    requires RunOk(r)
  {
    RunnerExists(r.m, r.cur);
    QueueSum(r.m) + (if r.cur == 0 then r.m.tasks[0].counter else 0)
    + (if r.m.tasks[r.cur].counter == 0 then 1 else 0)
  }

  /** While t waits with slice left every event can happen: a tick lowers the potential, a
      fork raises it by at most one, a voluntary schedule does not raise it; and none of them
      resets. */
  lemma WaitStep(r: Running, e: Event, t: nat)
    requires RunOk(r) && t in r.m.queue && t != r.cur && r.m.tasks[t].counter > 0
    ensures Enabled(r, e)
    ensures var s := After(r, e);
            && !ResetsNow(r, e)
            && t in s.m.queue && s.m.tasks[t].counter == r.m.tasks[t].counter
            && Potential(s) <= Potential(r) + (if e == ForkEvent then 1 else 0) - (if e == TickEvent then 1 else 0)
  {
    hide Picks, NeedsReset, Scheduled, Next, Tick, Fork, Potential;
    var m := BeforeSchedule(r, e);
    BeforeScheduleOk(r, e);
    WaitBefore(r, e, t);
    if Picks(r, e) { PickWhileWaiting(Running(m, r.cur), t); }
  }

  lemma TickWait(r: Running, t: nat)
    requires RunOk(r) && t in r.m.queue && t != r.cur && r.m.tasks[t].counter > 0
    ensures var m := BeforeSchedule(r, TickEvent);
            && RunOk(Running(m, r.cur)) && t in m.queue && m.tasks[t].counter == r.m.tasks[t].counter
            && QueueSum(m) <= Potential(r) - 1
            && (!Picks(r, TickEvent) ==> Potential(Running(m, r.cur)) <= Potential(r) - 1)
  {
    BeforeScheduleOk(r, TickEvent);
    RunnerExists(r.m, r.cur);
    TickSum(r.m, r.cur);
    hide Inv, QueueSum;
  }

  lemma ForkWait(r: Running, t: nat)
    requires RunOk(r) && t in r.m.queue && t != r.cur && r.m.tasks[t].counter > 0
    ensures var m := BeforeSchedule(r, ForkEvent);
            && RunOk(Running(m, r.cur)) && t in m.queue && m.tasks[t].counter == r.m.tasks[t].counter
            && QueueSum(m) <= Potential(r) && Potential(Running(m, r.cur)) <= Potential(r) + 1
  {
    BeforeScheduleOk(r, ForkEvent);
    RunnerExists(r.m, r.cur);
    ForkSum(r.m, r.cur);
    hide Inv, QueueSum;
  }

  /** The event itself, up to the call of the scheduler. */
  lemma WaitBefore(r: Running, e: Event, t: nat)
    requires RunOk(r) && t in r.m.queue && t != r.cur && r.m.tasks[t].counter > 0
    ensures var m := BeforeSchedule(r, e);
            && RunOk(Running(m, r.cur)) && t in m.queue && m.tasks[t].counter == r.m.tasks[t].counter
            && QueueSum(m) <= Potential(r) - (if e == TickEvent then 1 else 0)
            && (!Picks(r, e) ==>
                  Potential(Running(m, r.cur))
                      <= Potential(r) + (if e == ForkEvent then 1 else 0) - (if e == TickEvent then 1 else 0))
  {
    hide QueueSum, Tick, Fork;
    BeforeScheduleOk(r, e);
    RunnerExists(r.m, r.cur);
    match e {
      case TickEvent => TickWait(r, t);
      case ForkEvent => ForkWait(r, t);
      case ScheduleEvent =>
    }
  }

  /** Without a reset, scheduling clears the request and picks. */
  lemma QuietSchedule(m: Model, cur: nat)
    requires CanSchedule(m, cur) && Leave(m, cur) == m && !NeedsReset(m)
    ensures BeforePick(m) == m && Scheduled(m, cur) == Cleared(m, cur) && Next(m, cur) == Picked(m)
  {
    hide Inv, NeedsReset;
  }

  /** With slice left in the queue a pick resets nothing and chooses a task with slice left. */
  lemma PickWhileWaiting(r: Running, t: nat)
    requires RunOk(r) && t in r.m.queue && r.m.tasks[t].counter > 0
    ensures CanSchedule(r.m, r.cur) && !NeedsReset(r.m)
    ensures var s := Running(Scheduled(r.m, r.cur), Next(r.m, r.cur));
            && RunOk(s) && t in s.m.queue && s.m.tasks[t].counter == r.m.tasks[t].counter
            && Potential(s) == QueueSum(r.m)
  {
    ScheduleOk(r);
    RunnerExists(r.m, r.cur);
    assert Leave(r.m, r.cur) == r.m;
    ResetIffSpent(r.m);
    SliceBound(r.m.tasks, r.m.queue, t);
    PickIsBest(r.m);
    hide NeedsReset, FirstMax, Weights, BeforePick, Picked, Scheduled, Next, CanSchedule;
    QuietSchedule(r.m, r.cur);
    QueuedNotInit(r.m, Picked(r.m));
    SlicesSame(r.m.tasks, Scheduled(r.m, r.cur).tasks, r.m.queue);
  }

  lemma QueuedNotInit(m: Model, p: nat)
    requires Inv(m) && p in m.queue
    ensures p != 0
  {
  }

  /** Bounded waiting, whoever runs: until a waiting task with slice left is picked, no
      counter is reset, and at most as many ticks pass as the other queued tasks (and init,
      while it runs) have slice, plus one for each fork and one if the running task had none. */
  lemma {:induction false} BoundedWaiting(r: Running, es: seq<Event>, t: nat)
    requires RunOk(r) && t in r.m.queue && t != r.cur && r.m.tasks[t].counter > 0
    requires Runs(r, es) && !Serves(r, es, t)
    ensures !Resets(r, es)
    ensures Count(es, TickEvent) <= Potential(r) - r.m.tasks[t].counter + Count(es, ForkEvent)
    decreases |es|
  {
    RunnerExists(r.m, r.cur);
    SliceBound(r.m.tasks, r.m.queue, t);
    if es != [] {
      WaitStep(r, es[0], t);
      assert After(r, es[0]).cur != t by {
        if !Picks(r, es[0]) { assert After(r, es[0]).cur == r.cur; }
      }
      BoundedWaiting(After(r, es[0]), es[1..], t);
    }
  }

  lemma {:induction false} SlicesBound(tasks: seq<TaskView>, q: seq<nat>, t: nat)
    requires forall i :: 0 <= i < |q| ==> q[i] < |tasks| && 0 <= tasks[q[i]].counter <= 27
    ensures 0 <= Slices(tasks, q) <= 27 * |q|
    ensures t in q ==> t < |tasks| && Slices(tasks, q) <= 27 * (|q| - 1) + tasks[t].counter
  {
    if q != [] {
      assert t in q ==> t == q[0] || t in q[1..];
      SlicesBound(tasks, q[1..], t);
    }
  }

  /** In plain numbers: a task with slice left is picked before the others in the queue have had
      27 ticks each, init 25, plus one for each fork and one. */
  lemma WaitAtMost(r: Running, es: seq<Event>, t: nat)
    requires RunOk(r) && t in r.m.queue && t != r.cur && r.m.tasks[t].counter > 0
    requires Runs(r, es) && !Serves(r, es, t)
    ensures Count(es, TickEvent) <= 27 * (|r.m.queue| - 1) + 25 + Count(es, ForkEvent) + 1
  {
    BoundedWaiting(r, es, t);
    RunnerExists(r.m, r.cur);
    forall i | 0 <= i < |r.m.queue|
      ensures r.m.queue[i] < |r.m.tasks| && 0 <= r.m.tasks[r.m.queue[i]].counter <= 27
    {
      assert TaskOk(r.m.queue[i], r.m.tasks[r.m.queue[i]]);
    }
    assert TaskOk(0, r.m.tasks[0]);
    SlicesBound(r.m.tasks, r.m.queue, t);
  }

  /** What an event does: a fork and a tick that leaves slice keep the running task; any other
      event runs the best of the queue. */
  lemma AfterMeans(r: Running, e: Event)
    requires RunOk(r) && AtRest(r.m) && Enabled(r, e)
    ensures e == ForkEvent ==> After(r, e) == Running(Fork(r.m, r.cur), r.cur)
    ensures e == TickEvent && r.m.tasks[r.cur].counter > 1 ==>
              After(r, e) == Running(r.m.(tasks := r.m.tasks[r.cur := r.m.tasks[r.cur].(counter
                                                              := r.m.tasks[r.cur].counter - 1)]), r.cur)
    ensures e == ScheduleEvent || (e == TickEvent && r.m.tasks[r.cur].counter <= 1) ==>
              && FirstBest(After(r, e).m, After(r, e).cur) && After(r, e).m.queue == r.m.queue
              && SlicesAfter(if e == ScheduleEvent then r.m.tasks
                             else r.m.tasks[r.cur := r.m.tasks[r.cur].(counter := 0)],
                             r.m.queue, After(r, e).m.tasks)
  {
    RunnerExists(r.m, r.cur);
    BeforeScheduleOk(r, e);
    TickPicksIff(r);
    if Picks(r, e) {
      var m := BeforeSchedule(r, e);
      ScheduleOk(Running(m, r.cur));
      ScheduledMeans(m, r.cur);
      hide Scheduled, Next, CanSchedule, FirstBest, Departed, SliceLeft, Inv;
      SameSlices(m.tasks, if e == ScheduleEvent then r.m.tasks
                          else r.m.tasks[r.cur := r.m.tasks[r.cur].(counter := 0)],
                 r.m.queue, Scheduled(m, r.cur).tasks);
    }
  }

  /** Only counters and priorities matter for the slices. */
  lemma SameSlices(a: seq<TaskView>, b: seq<TaskView>, q: seq<nat>, after: seq<TaskView>)
    requires |a| == |b| && forall i :: 0 <= i < |a| ==> a[i].counter == b[i].counter && a[i].priority == b[i].priority
    requires SlicesAfter(a, q, after)
    ensures SlicesAfter(b, q, after)
  {
    assert SliceLeft(a, q) <==> SliceLeft(b, q) by {
      if j :| 0 <= j < |q| && q[j] < |a| && a[q[j]].counter > 0 {
        assert b[q[j]].counter > 0;
      }
      if j :| 0 <= j < |q| && q[j] < |b| && b[q[j]].counter > 0 {
        assert a[q[j]].counter > 0;
      }
    }
  }

  // ----- forks over a run -----

  /** The pids the successful forks of a run return, in order. */
  function Pids(r: Running, es: seq<Event>): seq<nat>
    requires RunOk(r) && Runs(r, es)
    decreases |es|
  {
    if es == [] then []
    else (if es[0] == ForkEvent && CanFork(r.m) then [|r.m.tasks|] else []) + Pids(After(r, es[0]), es[1..])
  }

  /** A call of the scheduler makes and frees nothing. */
  lemma ScheduledShape(m: Model, prev: nat)
    requires CanSchedule(m, prev)
    ensures var s := Scheduled(m, prev);
            |s.tasks| == |m.tasks| && s.forks == m.forks && s.free == m.free
  {
    LeaveKeeps(m, prev);
    hide NeedsReset, Inv;
  }

  lemma BeforeShape(r: Running, e: Event)
    requires RunOk(r)
    ensures var s := BeforeSchedule(r, e);
            var k := if e == ForkEvent && CanFork(r.m) then 1 else 0;
            && s.forks == r.m.forks + k && |s.tasks| == |r.m.tasks| + k
            && s.free == (if k == 1 then r.m.free - {Lowest(r.m.free)} else r.m.free) && |s.free| == |r.m.free| - k
  {
    RunnerExists(r.m, r.cur);
  }

  lemma ForkStep(r: Running, e: Event)
    requires RunOk(r) && Enabled(r, e)
    ensures var s := After(r, e).m;
            var k := if e == ForkEvent && CanFork(r.m) then 1 else 0;
            && s.forks == r.m.forks + k && |s.tasks| == |r.m.tasks| + k
            && s.free == (if k == 1 then r.m.free - {Lowest(r.m.free)} else r.m.free) && |s.free| == |r.m.free| - k
  {
    hide RunOk, BeforeSchedule, Picks, Scheduled, Next, CanFork, Lowest, CanSchedule;
    BeforeScheduleOk(r, e);
    BeforeShape(r, e);
    if Picks(r, e) {
      ScheduleOk(Running(BeforeSchedule(r, e), r.cur));
      ScheduledShape(BeforeSchedule(r, e), r.cur);
    }
  }

  /** Over any run the k-th successful fork returns the next pid and takes one page, so at
      most NR_TASKS - 1 ever succeed. */
  lemma {:induction false} ForksOverRun(r: Running, es: seq<Event>)
    requires RunOk(r) && Runs(r, es)
    ensures var s, pids := Exec(r, es).m, Pids(r, es);
            && (forall k :: 0 <= k < |pids| ==> pids[k] == r.m.forks + 1 + k)
            && s.forks == r.m.forks + |pids| <= 127
            && |s.tasks| == s.forks + 1
            && s.free <= r.m.free && |s.free| == |r.m.free| - |pids|
    decreases |es|
  {
    if es != [] {
      ForkStep(r, es[0]);
      ForksOverRun(After(r, es[0]), es[1..]);
    }
  }

  /** Free pages that come before page i. */
  function Below(free: set<nat>, i: nat): set<nat> { set j | j in free && j < i }

  lemma TakenFromBelow(free: set<nat>, i: nat)
    requires i in free && Lowest(free) != i
    ensures Lowest(free) < i && i in free - {Lowest(free)}
    ensures |Below(free - {Lowest(free)}, i)| == |Below(free, i)| - 1
  {
    var x := Lowest(free);
    assert Below(free, i) == Below(free - {x}, i) + {x};
  }

  lemma NoneBelow(free: set<nat>, i: nat)
    requires i in free && Lowest(free) == i
    ensures Below(free, i) == {}
  {
  }

  /** Over any run a free page is handed to a task if and only if fewer free pages come before
      it than forks succeed. */
  lemma {:induction false} PageTakenIff(r: Running, es: seq<Event>, i: nat)
    requires RunOk(r) && Runs(r, es) && i in r.m.free
    ensures i !in Exec(r, es).m.free <==> |Below(r.m.free, i)| < |Pids(r, es)|
    decreases |es|
  {
    hide RunOk, Enabled, After, CanFork, Below, Lowest;
    if es != [] {
      ForkStep(r, es[0]);
      var s := After(r, es[0]);
      ForksOverRun(s, es[1..]);
      if i in s.m.free { PageTakenIff(s, es[1..], i); }
      if es[0] == ForkEvent && CanFork(r.m) {
        if Lowest(r.m.free) == i { NoneBelow(r.m.free, i); } else { TakenFromBelow(r.m.free, i); }
      }
    }
  }

  // ----- init and the picker -----

  lemma PickedIsNotInit(r: Running, e: Event)
    requires RunOk(r) && Enabled(r, e)
    ensures Picks(r, e) || r.cur != 0 ==> After(r, e).cur != 0
  {
    hide Picks, Next, Scheduled, CanSchedule;
    BeforeScheduleOk(r, e);
    if Picks(r, e) {
      var m := BeforeSchedule(r, e);
      ScheduleOk(Running(m, r.cur));
      ScheduledKeeps(m, r.cur);
      QueuedNotInit(Scheduled(m, r.cur), Next(m, r.cur));
    }
  }

  /** init is never queued: once another task was picked it never runs again. */
  lemma {:induction false} NeverBackToInit(r: Running, es: seq<Event>)
    requires RunOk(r) && Runs(r, es) && r.cur != 0
    ensures Exec(r, es).cur != 0
    decreases |es|
  {
    hide RunOk, Enabled, After;
    if es != [] {
      PickedIsNotInit(r, es[0]);
      NeverBackToInit(After(r, es[0]), es[1..]);
    }
  }

  /** From boot: the k-th successful fork returns pid k, counting from 1. */
  lemma ForksFromBoot(free: set<nat>, es: seq<Event>)
    requires RunOk(Booted(free)) && Runs(Booted(free), es)
    ensures var pids := Pids(Booted(free), es);
            && |pids| <= 127 && (forall k :: 0 <= k < |pids| ==> pids[k] == k + 1)
            && |Exec(Booted(free), es).m.tasks| == |pids| + 1
  {
    ForksOverRun(Booted(free), es);
  }
}
