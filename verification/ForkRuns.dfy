/** What a fork that is interrupted between its stores amounts to: runs, then the child
    published at one point, then runs. */
module ForkRuns {
  import opened SchedModel
  import opened Sched

  // ----- a task that is linked but not queued -----

  /** The task with the slice reset_score gives it. */
  function Full(v: TaskView): TaskView { v.(counter := DEF_COUNTER + v.priority) }

  /** v can be the next task of m: runnable and within its slice. */
  predicate CanLink(m: Model, v: TaskView) {
    Inv(m) && |m.tasks| < NR_TASKS && TaskOk(|m.tasks|, v) && v.state == 0
  }

  lemma WithWeights(m: Model, v: TaskView)
    requires Inv(m)
    ensures forall i :: 0 <= i < |m.queue| ==> m.queue[i] < |m.tasks| && m.queue[i] < |WithTask(m, v).tasks|
    ensures Weights(WithTask(m, v)) == Weights(m)
  {
  }

  lemma WithReset(m: Model, v: TaskView)
    requires |m.tasks| > 0
    ensures Reset(WithTask(m, v)) == WithTask(Reset(m), Full(v))
  {
    assert Reset(WithTask(m, v)).tasks == WithTask(Reset(m), Full(v)).tasks;
  }

  /** The picker does not see the task, but a reset does. */
  lemma WithPick(m: Model, v: TaskView)
    requires CanLink(m, v) && m.queue != []
    ensures Inv(WithTask(m, v)) && NeedsReset(WithTask(m, v)) == NeedsReset(m)
    ensures BeforePick(WithTask(m, v)) == WithTask(BeforePick(m), if NeedsReset(m) then Full(v) else v)
    ensures Picked(WithTask(m, v)) == Picked(m)
  {
    WithTaskKeeps(m, v);
    WithWeights(m, v);
    WithReset(m, v);
    ResetKeeps(m);
    WithWeights(Reset(m), Full(v));
    hide Inv, Weights, FirstMax, Reset, TaskOk;
  }

  lemma WithScheduled(m: Model, prev: nat, v: TaskView)
    requires CanLink(m, v) && prev < |m.tasks| && m.tasks[prev].state == 0 && m.queue != []
    ensures CanSchedule(m, prev) && CanSchedule(WithTask(m, v), prev)
    ensures Scheduled(WithTask(m, v), prev) == WithTask(Scheduled(m, prev), if NeedsReset(m) then Full(v) else v)
    ensures Next(WithTask(m, v), prev) == Next(m, prev)
  {
    WithPick(m, v);
    BeforePickKeeps(m);
    hide Inv, BeforePick, Picked, NeedsReset, TaskOk;
    ScheduleSteps(m, prev);
    ScheduleSteps(WithTask(m, v), prev);
    WithCleared(BeforePick(m), if NeedsReset(m) then Full(v) else v, prev);
  }

  lemma WithCleared(m: Model, v: TaskView, prev: nat)
    requires prev < |m.tasks|
    ensures Cleared(WithTask(m, v), prev) == WithTask(Cleared(m, prev), v)
  {
    assert Cleared(WithTask(m, v), prev).tasks == WithTask(Cleared(m, prev), v).tasks;
  }

  lemma WithTick(m: Model, v: TaskView, cur: nat)
    requires cur < |m.tasks|
    ensures Tick(WithTask(m, v), cur) == WithTask(Tick(m, cur), v)
  {
    assert Tick(WithTask(m, v), cur).tasks == WithTask(Tick(m, cur), v).tasks;
  }

  lemma WithRunOk(r: Running, v: TaskView)
    requires RunOk(r) && CanLink(r.m, v)
    ensures RunOk(Running(WithTask(r.m, v), r.cur))
  {
    WithTaskKeeps(r.m, v);
    hide Inv, TaskOk;
  }

  /** The event itself, up to the call of the scheduler. */
  lemma WithBefore(r: Running, v: TaskView, e: Event)
    requires RunOk(r) && CanLink(r.m, v) && e != ForkEvent
    ensures RunOk(Running(WithTask(r.m, v), r.cur)) && RunOk(Running(BeforeSchedule(r, e), r.cur))
    ensures BeforeSchedule(Running(WithTask(r.m, v), r.cur), e) == WithTask(BeforeSchedule(r, e), v)
    ensures Picks(Running(WithTask(r.m, v), r.cur), e) == Picks(r, e)
    ensures CanLink(BeforeSchedule(r, e), v)
  {
    WithRunOk(r, v);
    BeforeScheduleOk(r, e);
    BeforeShape(r, e);
    RunnerExists(r.m, r.cur);
    WithTick(r.m, v, r.cur);
    hide Inv, TaskOk, Fork, CanFork, Lowest;
  }

  /** The slice the task has after an event. */
  function Slice(r: Running, v: TaskView, e: Event): TaskView
    requires RunOk(r) && Enabled(r, e)
  {
    if ResetsNow(r, e) then Full(v) else v
  }

  /** An event on the lists with the task is that event without it, but that a reset fills its
      slice. */
  lemma WithAfter(r: Running, v: TaskView, e: Event)
    requires RunOk(r) && CanLink(r.m, v) && e != ForkEvent
    ensures RunOk(Running(WithTask(r.m, v), r.cur))
    ensures Enabled(Running(WithTask(r.m, v), r.cur), e) == Enabled(r, e)
    ensures Enabled(r, e) ==>
              After(Running(WithTask(r.m, v), r.cur), e)
              == Running(WithTask(After(r, e).m, Slice(r, v, e)), After(r, e).cur)
  {
    WithBefore(r, v, e);
    hide BeforeSchedule, Picks, NeedsReset, Scheduled, Next, CanSchedule, CanLink;
    if Picks(r, e) && BeforeSchedule(r, e).queue != [] {
      WithPicked(Running(BeforeSchedule(r, e), r.cur), v);
    }
  }

  lemma WithPicked(r: Running, v: TaskView)
    requires RunOk(r) && CanLink(r.m, v) && r.m.queue != []
    ensures CanSchedule(r.m, r.cur) && CanSchedule(WithTask(r.m, v), r.cur)
    ensures Scheduled(WithTask(r.m, v), r.cur)
            == WithTask(Scheduled(r.m, r.cur), if NeedsReset(r.m) then Full(v) else v)
    ensures Next(WithTask(r.m, v), r.cur) == Next(r.m, r.cur)
  {
    RunnerExists(r.m, r.cur);
    hide Inv, TaskOk, Scheduled, Next, NeedsReset;
    WithScheduled(r.m, r.cur, v);
  }

  lemma StillLinks(r: Running, v: TaskView, e: Event)
    requires RunOk(r) && CanLink(r.m, v) && e != ForkEvent && Enabled(r, e)
    ensures CanLink(After(r, e).m, Slice(r, v, e))
  {
    ForkStep(r, e);
    hide After, Inv, ResetsNow, Enabled;
  }

  /** Whether a reset comes in a run. */
  function SliceAfter(r: Running, v: TaskView, es: seq<Event>): TaskView
    requires RunOk(r) && Runs(r, es)
  {
    if Resets(r, es) then Full(v) else v
  }

  /** A run on the lists with the task is the run without it, but for the slice. */
  lemma {:induction false} WithRun(r: Running, v: TaskView, es: seq<Event>)
    requires RunOk(r) && CanLink(r.m, v) && ForkEvent !in es
    ensures RunOk(Running(WithTask(r.m, v), r.cur)) && Runs(Running(WithTask(r.m, v), r.cur), es) == Runs(r, es)
    ensures Runs(r, es) ==>
              Exec(Running(WithTask(r.m, v), r.cur), es)
              == Running(WithTask(Exec(r, es).m, SliceAfter(r, v, es)), Exec(r, es).cur)
    decreases |es|
  {
    WithRunOk(r, v);
    if es != [] {
      WithAfter(r, v, es[0]);
      if Enabled(r, es[0]) {
        StillLinks(r, v, es[0]);
        hide RunOk, CanLink, Enabled, After, ResetsNow;
        WithRun(After(r, es[0]), Slice(r, v, es[0]), es[1..]);
      }
    }
  }

  // ----- the runs of an interrupted fork, put together -----

  /** The runs i to k - 1 one after the other. */
  function Flat(runs: seq<seq<Event>>, i: nat, k: nat): seq<Event>
    requires i <= k <= |runs|
  {
    if k == i then [] else Flat(runs, i, k - 1) + runs[k - 1]
  }

  lemma {:induction false} ExecSplit(r: Running, e: seq<Event>, f: seq<Event>)
    requires RunOk(r) && Runs(r, e) && Runs(Exec(r, e), f)
    ensures Runs(r, e + f) && Exec(r, e + f) == Exec(Exec(r, e), f)
    decreases |e|
  {
    hide RunOk, Enabled, After;
    if e == [] {
      assert e + f == f;
    } else {
      assert (e + f)[0] == e[0] && (e + f)[1..] == e[1..] + f;
      ExecSplit(After(r, e[0]), e[1..], f);
    }
  }

  lemma ReturnsTwice(m: Model, p: nat, e: seq<Event>, f: seq<Event>)
    requires Returns(m, p, e) && Returns(Ran(m, p, e), p, f)
    ensures Returns(m, p, e + f) && Ran(m, p, e + f) == Ran(Ran(m, p, e), p, f)
  {
    hide RunOk;
    ExecSplit(Running(m, p), e, f);
  }

  /** Between the publishing stores the runs join: from after store i, with only private stores
      up to store k. */
  lemma {:induction false} JoinRuns(m: Model, v: TaskView, pid: nat, p: nat, runs: seq<seq<Event>>, i: nat, k: nat,
                                    s: Model)
    requires i < k <= |runs| && Resumes(m, v, pid, p, runs, k) && (k <= 4 || i >= 4) && (k <= 10 || i >= 10)
    requires Resumes(m, v, pid, p, runs, i) && s == Stored(Between(m, v, pid, p, runs, i), v, pid, i)
    ensures Returns(s, p, Flat(runs, i, k)) && Between(m, v, pid, p, runs, k) == Ran(s, p, Flat(runs, i, k))
    decreases k
  {
    hide Returns, Ran;
    ResumesStep(m, v, pid, p, runs, k - 1);
    assert Flat(runs, i, i) == [];
    if k == i + 1 {
      assert Flat(runs, i, k) == runs[i];
    } else {
      JoinRuns(m, v, pid, p, runs, i, k - 1, s);
      ReturnsTwice(s, p, Flat(runs, i, k - 1), runs[k - 1]);
    }
  }

  lemma {:induction false} RunKeepsLink(r: Running, v: TaskView, es: seq<Event>)
    requires RunOk(r) && Runs(r, es) && ForkEvent !in es && CanLink(r.m, v)
    ensures CanLink(Exec(r, es).m, v)
    decreases |es|
  {
    if es != [] {
      ForkStep(r, es[0]);
      hide TaskOk, Enabled, After;
      RunKeepsLink(After(r, es[0]), v, es[1..]);
    }
  }

  /** The slice a task v, linked before the run es of m, has after it. */
  ghost function SliceLater(m: Model, v: TaskView, p: nat, es: seq<Event>): TaskView
    requires Returns(m, p, es)
  {
    SliceAfter(Running(m, p), v, es)
  }

  /** The run on the lists with the task comes back as the run without it does. */
  lemma WithReturns(m: Model, v: TaskView, p: nat, es: seq<Event>)
    requires CanLink(m, v) && RunOk(Running(m, p)) && Returns(WithTask(m, v), p, es)
    ensures Returns(m, p, es) && Ran(WithTask(m, v), p, es) == WithTask(Ran(m, p, es), SliceLater(m, v, p, es))
  {
    WithRun(Running(m, p), v, es);
    hide RunOk, CanLink;
  }

  lemma RanOk(m: Model, v: TaskView, p: nat, es: seq<Event>)
    requires CanLink(m, v) && Returns(m, p, es)
    ensures RunOk(Running(Ran(m, p, es), p)) && CanLink(Ran(m, p, es), v)
  {
    RunKeepsLink(Running(m, p), v, es);
    hide RunOk, CanLink;
  }

  /** do_fork from total_forks++ on, interrupted after every store and resumed, is the child
      linked and queued at one point, the store of list_add that publishes it: the runs before
      it see nothing of the child, but that a reset after it was linked fills its slice. */
  lemma ForkAtQueue(m: Model, v: TaskView, pid: nat, p: nat, runs: seq<seq<Event>>)
    requires |runs| == PUBLISHING && Resumes(m, v, pid, p, runs, PUBLISHING) && CanLink(m, v)
    ensures var early, late, rest := Flat(runs, 0, 4), Flat(runs, 4, 10), Flat(runs, 10, 12);
            && Returns(m, p, early) && Returns(Ran(m, p, early), p, late) && Returns(m, p, early + late)
            && var w := SliceLater(Ran(m, p, early), v, p, late);
            var child := Enqueue(WithTask(Ran(m, p, early + late), w), pid);
            Returns(child, p, rest) && Between(m, v, pid, p, runs, PUBLISHING) == Ran(child, p, rest)
  {
    hide Returns, Ran, CanLink, SliceLater, WithTask, Enqueue;
    BetweenNone(m, v, pid, p, runs);
    ResumesEarlier(m, v, pid, p, runs, 4, PUBLISHING);
    ResumesEarlier(m, v, pid, p, runs, 10, PUBLISHING);
    JoinRuns(m, v, pid, p, runs, 0, 4, m);
    var m4 := Between(m, v, pid, p, runs, 4);
    RanOk(m, v, p, Flat(runs, 0, 4));
    JoinRuns(m, v, pid, p, runs, 4, 10, WithTask(m4, v));
    WithReturns(m4, v, p, Flat(runs, 4, 10));
    ReturnsTwice(m, p, Flat(runs, 0, 4), Flat(runs, 4, 10));
    JoinRuns(m, v, pid, p, runs, 10, 12, Enqueue(Between(m, v, pid, p, runs, 10), pid));
  }

  /** With no reset between the two publishing stores, and only then unless the slice is full
      anyway, the child is the one do_fork filled in. */
  lemma SliceKeptIff(m: Model, v: TaskView, p: nat, es: seq<Event>)
    requires Returns(m, p, es)
    ensures SliceLater(m, v, p, es) == v <==> !Resets(Running(m, p), es) || v.counter == DEF_COUNTER + v.priority
  {
    hide RunOk;
  }

  // ----- the whole of do_fork -----

  /** The page taken and the parent's slice halved. */
  function Halved(m: Model, cur: nat): Model
    requires CanFork(m) && cur < |m.tasks|
  {
    m.(tasks := m.tasks[cur := m.tasks[cur].(counter := m.tasks[cur].counter / 2)], free := m.free - {Lowest(m.free)})
  }

  /** do_fork uninterrupted: these stores, then the child linked and queued. */
  lemma ForkInParts(m: Model, cur: nat)
    requires CanFork(m) && cur < |m.tasks|
    ensures Forked(m, cur) == Enqueue(WithTask(Halved(m, cur), ChildOf(m.tasks[cur])), |m.tasks|)
  {
    hide Lowest;
  }

  /** One tick of the parent between the halving of its slice and the rest of the fork is that
      tick before the fork if and only if the slice was 0, or even and not about to end. */
  lemma TickInsideForkIff(m: Model, cur: nat)
    requires Inv(m) && CanFork(m) && cur < |m.tasks|
    ensures var t := m.tasks[cur];
            Enqueue(WithTask(Tick(Halved(m, cur), cur), ChildOf(t)), |m.tasks|) == Forked(Tick(m, cur), cur)
            <==> t.counter == 0 || (t.counter % 2 == 0 && (t.counter >= 4 || t.needResched))
  {
    var t := m.tasks[cur];
    assert TaskOk(cur, t);
    var inside := Enqueue(WithTask(Tick(Halved(m, cur), cur), ChildOf(t)), |m.tasks|);
    var after := Forked(Tick(m, cur), cur);
    hide Lowest, Inv;
    assert inside.queue == after.queue && inside.free == after.free && inside.forks == after.forks;
    TickParts(m, cur, inside, after);
    SameTasksIff(inside.tasks, after.tasks, cur);
  }

  lemma TickParts(m: Model, cur: nat, inside: Model, after: Model)
    requires CanFork(m) && cur < |m.tasks| && m.tasks[cur].counter >= 0
    requires inside == Enqueue(WithTask(Tick(Halved(m, cur), cur), ChildOf(m.tasks[cur])), |m.tasks|)
    requires after == Forked(Tick(m, cur), cur)
    ensures |inside.tasks| == |after.tasks| == |m.tasks| + 1
    ensures forall i :: 0 <= i < |m.tasks| && i != cur ==> inside.tasks[i] == after.tasks[i]
    ensures var t := m.tasks[cur];
            inside.tasks[cur] == after.tasks[cur] && inside.tasks[|m.tasks|] == after.tasks[|m.tasks|]
            <==> t.counter == 0 || (t.counter % 2 == 0 && (t.counter >= 4 || t.needResched))
  {
    hide Lowest;
  }

  lemma SameTasksIff(a: seq<TaskView>, b: seq<TaskView>, cur: nat)
    requires |a| == |b| > cur + 1 && forall i :: 0 <= i < |a| - 1 && i != cur ==> a[i] == b[i]
    ensures a == b <==> a[cur] == b[cur] && a[|a| - 1] == b[|a| - 1]
  {
    if a[cur] == b[cur] && a[|a| - 1] == b[|a| - 1] {
      assert forall i :: 0 <= i < |a| ==> a[i] == b[i];
    }
  }
}
