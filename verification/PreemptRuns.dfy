/** Why a preemption happens, over whole runs: el1_irq calls the scheduler if and only if the
    interrupted thread was asked to give way and is preemptible, each expired tick pays for at
    most one preemption, and a preemption does not return before it has picked. */
module PreemptRuns {
  import opened Preempt

  // ----- the history of a run -----

  /** Who runs after these events. */
  function Running(es: seq<Event>): nat {
    if es == [] then 0
    else if es[|es| - 1].Pick? then es[|es| - 1].next
    else Running(es[..|es| - 1])
  }

  /** A tick ended the slice of thread i at es[j], and thread i has not picked since. */
  predicate AskedAt(es: seq<Event>, i: nat, j: nat) {
    && j < |es| && es[j] == Tick(true) && Running(es[..j]) == i
    && forall k :: j < k < |es| && es[k].Pick? ==> Running(es[..k]) != i
  }

  predicate Asked(es: seq<Event>, i: nat) {
    exists j :: 0 <= j < |es| && AskedAt(es, i, j)
  }

  lemma {:induction false} RunsSnoc(m: Machine, es: seq<Event>, e: Event)
    ensures Runs(m, es + [e]) <==> Runs(m, es) && Enabled(Exec(m, es), e)
    ensures Runs(m, es + [e]) ==> Exec(m, es + [e]) == Apply(Exec(m, es), e)
    decreases |es|
  {
    hide Enabled, Apply;
    if es == [] {
      assert [] + [e] == [e] && [e][1..] == [];
      assert Runs(m, [e]) == (Enabled(m, e) && Runs(Apply(m, e), []));
    } else {
      assert (es + [e])[1..] == es[1..] + [e] && (es + [e])[0] == es[0];
      if Enabled(m, es[0]) { RunsSnoc(Apply(m, es[0]), es[1..], e); }
    }
  }

  lemma Last(es: seq<Event>) returns (b: seq<Event>, e: Event)
    requires es != []
    ensures es == b + [e] && |b| == |es| - 1
  {
    b, e := es[..|es| - 1], es[|es| - 1];
  }

  lemma RunningSnoc(b: seq<Event>, e: Event)
    ensures Running(b + [e]) == if e.Pick? then e.next else Running(b)
  {
    assert (b + [e])[..|b|] == b;
  }

  lemma AskedAtSnoc(b: seq<Event>, e: Event, i: nat, j: nat)
    ensures AskedAt(b + [e], i, j) <==>
              if j == |b| then e == Tick(true) && Running(b) == i
              else AskedAt(b, i, j) && !(e.Pick? && Running(b) == i)
  {
    hide Running;
    var es := b + [e];
    assert es[..|b|] == b;
    assert forall k :: 0 <= k < |b| ==> es[k] == b[k] && es[..k] == b[..k];
  }

  /** What one more event changes. */
  lemma AskedSnoc(b: seq<Event>, e: Event, i: nat)
    ensures Asked(b + [e], i) <==>
              if Running(b) == i && e == Tick(true) then true
              else if Running(b) == i && e.Pick? then false
              else Asked(b, i)
  {
    hide Running, AskedAt;
    forall j: nat
      ensures AskedAt(b + [e], i, j) <==>
                if j == |b| then e == Tick(true) && Running(b) == i
                else AskedAt(b, i, j) && !(e.Pick? && Running(b) == i)
    {
      AskedAtSnoc(b, e, i, j);
    }
    AskedInside(b, i, |b|);
  }

  lemma AskedInside(b: seq<Event>, i: nat, j: nat)
    ensures AskedAt(b, i, j) ==> j < |b|
  {
  }

  /** need_resched of every thread after one event. */
  lemma FlagStep(m: Machine, e: Event, i: nat)
    requires Enabled(m, e)
    ensures var r := Apply(m, e);
            (i < |r.tasks| && r.tasks[i].needResched) <==>
              if i == m.cur && e == Tick(true) then true
              else if i == m.cur && e.Pick? then false
              else i < |m.tasks| && m.tasks[i].needResched
  {
  }

  /** need_resched is set if and only if a tick ended the thread's slice and the thread has not
      called the picker since. */
  lemma {:induction false} FlagMeans(es: seq<Event>, i: nat)
    requires Runs(Boot, es)
    ensures Exec(Boot, es).cur == Running(es)
    ensures (i < |Exec(Boot, es).tasks| && Exec(Boot, es).tasks[i].needResched) <==> Asked(es, i)
    decreases |es|
  {
    if es != [] {
      var b, e := Last(es);
      RunsSnoc(Boot, b, e);
      FlagMeans(b, i);
      FlagStep(Exec(Boot, b), e, i);
      OthersKept(Exec(Boot, b), e);
      AskedSnoc(b, e, i);
      RunningSnoc(b, e);
    }
  }

  // ----- an open preemption -----

  /** A call of schedule or preempt_schedule_irq that has not picked yet. */
  predicate Unpicked(f: Frame) {
    f.Sched? && (f.pc == Called || f.pc == Counted || f.pc == Open || f.pc == Closed)
  }

  predicate Preempts(f: Frame) { f.Sched? && f.preempting }

  /** The thread is inside a preemption that has not picked yet. */
  predicate Waiting(t: Thread) {
    exists k :: 0 <= k < |t.stack| && Preempts(t.stack[k]) && Unpicked(t.stack[k])
  }

  /** Under schedule or preempt_schedule_irq there is no preemption. */
  lemma NoneBelow(s: seq<Frame>)
    requires Nested(s) && s != [] && Top(s).Sched?
    ensures forall k :: 0 <= k < |s| - 1 ==> !Preempts(s[k])
  {
    if Top(s).preempting {
      var b := Below(s);
      FreshGround(Below(b));
      assert b == Below(b) + [Irq(Preempting)];
    }
  }

  /** Under an interrupt of code with preempt_count 0 there is none. */
  lemma NoneUnderCheck(t: Thread)
    requires ThreadOk(t) && t.stack != [] && Top(t.stack) == Irq(Checking) && t.count == 0
    ensures Below(t.stack) == [] || Below(t.stack) == [Sched(false, Called)]
    ensures !Waiting(t)
  {
    FreshGround(Below(t.stack));
    assert t.stack == Below(t.stack) + [Top(t.stack)];
  }

  /** One event, as seen by the thread that runs. */
  lemma WaitingStep(m: Machine, e: Event)
    requires Inv(m) && Enabled(m, e)
    ensures var t, u := m.tasks[m.cur], Apply(m, e).tasks[m.cur];
            Waiting(u) <==> (Waiting(t) && !e.Pick?) || (e == Check && t.count == 0 && t.needResched)
  {
    hide Waiting, Advanced, Inv;
    var t, u := m.tasks[m.cur], Apply(m, e).tasks[m.cur];
    RunningThread(m);
    match e
    case Pick(_) => PickWaiting(t, u);
    case Check => if t.count == 0 && t.needResched { CallWaiting(t, u); } else { TopApart(t, u); }
    case Advance => AdvanceWaiting(t, m.masked);
    case TakeIrq => PushApart(t, u, Irq(Saved));
    case CallSchedule => PushApart(t, u, Sched(false, Called));
    case IrqEnter => MovedApart(t, u, Irq(Handling));
    case IrqExit => MovedApart(t, u, Irq(Checking));
    case Return => TopApart(t, u);
    case Start => TopApart(t, u);
    case Tick(_) => SameStack(t, u);
    case Fork =>
  }

  lemma RunningThread(m: Machine)
    requires Inv(m)
    ensures m.cur < |m.tasks| && ThreadOk(m.tasks[m.cur])
  {
  }

  lemma SameStack(t: Thread, u: Thread)
    requires t.stack == u.stack
    ensures Waiting(t) <==> Waiting(u)
  {
  }

  lemma PickWaiting(t: Thread, u: Thread)
    requires ThreadOk(t) && t.stack != [] && Top(t.stack).Sched?
    requires u.stack == Below(t.stack) + [Top(t.stack).(pc := Out)]
    ensures !Waiting(u)
  {
    NoneBelow(t.stack);
  }

  lemma CallWaiting(t: Thread, u: Thread)
    requires ThreadOk(t) && t.stack != [] && u.stack == Below(t.stack) + [Irq(Preempting)] + [Sched(true, Called)]
    ensures Waiting(u)
  {
    assert u.stack[|t.stack|] == Sched(true, Called);
  }

  lemma MovedApart(t: Thread, u: Thread, f: Frame)
    requires t.stack != [] && u.stack == Below(t.stack) + [f]
    requires (Preempts(Top(t.stack)) && Unpicked(Top(t.stack))) == (Preempts(f) && Unpicked(f))
    ensures Waiting(u) <==> Waiting(t)
  {
    Snoc(Below(t.stack), f);
    MoveApart(t, u);
  }

  lemma TopApart(t: Thread, u: Thread)
    requires t.stack != [] && u.stack == Below(t.stack) && !(Preempts(Top(t.stack)) && Unpicked(Top(t.stack)))
    ensures Waiting(u) <==> Waiting(t)
  {
    hide Preempts, Unpicked;
    assert t.stack == u.stack + [Top(t.stack)];
    assert forall k :: 0 <= k < |u.stack| ==> t.stack[k] == u.stack[k];
  }

  lemma PushApart(t: Thread, u: Thread, f: Frame)
    requires u.stack == t.stack + [f] && !(Preempts(f) && Unpicked(f))
    ensures Waiting(u) <==> Waiting(t)
  {
    Snoc(t.stack, f);
    TopApart(u, t);
  }

  lemma MoveApart(t: Thread, u: Thread)
    requires t.stack != [] && u.stack != [] && Below(u.stack) == Below(t.stack)
    requires (Preempts(Top(t.stack)) && Unpicked(Top(t.stack))) == (Preempts(Top(u.stack)) && Unpicked(Top(u.stack)))
    ensures Waiting(u) <==> Waiting(t)
  {
    hide Preempts, Unpicked;
    assert |u.stack| == |t.stack|;
    assert forall k :: 0 <= k < |u.stack| - 1 ==> u.stack[k] == Below(t.stack)[k] == t.stack[k];
    assert u.stack[|u.stack| - 1] == Top(u.stack) && t.stack[|u.stack| - 1] == Top(t.stack);
  }

  lemma AdvanceWaiting(t: Thread, masked: bool)
    requires t.stack != [] && Top(t.stack).Sched? && Top(t.stack).pc != Closed
    ensures Waiting(Advanced(t, masked).0) <==> Waiting(t)
  {
    hide Waiting;
    var u := Advanced(t, masked).0;
    if |u.stack| < |t.stack| {
      TopApart(t, u);
    } else {
      Snoc(Below(t.stack), Top(u.stack));
      MoveApart(t, u);
    }
  }

  /** A thread inside a preemption that has not picked yet has its need_resched set. */
  lemma {:induction false} WaitingFlag(es: seq<Event>, i: nat)
    requires Runs(Boot, es) && i < |Exec(Boot, es).tasks| && Waiting(Exec(Boot, es).tasks[i])
    ensures Exec(Boot, es).tasks[i].needResched
    decreases |es|
  {
    if es != [] {
      var b, e := Last(es);
      RunsSnoc(Boot, b, e);
      RunKeeps(Boot, b);
      var m := Exec(Boot, b);
      FlagStep(m, e, i);
      OthersKept(m, e);
      NewThread();
      WaitingStep(m, e);
      hide Waiting, Apply;
      if i == m.cur {
        if Waiting(m.tasks[i]) { WaitingFlag(b, i); }
      } else if i < |m.tasks| {
        WaitingFlag(b, i);
      }
    }
  }

  lemma NewThread()
    ensures !Waiting(Thread([Birth], 0, false))
  {
  }

  /** Preemptions have a cause: inside one that has not picked yet, a tick has ended the
      thread's slice and the thread has not picked since. */
  lemma PreemptionAsked(es: seq<Event>, i: nat, k: nat)
    requires Runs(Boot, es) && i < |Exec(Boot, es).tasks| && k < |Exec(Boot, es).tasks[i].stack|
    requires var f := Exec(Boot, es).tasks[i].stack[k];
             f.Sched? && f.preempting && f.pc in {Called, Counted, Open, Closed}
    ensures Exec(Boot, es).tasks[i].needResched && Asked(es, i)
  {
    WaitingFlag(es, i);
    FlagMeans(es, i);
  }

  /** The end of el1_irq after any run from boot: the scheduler is called if and only if the
      thread was asked to give way and the interrupt came from its own code, outside any other
      interrupt and any disabled preemption. Otherwise the interrupted code goes on. */
  lemma PreemptedIff(es: seq<Event>)
    requires Runs(Boot, es + [Check])
    ensures Runs(Boot, es)
    ensures var m, r := Exec(Boot, es), Exec(Boot, es + [Check]);
            var i := Running(es);
            && i < |m.tasks| && i < |r.tasks|
            && var s, u := m.tasks[i].stack, r.tasks[i].stack;
            && s != [] && s[|s| - 1] == Irq(Checking)
            && (s in {[Irq(Checking)], [Sched(false, Called), Irq(Checking)]} && Asked(es, i) ==>
                  u == s[..|s| - 1] + [Irq(Preempting), Sched(true, Called)] && r.masked)
            && (!(s in {[Irq(Checking)], [Sched(false, Called), Irq(Checking)]} && Asked(es, i)) ==>
                  u == s[..|s| - 1] && !r.masked)
  {
    RunsSnoc(Boot, es, Check);
    RunKeeps(Boot, es);
    FlagMeans(es, Running(es));
    var m := Exec(Boot, es);
    var t := m.tasks[m.cur];
    CheckStack(m);
    hide Asked, Apply, Runs, Exec;
    OwnCode(t);
  }

  lemma CheckStack(m: Machine)
    requires Inv(m) && Enabled(m, Check)
    ensures var t, u := m.tasks[m.cur], Apply(m, Check).tasks[m.cur];
            && t.stack != [] && t.stack[|t.stack| - 1] == Irq(Checking)
            && m.masked
            && Apply(m, Check).masked == (t.count == 0 && t.needResched)
            && u.stack == t.stack[..|t.stack| - 1]
                          + if t.count == 0 && t.needResched then [Irq(Preempting), Sched(true, Called)] else []
  {
    var t := m.tasks[m.cur];
    assert Below(t.stack) + [Irq(Preempting)] + [Sched(true, Called)]
        == Below(t.stack) + [Irq(Preempting), Sched(true, Called)];
  }

  /** At the check preempt_count is 0 in exactly these two stacks. */
  lemma OwnCode(t: Thread)
    requires ThreadOk(t) && t.stack != [] && Top(t.stack) == Irq(Checking)
    ensures t.count == 0 <==> t.stack in {[Irq(Checking)], [Sched(false, Called), Irq(Checking)]}
  {
    hide Nested, CountOf, Waiting;
    var b := Below(t.stack);
    assert t.stack == b + [Irq(Checking)];
    OwnCounts();
    if t.count == 0 {
      NoneUnderCheck(t);
      if b == [] {
        assert t.stack == [Irq(Checking)];
      } else {
        assert t.stack == [Sched(false, Called), Irq(Checking)];
      }
    }
  }

  lemma OwnCounts()
    ensures CountOf([Irq(Checking)]) == 0 && CountOf([Sched(false, Called), Irq(Checking)]) == 0
  {
    hide CountOf;
    assert [] + [Irq(Checking)] == [Irq(Checking)];
    assert [] + [Sched(false, Called)] == [Sched(false, Called)];
    assert [Sched(false, Called)] + [Irq(Checking)] == [Sched(false, Called), Irq(Checking)];
    Snoc([], Irq(Checking));
    Snoc([], Sched(false, Called));
    Snoc([Sched(false, Called)], Irq(Checking));
    NoFrames();
  }

  lemma NoFrames()
    ensures CountOf([]) == 0
  {
  }

  // ----- runs without an expired tick -----

  predicate Unpreempted(s: seq<Frame>) { forall k :: 0 <= k < |s| ==> !Preempts(s[k]) }

  lemma {:induction false} UnpreemptedCount(s: seq<Frame>)
    requires Unpreempted(s)
    ensures Preemptions(s) == 0
    decreases |s|
  {
    if s != [] { UnpreemptedCount(Below(s)); }
  }

  lemma UnpreemptedStep(m: Machine, e: Event)
    requires Enabled(m, e) && !m.tasks[m.cur].needResched && Unpreempted(m.tasks[m.cur].stack)
    ensures Unpreempted(Apply(m, e).tasks[m.cur].stack)
  {
  }

  /** With no expired tick in it, a run asks nobody and preempts nobody. */
  lemma {:induction false} QuietRun(es: seq<Event>, i: nat)
    requires Runs(Boot, es) && i < |Exec(Boot, es).tasks| && Tick(true) !in es
    ensures !Exec(Boot, es).tasks[i].needResched
    ensures Unpreempted(Exec(Boot, es).tasks[i].stack) && Preemptions(Exec(Boot, es).tasks[i].stack) == 0
    decreases |es|
  {
    FlagMeans(es, i);
    if es != [] {
      var b, e := Last(es);
      RunsSnoc(Boot, b, e);
      var m := Exec(Boot, b);
      OthersKept(m, e);
      if i < |m.tasks| {
        QuietRun(b, i);
        if i == m.cur { UnpreemptedStep(m, e); }
      }
    }
    UnpreemptedCount(Exec(Boot, es).tasks[i].stack);
  }

  // ----- each expired tick pays for at most one preemption -----

  /** The calls of preempt_schedule_irq that thread i makes in a run. */
  function Started(m: Machine, es: seq<Event>, i: nat): nat
    requires Runs(m, es)
    decreases |es|
  {
    if es == [] then 0
    else (if m.cur == i && es[0] == Check && Calls(m) then 1 else 0) + Started(Apply(m, es[0]), es[1..], i)
  }

  /** The check at the end of the interrupt calls the scheduler. */
  predicate Calls(m: Machine)
    requires Enabled(m, Check)
  {
    var s := Apply(m, Check).tasks[m.cur].stack;
    s != [] && s[|s| - 1] == Sched(true, Called)
  }

  /** The ticks that end a slice of thread i in a run. */
  function Expired(m: Machine, es: seq<Event>, i: nat): nat
    requires Runs(m, es)
    decreases |es|
  {
    if es == [] then 0
    else (if m.cur == i && es[0] == Tick(true) then 1 else 0) + Expired(Apply(m, es[0]), es[1..], i)
  }

  /** A request that no preemption has answered yet. */
  function Credit(m: Machine, i: nat): nat {
    if i < |m.tasks| && m.tasks[i].needResched && !Waiting(m.tasks[i]) then 1 else 0
  }

  lemma CallsIff(m: Machine)
    requires Inv(m) && Enabled(m, Check)
    ensures var t := m.tasks[m.cur];
            && (Calls(m) <==> t.count == 0 && t.needResched)
            && (Calls(m) ==> !Waiting(t))
  {
    var t := m.tasks[m.cur];
    CheckStack(m);
    if t.count == 0 { NoneUnderCheck(t); }
  }

  lemma CreditStep(m: Machine, e: Event, i: nat)
    requires Inv(m) && Enabled(m, e)
    ensures (if m.cur == i && e == Check && Calls(m) then 1 else 0) + Credit(Apply(m, e), i)
            <= (if m.cur == i && e == Tick(true) then 1 else 0) + Credit(m, i)
  {
    FlagStep(m, e, i);
    OthersKept(m, e);
    WaitingStep(m, e);
    if e == Check { CallsIff(m); }
    hide Waiting, Apply, Calls, Enabled, Inv;
  }

  lemma {:induction false} CreditRun(m: Machine, es: seq<Event>, i: nat)
    requires Inv(m) && Runs(m, es)
    ensures Started(m, es, i) + Credit(Exec(m, es), i) <= Expired(m, es, i) + Credit(m, i)
    decreases |es|
  {
    hide Inv, Credit, Calls, Apply, Enabled;
    if es != [] {
      CreditStep(m, es[0], i);
      StepKeeps(m, es[0]);
      CreditRun(Apply(m, es[0]), es[1..], i);
    }
  }

  /** From boot no thread is preempted more often than its slices ended. */
  lemma PreemptionsPaid(es: seq<Event>, i: nat)
    requires Runs(Boot, es)
    ensures Started(Boot, es, i) <= Expired(Boot, es, i)
  {
    CreditRun(Boot, es, i);
  }

  // ----- a preemption picks -----

  /** Thread i makes no pick in this run. */
  predicate NoPick(m: Machine, es: seq<Event>, i: nat)
    requires Runs(m, es)
    decreases |es|
  {
    es == [] || (!(m.cur == i && es[0].Pick?) && NoPick(Apply(m, es[0]), es[1..], i))
  }

  lemma UnpickedStep(m: Machine, e: Event, i: nat, k: nat)
    requires Inv(m) && Enabled(m, e) && !(m.cur == i && e.Pick?)
    requires i < |m.tasks| && k < |m.tasks[i].stack| && Unpicked(m.tasks[i].stack[k])
    ensures var r := Apply(m, e);
            i < |r.tasks| && k < |r.tasks[i].stack| && Unpicked(r.tasks[i].stack[k])
  {
    OthersKept(m, e);
    if i == m.cur {
      var s := m.tasks[i].stack;
      if k < |s| - 1 { FramesStep(m, e, i, |s| - 1); }
    }
  }

  /** A call of schedule or preempt_schedule_irq stays open, whatever else runs, until its
      thread picks: until then the interrupted code does not go on. */
  lemma {:induction false} OpenUntilPick(m: Machine, es: seq<Event>, i: nat, k: nat)
    requires Inv(m) && Runs(m, es) && NoPick(m, es, i)
    requires i < |m.tasks| && k < |m.tasks[i].stack| && Unpicked(m.tasks[i].stack[k])
    ensures var r := Exec(m, es);
            i < |r.tasks| && k < |r.tasks[i].stack| && Unpicked(r.tasks[i].stack[k])
    decreases |es|
  {
    hide Inv, Apply, Enabled, Unpicked;
    if es != [] {
      UnpickedStep(m, es[0], i, k);
      StepKeeps(m, es[0]);
      OpenUntilPick(Apply(m, es[0]), es[1..], i, k);
    }
  }

  // ----- masks and counts -----

  /** Interrupts, by what the running thread is at, after any run from boot. */
  lemma MaskTable(es: seq<Event>)
    requires Runs(Boot, es)
    ensures var m := Exec(Boot, es);
            m.cur < |m.tasks| &&
            var s := m.tasks[m.cur].stack;
            && (s == [] ==> !m.masked)
            && (s != [] ==>
                  var f := s[|s| - 1];
                  && (f.Irq? || f.Birth? ==> m.masked)
                  && (f.Sched? && f.pc in {Open, Done} ==> !m.masked)
                  && (f.Sched? && f.pc in {Closed, Out, Shut} ==> m.masked)
                  && (f.Sched? && f.pc in {Called, Counted} ==> m.masked == f.preempting))
  {
    RunKeeps(Boot, es);
  }

  /** preempt_count after any run from boot: 256 inside a handler, and 1 inside schedule or
      preempt_schedule_irq from its preempt_disable to its preempt_enable. */
  lemma CountTable(es: seq<Event>, i: nat)
    requires Runs(Boot, es) && i < |Exec(Boot, es).tasks|
    ensures var t := Exec(Boot, es).tasks[i];
            t.count == (if t.stack != [] && t.stack[|t.stack| - 1] == Irq(Handling) then 256 else 0)
                       + (if Disabled(t.stack) then 1 else 0)
  {
    RunKeeps(Boot, es);
    DisabledCount(Exec(Boot, es).tasks[i].stack);
  }

  predicate Disabled(s: seq<Frame>) { exists k :: 0 <= k < |s| && s[k].Sched? && s[k].pc != Called }

  lemma DisabledSnoc(b: seq<Frame>, f: Frame)
    ensures Disabled(b + [f]) <==> Disabled(b) || (f.Sched? && f.pc != Called)
  {
    var s := b + [f];
    assert forall k :: 0 <= k < |b| ==> s[k] == b[k];
    if f.Sched? && f.pc != Called { assert s[|b|].pc != Called; }
  }

  lemma {:induction false} DisabledCount(s: seq<Frame>)
    requires Nested(s)
    ensures CountOf(s) == (if s != [] && s[|s| - 1] == Irq(Handling) then 256 else 0) + if Disabled(s) then 1 else 0
    decreases |s|
  {
    if s != [] {
      var b, f := Below(s), Top(s);
      assert s == b + [f];
      DisabledSnoc(b, f);
      DisabledCount(b);
      if f.Sched? { ScheduleGround(s); }
    }
  }

  // ----- one preemption and one call of schedule, write by write -----

  predicate Leads(m: Machine, e: Event, r: Machine) { Enabled(m, e) && Apply(m, e) == r }

  /** The events lead through these machines, one after the other. */
  predicate Path(ms: seq<Machine>, es: seq<Event>) {
    |ms| == |es| + 1 && forall k :: 0 <= k < |es| ==> Leads(ms[k], es[k], ms[k + 1])
  }

  lemma {:induction false} PathRuns(ms: seq<Machine>, es: seq<Event>)
    requires Path(ms, es)
    ensures Runs(ms[0], es) && Exec(ms[0], es) == ms[|es|]
    decreases |es|
  {
    hide Enabled, Apply;
    if es != [] {
      assert Leads(ms[0], es[0], ms[1]);
      assert forall k :: 0 <= k < |es| - 1 ==> ms[1..][k] == ms[k + 1] && es[1..][k] == es[k + 1];
      PathRuns(ms[1..], es[1..]);
    }
  }

  /** One thread with interrupts on or off, in its own code or in a call of schedule. */
  function Solo(frames: seq<Frame>, count: int, masked: bool): Machine { Alone(frames, count, false, masked) }

  const SCHEDULE: seq<Event> := [CallSchedule, Advance, Advance, Pick(0), Advance, Advance]

  const SCHEDULE_PATH: seq<Machine> := [
    Solo([], 0, false),
    Solo([Sched(false, Called)], 0, false),
    Solo([Sched(false, Open)], 1, false),    // preempt_disable
    Solo([Sched(false, Closed)], 1, true),   // raw_local_irq_disable
    Solo([Sched(false, Out)], 1, true),      // pick_next_task
    Solo([Sched(false, Done)], 1, false),    // schedule_tail
    Solo([], 0, false)]                      // preempt_enable

  /** A step of the only thread, field by field. */
  lemma LeadsAlone(m: Machine, e: Event, r: Machine)
    requires Enabled(m, e) && |m.tasks| == 1 && |r.tasks| == 1 && m.cur == r.cur == 0
    requires !e.Fork? && (e.Pick? ==> e.next == 0)
    requires var t, u := Apply(m, e).tasks[0], r.tasks[0];
             && t.stack == u.stack && t.count == u.count && t.needResched == u.needResched
             && Apply(m, e).masked == r.masked
    ensures Leads(m, e, r)
  {
    SameThread(m, e);
    OthersKept(m, e);
    assert Apply(m, e).tasks == r.tasks;
  }

  /** One point of a call of schedule to the next: preempt_count and the mask after the write. */
  lemma OwnAdvance(pc: SchedPoint)
    requires pc in {Called, Open, Out}
    ensures pc == Called ==> Leads(Solo([Sched(false, pc)], 0, false), Advance, Solo([Sched(false, Open)], 1, false))
    ensures pc == Open ==> Leads(Solo([Sched(false, pc)], 1, false), Advance, Solo([Sched(false, Closed)], 1, true))
    ensures pc == Out ==> Leads(Solo([Sched(false, pc)], 1, true), Advance, Solo([Sched(false, Done)], 1, false))
  {
    var f := Sched(false, pc);
    match pc
    case Called =>
      AloneMoves(f, Sched(false, Open));
      LeadsAlone(Solo([f], 0, false), Advance, Solo([Sched(false, Open)], 1, false));
    case Open =>
      AloneMoves(f, Sched(false, Closed));
      LeadsAlone(Solo([f], 1, false), Advance, Solo([Sched(false, Closed)], 1, true));
    case Out =>
      AloneMoves(f, Sched(false, Done));
      LeadsAlone(Solo([f], 1, true), Advance, Solo([Sched(false, Done)], 1, false));
    case _ =>
  }

  lemma OwnRest()
    ensures Leads(Solo([], 0, false), CallSchedule, Solo([Sched(false, Called)], 0, false))
    ensures Leads(Solo([Sched(false, Closed)], 1, true), Pick(0), Solo([Sched(false, Out)], 1, true))
    ensures Leads(Solo([Sched(false, Done)], 1, false), Advance, Solo([], 0, false))
  {
    LeadsAlone(Solo([], 0, false), CallSchedule, Solo([Sched(false, Called)], 0, false));
    AloneMoves(Sched(false, Closed), Sched(false, Out));
    LeadsAlone(Solo([Sched(false, Closed)], 1, true), Pick(0), Solo([Sched(false, Out)], 1, true));
    LeadsAlone(Solo([Sched(false, Done)], 1, false), Advance, Solo([], 0, false));
  }

  /** schedule() with no other task: preempt_count and the mask at every write, and the thread
      comes back as it was. */
  lemma ScheduleInFull()
    ensures Path(SCHEDULE_PATH, SCHEDULE)
    ensures Runs(Boot, SCHEDULE) && Exec(Boot, SCHEDULE) == Boot
  {
    hide Leads, Enabled, Apply;
    OwnRest();
    OwnAdvance(Called);
    OwnAdvance(Open);
    OwnAdvance(Out);
    PathRuns(SCHEDULE_PATH, SCHEDULE);
  }

  /** One thread inside a preemption of its own code. */
  function Pre(pc: SchedPoint, count: int, flag: bool, masked: bool): Machine {
    Alone([Irq(Preempting), Sched(true, pc)], count, flag, masked)
  }

  const PREEMPTION: seq<Event> := [Check, Advance, Advance, Advance, Pick(0), Advance, Advance, Advance, Return]

  const PREEMPTION_PATH: seq<Machine> := [
    Alone([Irq(Checking)], 0, true, true),
    Pre(Called, 0, true, true),
    Pre(Counted, 1, true, true),               // preempt_disable
    Pre(Open, 1, true, false),                 // raw_local_irq_enable
    Pre(Closed, 1, true, true),                // raw_local_irq_disable
    Pre(Out, 1, false, true),                  // pick_next_task, clear_task_resched
    Pre(Done, 1, false, false),                // schedule_tail
    Pre(Shut, 1, false, true),                 // raw_local_irq_disable
    Alone([Irq(Preempting)], 0, false, true),  // preempt_enable
    Alone([], 0, false, false)]                // kernel_context_res

  lemma PreStep(pc: SchedPoint, next: SchedPoint)
    ensures pc == Called && next == Counted ==> Leads(Pre(pc, 0, true, true), Advance, Pre(next, 1, true, true))
    ensures pc == Counted && next == Open ==> Leads(Pre(pc, 1, true, true), Advance, Pre(next, 1, true, false))
    ensures pc == Open && next == Closed ==> Leads(Pre(pc, 1, true, false), Advance, Pre(next, 1, true, true))
    ensures pc == Closed && next == Out ==> Leads(Pre(pc, 1, true, true), Pick(0), Pre(next, 1, false, true))
    ensures pc == Out && next == Done ==> Leads(Pre(pc, 1, false, true), Advance, Pre(next, 1, false, false))
    ensures pc == Done && next == Shut ==> Leads(Pre(pc, 1, false, false), Advance, Pre(next, 1, false, true))
  {
    AlonePushes(Irq(Preempting), Sched(true, pc), Sched(true, next));
    match pc
    case Called => if next == Counted { LeadsAlone(Pre(pc, 0, true, true), Advance, Pre(next, 1, true, true)); }
    case Counted => if next == Open { LeadsAlone(Pre(pc, 1, true, true), Advance, Pre(next, 1, true, false)); }
    case Open => if next == Closed { LeadsAlone(Pre(pc, 1, true, false), Advance, Pre(next, 1, true, true)); }
    case Closed => if next == Out { LeadsAlone(Pre(pc, 1, true, true), Pick(0), Pre(next, 1, false, true)); }
    case Out => if next == Done { LeadsAlone(Pre(pc, 1, false, true), Advance, Pre(next, 1, false, false)); }
    case Done => if next == Shut { LeadsAlone(Pre(pc, 1, false, false), Advance, Pre(next, 1, false, true)); }
    case Shut =>
  }

  lemma PreEnds()
    ensures Leads(Alone([Irq(Checking)], 0, true, true), Check, Pre(Called, 0, true, true))
    ensures Leads(Pre(Shut, 1, false, true), Advance, Alone([Irq(Preempting)], 0, false, true))
    ensures Leads(Alone([Irq(Preempting)], 0, false, true), Return, Boot)
  {
    AloneMoves(Irq(Checking), Irq(Preempting));
    LeadsAlone(Alone([Irq(Checking)], 0, true, true), Check, Pre(Called, 0, true, true));
    LeadsAlone(Pre(Shut, 1, false, true), Advance, Alone([Irq(Preempting)], 0, false, true));
    LeadsAlone(Alone([Irq(Preempting)], 0, false, true), Return, Boot);
  }

  lemma PreemptionSteps()
    ensures Path(PREEMPTION_PATH, PREEMPTION)
  {
    hide Leads, Enabled, Apply;
    PreEnds();
    PreStep(Called, Counted);
    PreStep(Counted, Open);
    PreStep(Open, Closed);
    PreStep(Closed, Out);
    PreStep(Out, Done);
    PreStep(Done, Shut);
  }

  /** The same for preempt_schedule_irq, from the check at the end of the interrupt to the
      interrupted code. */
  lemma PreemptionInFull()
    ensures Path(PREEMPTION_PATH, PREEMPTION)
    ensures Runs(PREEMPTION_PATH[0], PREEMPTION) && Exec(PREEMPTION_PATH[0], PREEMPTION) == Boot
  {
    hide Leads, Enabled, Apply, Path, Runs, Exec;
    PreemptionSteps();
    PathRuns(PREEMPTION_PATH, PREEMPTION);
  }
}
