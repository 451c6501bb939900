/** Interrupts, preemption and switches of EL1 threads as a state machine: el1_irq,
    irq_handler, preempt_schedule_irq, schedule, __schedule and ret_from_fork, one step per
    write of preempt_count, the interrupt mask or the current task. */
module Preempt {
  const HARDIRQ_OFFSET: int := 0x100

  // ----- what is on a task's kernel stack -----

  /** el1_irq: saved, inside the handler, past __irq_exit, or inside preempt_schedule_irq. */
  datatype IrqPoint = Saved | Handling | Checking | Preempting

  /** schedule and preempt_schedule_irq. `Open`: about to enter __schedule; `Closed`: its
      interrupts are off; `Out`: at the switch; `Done`: back from __schedule; `Shut`: the
      interrupts are off again. */
  datatype SchedPoint = Called | Counted | Open | Closed | Out | Done | Shut

  datatype Frame = Irq(at: IrqPoint) | Sched(preempting: bool, pc: SchedPoint) | Birth

  /** `stack` is outermost first; [] is the thread's own code, [Birth] a task that never ran. */
  datatype Thread = Thread(stack: seq<Frame>, count: int, needResched: bool)

  datatype Machine = Machine(tasks: seq<Thread>, cur: nat, masked: bool)

  function Top(s: seq<Frame>): Frame
    requires s != []
  {
    s[|s| - 1]
  }

  function Below(s: seq<Frame>): seq<Frame>
    requires s != []
  {
    s[..|s| - 1]
  }

  /** Are interrupts masked while the innermost activity is at this point? */
  predicate MaskedAt(s: seq<Frame>) {
    s != [] &&
    match Top(s)
    case Irq(_) => true
    case Birth => true
    case Sched(p, Called) => p
    case Sched(p, Counted) => p
    case Sched(_, pc) => pc == Closed || pc == Out || pc == Shut
  }

  /** What a frame has added to preempt_count and not yet taken back. */
  function Weight(f: Frame): int {
    match f
    case Irq(at) => if at == Handling then HARDIRQ_OFFSET else 0
    case Sched(_, pc) => if pc == Called then 0 else 1
    case Birth => 0
  }

  function CountOf(s: seq<Frame>): (n: int)
    ensures n >= 0
  {
    if s == [] then 0 else CountOf(Below(s)) + Weight(Top(s))
  }

  // ----- steps -----

  /** `Pick` is the choice of pick_next_task; any task may be chosen. */
  datatype Event =
    | TakeIrq | IrqEnter | Tick(expired: bool) | IrqExit | Check | Return
    | CallSchedule | Advance | Pick(next: nat) | Start | Fork

  predicate Enabled(m: Machine, e: Event) {
    m.cur < |m.tasks| &&
    var s := m.tasks[m.cur].stack;
    match e
    case TakeIrq => !m.masked
    case IrqEnter => s != [] && Top(s) == Irq(Saved)
    case Tick(_) => s != [] && Top(s) == Irq(Handling)
    case IrqExit => s != [] && Top(s) == Irq(Handling)
    case Check => s != [] && Top(s) == Irq(Checking)
    case Return => s != [] && Top(s) == Irq(Preempting)
    case CallSchedule => s == []
    case Advance => s != [] && Top(s).Sched? && Top(s).pc != Closed
    case Pick(next) => s != [] && Top(s).Sched? && Top(s).pc == Closed && next < |m.tasks|
    case Start => s == [Birth]
    case Fork => s == []
  }

  /** The thread with its innermost frame replaced and `add` added to preempt_count. */
  function Move(t: Thread, f: Frame, add: int): Thread
    requires t.stack != []
  {
    t.(stack := Below(t.stack) + [f], count := t.count + add)
  }

  function Push(t: Thread, f: Frame): Thread { t.(stack := t.stack + [f]) }

  function Pop(t: Thread, add: int): Thread
    requires t.stack != []
  {
    t.(stack := Below(t.stack), count := t.count + add)
  }

  /** One step of schedule or preempt_schedule_irq outside the pick, and the mask after it. */
  function Advanced(t: Thread, masked: bool): (Thread, bool)
    requires t.stack != [] && Top(t.stack).Sched? && Top(t.stack).pc != Closed
  {
    var f := Top(t.stack);
    match f.pc
    case Called => (Move(t, f.(pc := if f.preempting then Counted else Open), 1), masked)  // preempt_disable
    case Counted => (Move(t, f.(pc := Open), 0), false)                                   // raw_local_irq_enable
    case Open => (Move(t, f.(pc := Closed), 0), true)                                     // __schedule: irqs off
    case Out => (Move(t, f.(pc := Done), 0), false)                                       // schedule_tail
    case Done =>
      if f.preempting then (Move(t, f.(pc := Shut), 0), true)                             // raw_local_irq_disable
      else (Pop(t, -1), masked)                                                           // preempt_enable
    case Shut => (Pop(t, -1), masked)                                                     // preempt_enable
  }

  function Apply(m: Machine, e: Event): Machine
    requires Enabled(m, e)
  {
    var t := m.tasks[m.cur];
    match e
    case TakeIrq => m.(tasks := m.tasks[m.cur := Push(t, Irq(Saved))], masked := true)
    case IrqEnter => m.(tasks := m.tasks[m.cur := Move(t, Irq(Handling), HARDIRQ_OFFSET)])
    case Tick(expired) => m.(tasks := m.tasks[m.cur := t.(needResched := t.needResched || expired)])
    case IrqExit => m.(tasks := m.tasks[m.cur := Move(t, Irq(Checking), -HARDIRQ_OFFSET)])
    case Check =>
      if t.count == 0 && t.needResched then
        m.(tasks := m.tasks[m.cur := Push(Move(t, Irq(Preempting), 0), Sched(true, Called))])
      else m.(tasks := m.tasks[m.cur := Pop(t, 0)], masked := false)
    case Return => m.(tasks := m.tasks[m.cur := Pop(t, 0)], masked := false)
    case CallSchedule => m.(tasks := m.tasks[m.cur := Push(t, Sched(false, Called))])
    case Advance =>
      var (t', masked') := Advanced(t, m.masked);
      m.(tasks := m.tasks[m.cur := t'], masked := masked')
    case Pick(next) =>
      m.(tasks := m.tasks[m.cur := Move(t, Top(t.stack).(pc := Out), 0).(needResched := false)], cur := next)
    case Start => m.(tasks := m.tasks[m.cur := Pop(t, 0)], masked := false)
    case Fork => m.(tasks := m.tasks + [Thread([Birth], 0, false)])
  }

  // ----- the invariant -----

  /** Which frame can sit on which: an interrupt only on code with interrupts on, a
      preemption only on an interrupt of code with preempt_count 0. */
  predicate Sits(below: seq<Frame>, f: Frame) {
    match f
    case Birth => below == []
    case Sched(p, pc) =>
      if p then below != [] && Top(below) == Irq(Preempting) else below == [] && pc != Counted && pc != Shut
    case Irq(at) => !MaskedAt(below) && (at == Preempting ==> CountOf(below) == 0)
  }

  predicate Nested(s: seq<Frame>) {
    s == [] || (Nested(Below(s)) && Sits(Below(s), Top(s)))
  }

  /** A task that is not running has never run or is at a switch. */
  predicate Suspended(t: Thread) {
    t.stack == [Birth] || (t.stack != [] && Top(t.stack).Sched? && Top(t.stack).pc == Out)
  }

  predicate ThreadOk(t: Thread) { Nested(t.stack) && t.count == CountOf(t.stack) }

  predicate Inv(m: Machine) {
    && m.cur < |m.tasks|
    && (forall i :: 0 <= i < |m.tasks| ==> ThreadOk(m.tasks[i]))
    && (forall i :: 0 <= i < |m.tasks| && i != m.cur ==> Suspended(m.tasks[i]))
    && m.masked == MaskedAt(m.tasks[m.cur].stack)
  }

  lemma Snoc(b: seq<Frame>, f: Frame)
    ensures Below(b + [f]) == b && Top(b + [f]) == f
    ensures Nested(b + [f]) <==> Nested(b) && Sits(b, f)
    ensures CountOf(b + [f]) == CountOf(b) + Weight(f)
  {
    assert Below(b + [f]) == b;
  }

  lemma MoveNested(t: Thread, f: Frame, add: int)
    requires ThreadOk(t) && t.stack != [] && Sits(Below(t.stack), f) && add == Weight(f) - Weight(Top(t.stack))
    ensures ThreadOk(Move(t, f, add)) && Move(t, f, add).stack != [] && Top(Move(t, f, add).stack) == f
    ensures Below(Move(t, f, add).stack) == Below(t.stack)
  {
    hide Nested, CountOf, Sits, Weight;
    var b := Below(t.stack);
    assert t.stack == b + [Top(t.stack)];
    Snoc(b, Top(t.stack));
    Snoc(b, f);
  }

  lemma PushNested(t: Thread, f: Frame)
    requires ThreadOk(t) && Sits(t.stack, f) && Weight(f) == 0
    ensures ThreadOk(Push(t, f)) && Top(Push(t, f).stack) == f
  {
    hide Nested, CountOf, Sits, Weight;
    Snoc(t.stack, f);
  }

  lemma PopNested(t: Thread, add: int)
    requires ThreadOk(t) && t.stack != [] && add == -Weight(Top(t.stack))
    ensures ThreadOk(Pop(t, add))
  {
  }

  lemma MoveSched(t: Thread, f: Frame, add: int)
    requires ThreadOk(t) && t.stack != [] && Top(t.stack).Sched? && f.Sched?
             && f.preempting == Top(t.stack).preempting
    requires !f.preempting ==> f.pc != Counted && f.pc != Shut
    requires add == Weight(f) - Weight(Top(t.stack))
    ensures ThreadOk(Move(t, f, add))
    ensures MaskedAt(Move(t, f, add).stack) ==
              if f.pc == Called || f.pc == Counted then f.preempting
              else f.pc == Closed || f.pc == Out || f.pc == Shut
  {
    MoveNested(t, f, add);
  }

  lemma PopSched(t: Thread)
    requires ThreadOk(t) && t.stack != [] && Top(t.stack).Sched? && Weight(Top(t.stack)) == 1
    ensures ThreadOk(Pop(t, -1)) && MaskedAt(Pop(t, -1).stack) == Top(t.stack).preempting
  {
    PopNested(t, -1);
  }

  lemma OnlyPreemptingShuts(t: Thread)
    requires ThreadOk(t) && t.stack != [] && Top(t.stack).Sched?
    ensures Top(t.stack).pc == Counted || Top(t.stack).pc == Shut ==> Top(t.stack).preempting
  {
  }

  lemma AdvanceOk(t: Thread, masked: bool)
    requires ThreadOk(t) && t.stack != [] && Top(t.stack).Sched? && Top(t.stack).pc != Closed
    requires masked == MaskedAt(t.stack)
    ensures ThreadOk(Advanced(t, masked).0)
    ensures Advanced(t, masked).1 == MaskedAt(Advanced(t, masked).0.stack)
  {
    hide ThreadOk, Move, Pop;
    OnlyPreemptingShuts(t);
    var f := Top(t.stack);
    match f.pc {
      case Called => MoveSched(t, f.(pc := if f.preempting then Counted else Open), 1);
      case Counted => MoveSched(t, f.(pc := Open), 0);
      case Open => MoveSched(t, f.(pc := Closed), 0);
      case Out => MoveSched(t, f.(pc := Done), 0);
      case Done => if f.preempting { MoveSched(t, f.(pc := Shut), 0); } else { PopSched(t); }
      case Shut => PopSched(t);
    }
  }

  /** The running thread after a step, and the mask. */
  lemma RunningOk(m: Machine, e: Event)
    requires Inv(m) && Enabled(m, e)
    ensures ThreadOk(Apply(m, e).tasks[m.cur])
    ensures !e.Pick? ==> Apply(m, e).masked == MaskedAt(Apply(m, e).tasks[m.cur].stack)
    ensures e.Pick? ==> Suspended(Apply(m, e).tasks[m.cur]) && MaskedAt(Apply(m, e).tasks[m.cur].stack) && m.masked
  {
    hide ThreadOk, Advanced, Sits;
    var t := m.tasks[m.cur];
    match e {
      case TakeIrq => PushIrq(t);
      case IrqEnter => MoveIrq(t, Handling, HARDIRQ_OFFSET);
      case Tick(expired) => Flagged(t, t.needResched || expired);
      case IrqExit => MoveIrq(t, Checking, -HARDIRQ_OFFSET);
      case Check =>
        if t.count == 0 && t.needResched { Preempted(t); } else { PopIrq(t); }
      case Return => PopIrq(t);
      case CallSchedule => CallOk(t);
      case Advance => AdvanceOk(t, m.masked);
      case Pick(next) => PickOk(t);
      case Start => StartOk(t);
      case Fork =>
    }
  }

  lemma PushIrq(t: Thread)
    requires ThreadOk(t) && !MaskedAt(t.stack)
    ensures ThreadOk(Push(t, Irq(Saved))) && MaskedAt(Push(t, Irq(Saved)).stack)
  {
    PushNested(t, Irq(Saved));
  }

  lemma MoveIrq(t: Thread, at: IrqPoint, add: int)
    requires ThreadOk(t) && t.stack != [] && Top(t.stack).Irq? && at != Preempting
    requires add == Weight(Irq(at)) - Weight(Top(t.stack))
    ensures ThreadOk(Move(t, Irq(at), add)) && MaskedAt(Move(t, Irq(at), add).stack)
  {
    MoveNested(t, Irq(at), add);
  }

  lemma PopIrq(t: Thread)
    requires ThreadOk(t) && t.stack != [] && Top(t.stack).Irq? && Weight(Top(t.stack)) == 0
    ensures ThreadOk(Pop(t, 0)) && !MaskedAt(Pop(t, 0).stack)
  {
  }

  lemma Flagged(t: Thread, b: bool)
    requires ThreadOk(t)
    ensures ThreadOk(t.(needResched := b))
  {
  }

  lemma Preempted(t: Thread)
    requires ThreadOk(t) && t.stack != [] && Top(t.stack) == Irq(Checking) && t.count == 0
    ensures ThreadOk(Push(Move(t, Irq(Preempting), 0), Sched(true, Called)))
    ensures MaskedAt(Push(Move(t, Irq(Preempting), 0), Sched(true, Called)).stack)
  {
    MoveNested(t, Irq(Preempting), 0);
    PushNested(Move(t, Irq(Preempting), 0), Sched(true, Called));
  }

  lemma CallOk(t: Thread)
    requires ThreadOk(t) && t.stack == []
    ensures ThreadOk(Push(t, Sched(false, Called))) && !MaskedAt(Push(t, Sched(false, Called)).stack)
            && !MaskedAt(t.stack)
  {
    PushNested(t, Sched(false, Called));
  }

  lemma PickOk(t: Thread)
    requires ThreadOk(t) && t.stack != [] && Top(t.stack).Sched? && Top(t.stack).pc == Closed
    ensures var u := Move(t, Top(t.stack).(pc := Out), 0).(needResched := false);
            ThreadOk(u) && Suspended(u) && MaskedAt(u.stack) && MaskedAt(t.stack)
  {
    MoveNested(t, Top(t.stack).(pc := Out), 0);
    Flagged(Move(t, Top(t.stack).(pc := Out), 0), false);
  }

  lemma StartOk(t: Thread)
    requires ThreadOk(t) && t.stack == [Birth]
    ensures ThreadOk(Pop(t, 0)) && !MaskedAt(Pop(t, 0).stack)
  {
  }

  /** A step of the running thread is a step of that thread alone. */
  lemma OthersKept(m: Machine, e: Event)
    requires Enabled(m, e)
    ensures |Apply(m, e).tasks| >= |m.tasks|
    ensures forall i :: 0 <= i < |m.tasks| && i != m.cur ==> Apply(m, e).tasks[i] == m.tasks[i]
    ensures forall i :: |m.tasks| <= i < |Apply(m, e).tasks| ==> Apply(m, e).tasks[i] == Thread([Birth], 0, false)
    ensures Apply(m, e).cur == if e.Pick? then e.next else m.cur
  {
    hide Advanced;
  }

  lemma BirthOk()
    ensures ThreadOk(Thread([Birth], 0, false)) && Suspended(Thread([Birth], 0, false)) && MaskedAt([Birth])
  {
    var s := [Birth];
    assert Below(s) == [] && Top(s) == Birth;
  }

  lemma SuspendedMasked(t: Thread)
    requires Suspended(t)
    ensures MaskedAt(t.stack)
  {
  }

  lemma StepKeeps(m: Machine, e: Event)
    requires Inv(m) && Enabled(m, e)
    ensures Inv(Apply(m, e))
  {
    RunningOk(m, e);
    OthersKept(m, e);
    BirthOk();
    EnabledHere(m, e);
    var r := Apply(m, e);
    hide ThreadOk, Apply, Suspended, MaskedAt, Enabled;
    forall i | 0 <= i < |r.tasks| ensures ThreadOk(r.tasks[i]) && (i != r.cur ==> Suspended(r.tasks[i])) {
      if i == m.cur {
      } else if i < |m.tasks| {
        assert r.tasks[i] == m.tasks[i];
      } else {
        assert r.tasks[i] == Thread([Birth], 0, false);
      }
    }
    if e.Pick? && e.next != m.cur {
      assert r.tasks[e.next] == m.tasks[e.next];
      SuspendedMasked(m.tasks[e.next]);
    }
  }

  lemma EnabledHere(m: Machine, e: Event)
    requires Enabled(m, e)
    ensures m.cur < |m.tasks| && (e.Pick? ==> e.next < |m.tasks| && Apply(m, e).masked == m.masked)
  {
    hide Advanced;
  }

  // ----- what the invariant says -----

  function Irqs(s: seq<Frame>): nat {
    if s == [] then 0 else Irqs(Below(s)) + if Top(s).Irq? then 1 else 0
  }

  function Preemptions(s: seq<Frame>): nat {
    if s == [] then 0 else Preemptions(Below(s)) + if Top(s).Sched? && Top(s).preempting then 1 else 0
  }

  /** Interruptible code with preempt_count 0 is the thread's own, with no interrupt below. */
  lemma FreshGround(s: seq<Frame>)
    requires Nested(s) && !MaskedAt(s) && CountOf(s) == 0
    ensures s == [] || s == [Sched(false, Called)]
    ensures Irqs(s) == 0 && Preemptions(s) == 0
  {
    if s != [] {
      assert Below(s) == [] && s == Below(s) + [Top(s)];
    }
  }

  /** schedule or preempt_schedule_irq past its preempt_disable holds exactly 1, over one
      interrupt if it is preempting and none otherwise. */
  lemma ScheduleGround(s: seq<Frame>)
    requires Nested(s) && s != [] && Top(s).Sched?
    ensures CountOf(s) == if Top(s).pc == Called then 0 else 1
    ensures Irqs(s) == Preemptions(s) == if Top(s).preempting then 1 else 0
    ensures |s| <= 4
  {
    if Top(s).preempting {
      var b := Below(s);
      FreshGround(Below(b));
    }
  }

  /** No stack holds more than two interrupts, or more than one preemption. */
  lemma Depth(s: seq<Frame>)
    requires Nested(s)
    ensures Irqs(s) <= 2 && Preemptions(s) <= 1 && |s| <= 5
    ensures CountOf(s) in {0, 1, HARDIRQ_OFFSET, HARDIRQ_OFFSET + 1}
  {
    if s != [] && Top(s).Sched? {
      ScheduleGround(s);
    } else if s != [] && Top(s).Irq? && Below(s) != [] {
      ScheduleGround(Below(s));
    }
  }

  // ----- runs -----

  predicate Runs(m: Machine, es: seq<Event>)
    decreases |es|
  {
    es == [] || (Enabled(m, es[0]) && Runs(Apply(m, es[0]), es[1..]))
  }

  function Exec(m: Machine, es: seq<Event>): Machine
    requires Runs(m, es)
    decreases |es|
  {
    if es == [] then m else Exec(Apply(m, es[0]), es[1..])
  }

  lemma {:induction false} RunKeeps(m: Machine, es: seq<Event>)
    requires Inv(m) && Runs(m, es)
    ensures Inv(Exec(m, es))
    decreases |es|
  {
    if es != [] {
      StepKeeps(m, es[0]);
      RunKeeps(Apply(m, es[0]), es[1..]);
    }
  }

  /** One thread, running its own code with interrupts on. */
  const Boot: Machine := Machine([Thread([], 0, false)], 0, false)

  /** The thread is at a call of __schedule. */
  predicate Entering(t: Thread) { t.stack != [] && Top(t.stack).Sched? && Top(t.stack).pc == Open }

  /** After any run from boot, with interrupts at any time they are enabled: __schedule is
      only ever entered with preempt_count 1 and preempt_schedule_irq with 0; a switched-out
      task that has run holds 1, one that never ran holds 0; and no stack nests deeper than
      two interrupts and one preemption. */
  lemma PreemptSafety(es: seq<Event>, i: nat)
    requires Runs(Boot, es) && i < |Exec(Boot, es).tasks|
    ensures var m := Exec(Boot, es);
            var t := m.tasks[i];
            && (Entering(t) ==> i == m.cur && t.count == 1 && !m.masked)
            && (t.stack != [] && Top(t.stack) == Sched(true, Called) ==> t.count == 0)
            && (i != m.cur && t.stack != [Birth] ==>
                  t.count == 1 && t.stack != [] && Top(t.stack).Sched? && Top(t.stack).pc == Out)
            && (t.stack == [Birth] ==> t.count == 0)
            && Irqs(t.stack) <= 2 && Preemptions(t.stack) <= 1
  {
    var m := Exec(Boot, es);
    RunKeeps(Boot, es);
    var t := m.tasks[i];
    assert ThreadOk(t);
    Depth(t.stack);
    if t.stack != [] && Top(t.stack).Sched? { ScheduleGround(t.stack); }
  }

  lemma RunsFrom(m: Machine, e: Event, es: seq<Event>)
    requires Enabled(m, e) && Runs(Apply(m, e), es)
    ensures Runs(m, [e] + es) && Exec(m, [e] + es) == Exec(Apply(m, e), es)
  {
    assert ([e] + es)[1..] == es;
  }

  function Alone(s: seq<Frame>, count: int, resched: bool, masked: bool): Machine {
    Machine([Thread(s, count, resched)], 0, masked)
  }

  lemma SameThread(m: Machine, e: Event)
    requires Enabled(m, e) && |m.tasks| == 1 && !e.Fork?
    ensures Apply(m, e).tasks == [Apply(m, e).tasks[0]]
  {
    OthersKept(m, e);
  }

  lemma AloneMoves(f: Frame, g: Frame)
    ensures Below([f]) + [g] == [g]
  {
  }

  lemma AlonePushes(p: Frame, f: Frame, g: Frame)
    ensures [p] + [f] == [p, f] && Below([p, f]) + [g] == [p, g]
  {
  }

  const PREEMPTED: Frame := Irq(Preempting)

  /** The window in preempt_schedule_irq is interrupted. */
  lemma WindowInterrupted() returns (es: seq<Event>)
    ensures Runs(Alone([PREEMPTED, Sched(true, Called)], 0, true, true), es)
    ensures Exec(Alone([PREEMPTED, Sched(true, Called)], 0, true, true), es)
            == Alone([PREEMPTED, Sched(true, Open), Irq(Saved)], 1, true, true)
  {
    var m0 := Alone([PREEMPTED, Sched(true, Called)], 0, true, true);
    var m1 := Alone([PREEMPTED, Sched(true, Counted)], 1, true, true);
    var m2 := Alone([PREEMPTED, Sched(true, Open)], 1, true, false);
    AlonePushes(PREEMPTED, Sched(true, Called), Sched(true, Counted));
    AlonePushes(PREEMPTED, Sched(true, Counted), Sched(true, Open));
    assert [PREEMPTED, Sched(true, Open)] + [Irq(Saved)] == [PREEMPTED, Sched(true, Open), Irq(Saved)];
    SameThread(m0, Advance);
    SameThread(m1, Advance);
    SameThread(m2, TakeIrq);
    RunsFrom(m2, TakeIrq, []);
    RunsFrom(m1, Advance, [TakeIrq]);
    es := [Advance] + ([Advance] + [TakeIrq]);
    RunsFrom(m0, Advance, [Advance] + [TakeIrq]);
  }

  /** A tick preempts the thread. */
  lemma TickPreempts(rest: seq<Event>) returns (es: seq<Event>)
    requires Runs(Alone([PREEMPTED, Sched(true, Called)], 0, true, true), rest)
    ensures Runs(Boot, es) && Exec(Boot, es) == Exec(Alone([PREEMPTED, Sched(true, Called)], 0, true, true), rest)
  {
    hide Runs, Exec;
    var m1, m2 := Alone([Irq(Saved)], 0, false, true), Alone([Irq(Handling)], 0x100, false, true);
    var m3, m4 := Alone([Irq(Handling)], 0x100, true, true), Alone([Irq(Checking)], 0, true, true);
    AloneMoves(Irq(Saved), Irq(Handling));
    AloneMoves(Irq(Handling), Irq(Checking));
    AloneMoves(Irq(Checking), PREEMPTED);
    AlonePushes(PREEMPTED, Sched(true, Called), Irq(Saved));
    assert [] + [Irq(Saved)] == [Irq(Saved)];
    SameThread(Boot, TakeIrq);
    SameThread(m1, IrqEnter);
    SameThread(m2, Tick(true));
    SameThread(m3, IrqExit);
    SameThread(m4, Check);
    RunsFrom(m4, Check, rest);
    RunsFrom(m3, IrqExit, [Check] + rest);
    RunsFrom(m2, Tick(true), [IrqExit] + ([Check] + rest));
    RunsFrom(m1, IrqEnter, [Tick(true)] + ([IrqExit] + ([Check] + rest)));
    es := [TakeIrq] + ([IrqEnter] + ([Tick(true)] + ([IrqExit] + ([Check] + rest))));
    RunsFrom(Boot, TakeIrq, [IrqEnter] + ([Tick(true)] + ([IrqExit] + ([Check] + rest))));
  }

  /** The bounds are reached: two interrupts and a preemption on one stack. */
  lemma DepthReached()
    ensures exists es ::
              Runs(Boot, es) && Exec(Boot, es) == Alone([PREEMPTED, Sched(true, Open), Irq(Saved)], 1, true, true)
  {
    var rest := WindowInterrupted();
    var es := TickPreempts(rest);
  }

  /** While the run queue is being changed by __schedule no interrupt can be taken. */
  lemma PickUninterrupted(es: seq<Event>)
    requires Runs(Boot, es)
    ensures var m := Exec(Boot, es);
            m.cur < |m.tasks| &&
            var s := m.tasks[m.cur].stack;
            s != [] && Top(s).Sched? && (Top(s).pc == Closed || Top(s).pc == Out) ==> !Enabled(m, TakeIrq)
  {
    RunKeeps(Boot, es);
  }

  // ----- an interrupt is transparent -----

  /** Thread i keeps more than h frames until the run's last step. */
  predicate StaysAbove(m: Machine, es: seq<Event>, i: nat, h: nat)
    requires Runs(m, es)
    decreases |es|
  {
    es == [] || (i < |m.tasks| && |m.tasks[i].stack| > h && StaysAbove(Apply(m, es[0]), es[1..], i, h))
  }

  lemma {:induction false} LowerFramesKept(m: Machine, es: seq<Event>, i: nat, h: nat)
    requires Inv(m) && Runs(m, es) && i < |m.tasks| && |m.tasks[i].stack| >= h && StaysAbove(m, es, i, h)
    ensures var r := Exec(m, es);
            Inv(r) && i < |r.tasks| && |r.tasks[i].stack| >= h && r.tasks[i].stack[..h] == m.tasks[i].stack[..h]
    decreases |es|
  {
    if es != [] {
      StepKeeps(m, es[0]);
      FramesStep(m, es[0], i, h);
      LowerFramesKept(Apply(m, es[0]), es[1..], i, h);
    }
  }

  lemma FramesStep(m: Machine, e: Event, i: nat, h: nat)
    requires Enabled(m, e) && i < |m.tasks| && |m.tasks[i].stack| > h
    ensures var r := Apply(m, e);
            i < |r.tasks| && |r.tasks[i].stack| >= h && r.tasks[i].stack[..h] == m.tasks[i].stack[..h]
  {
    OthersKept(m, e);
  }

  /** Whatever happens inside an interrupt - nested interrupts, a preemption, any number of
      other threads running - once it is over the interrupted code finds its own frames and
      its preempt_count as they were; when it runs again, interrupts are on. */
  lemma InterruptTransparent(m: Machine, es: seq<Event>)
    requires Inv(m) && Runs(m, [TakeIrq] + es)
    requires var i := m.cur;
             StaysAbove(Apply(m, TakeIrq), es, i, |m.tasks[i].stack|) &&
             i < |Exec(m, [TakeIrq] + es).tasks| && |Exec(m, [TakeIrq] + es).tasks[i].stack| == |m.tasks[i].stack|
    ensures var r := Exec(m, [TakeIrq] + es);
            && r.tasks[m.cur].stack == m.tasks[m.cur].stack
            && r.tasks[m.cur].count == m.tasks[m.cur].count
            && (r.cur == m.cur ==> !r.masked)
  {
    var i, a := m.cur, Apply(m, TakeIrq);
    var h := |m.tasks[i].stack|;
    assert ([TakeIrq] + es)[1..] == es;
    StepKeeps(m, TakeIrq);
    LowerFramesKept(a, es, i, h);
    var r := Exec(m, [TakeIrq] + es);
    assert a.tasks[i].stack[..h] == m.tasks[i].stack;
    assert r.tasks[i].stack == r.tasks[i].stack[..h];
    assert ThreadOk(r.tasks[i]) && ThreadOk(m.tasks[i]);
  }
}
