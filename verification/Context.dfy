/** Registers and stacks: cpu_switch_to, the interrupt frame of el1_irq, and what a task
    finds in its registers when it runs again. */
module Context {
  import opened Bits
  import opened Translation
  import Sched
  import TaskRing

  const THREAD_CPU_CONTEXT: nat := 16
  const CONTEXT_WORDS: nat := 13
  const S_FRAME_SIZE: nat := Sched.PT_REGS_SIZE
  const S_LR: nat := 240
  const S_PC: nat := 256
  const THREAD_SIZE: nat := Sched.THREAD_SIZE

  // ----- runs of words -----

  function Store(mem: Memory, at: nat, ws: seq<Word>): Memory
    decreases |ws|
  {
    if ws == [] then mem else Store(mem[at := ws[0]], at + 8, ws[1..])
  }

  function Words(mem: Memory, at: nat, n: nat): (w: seq<Word>)
    ensures |w| == n && forall i :: 0 <= i < n ==> w[i] == Load(mem, at + 8 * i)
  {
    seq(n, i requires 0 <= i < n => Load(mem, at + 8 * i))
  }

  lemma {:induction false} StoreAppend(mem: Memory, at: nat, s: seq<Word>, t: seq<Word>)
    ensures Store(Store(mem, at, s), at + 8 * |s|, t) == Store(mem, at, s + t)
    decreases |s|
  {
    if s == [] {
      assert s + t == t;
    } else {
      StoreAppend(mem[at := s[0]], at + 8, s[1..], t);
      assert (s + t)[1..] == s[1..] + t;
    }
  }

  lemma {:induction false} LoadOutside(mem: Memory, at: nat, ws: seq<Word>, a: nat)
    requires a < at || at + 8 * |ws| <= a
    ensures Load(Store(mem, at, ws), a) == Load(mem, a)
    decreases |ws|
  {
    if ws != [] { LoadOutside(mem[at := ws[0]], at + 8, ws[1..], a); }
  }

  lemma {:induction false} LoadInside(mem: Memory, at: nat, ws: seq<Word>, i: nat)
    requires i < |ws|
    ensures Load(Store(mem, at, ws), at + 8 * i) == ws[i]
    decreases |ws|
  {
    if i == 0 {
      LoadOutside(mem[at := ws[0]], at + 8, ws[1..], at);
    } else {
      LoadInside(mem[at := ws[0]], at + 8, ws[1..], i - 1);
    }
  }

  lemma StorePair(mem: Memory, at: nat, a: Word, b: Word)
    ensures Store(mem, at, [a, b]) == mem[at := a][at + 8 := b]
    ensures Store(mem, at, [a]) == mem[at := a]
  {
    assert [a, b][1..] == [b];
    assert Store(mem[at := a], at + 8, [b]) == mem[at := a][at + 8 := b];
  }

  /** Words stored are the words read back. */
  lemma StoreThenRead(mem: Memory, at: nat, ws: seq<Word>)
    ensures Words(Store(mem, at, ws), at, |ws|) == ws
  {
    forall i | 0 <= i < |ws| ensures Words(Store(mem, at, ws), at, |ws|)[i] == ws[i] {
      LoadInside(mem, at, ws, i);
    }
  }

  lemma ReadElsewhere(mem: Memory, at: nat, ws: seq<Word>, from: nat, n: nat)
    requires from + 8 * n <= at || at + 8 * |ws| <= from
    ensures Words(Store(mem, at, ws), from, n) == Words(mem, from, n)
  {
    forall i | 0 <= i < n ensures Words(Store(mem, at, ws), from, n)[i] == Words(mem, from, n)[i] {
      LoadOutside(mem, at, ws, from + 8 * i);
    }
  }

  // ----- the processor -----

  /** x0 to x30. */
  type Registers = s: seq<Word> | |s| == 31 witness seq(31, i => 0)

  /** x19 to x29, the stack pointer and the return address. */
  function Callee(x: Registers, sp: Word): (c: seq<Word>)
    ensures |c| == CONTEXT_WORDS
  {
    x[19..30] + [sp, x[30]]
  }

  lemma CalleeAt(x: Registers, sp: Word)
    ensures forall i :: 0 <= i < 11 ==> Callee(x, sp)[i] == x[19 + i]
    ensures Callee(x, sp)[11] == sp && Callee(x, sp)[12] == x[30]
  {
  }

  lemma StoreNothing(mem: Memory, at: nat, ws: seq<Word>)
    ensures Store(mem, at, ws[..0]) == mem
  {
  }

  /** What kernel_context_save puts in an interrupt frame. */
  function FrameWords(x: Registers, sp: Word, elr: Word, spsr: Word): (w: seq<Word>)
    ensures |w| == 34
  {
    x + [sp, elr, spsr]
  }

  lemma FrameAt(x: Registers, sp: Word, elr: Word, spsr: Word)
    ensures forall i :: 0 <= i < 31 ==> FrameWords(x, sp, elr, spsr)[i] == x[i]
    ensures var w := FrameWords(x, sp, elr, spsr); w[31] == sp && w[32] == elr && w[33] == spsr
  {
  }

  lemma FrameRead(x: Registers, sp: Word, elr: Word, spsr: Word, m: Memory, at: nat)
    requires Words(m, at, 34) == FrameWords(x, sp, elr, spsr)
    ensures Words(m, at, 31) == x && Load(m, at + S_PC) == elr && Load(m, at + S_PC + 8) == spsr
  {
    var w := Words(m, at, 34);
    FrameAt(x, sp, elr, spsr);
    forall i | 0 <= i < 31 ensures Words(m, at, 31)[i] == x[i] {
      assert w[i] == x[i];
    }
    assert w[32] == elr && w[33] == spsr;
  }

  /** The cpu_context of the task record at t: x19 to x29 from byte 16 on, then sp, then lr. */
  predicate HoldsContext(m: Memory, t: nat, x: Registers, sp: Word) {
    && (forall i :: 19 <= i < 30 ==> Load(m, t + 16 + 8 * (i - 19)) == x[i])
    && Load(m, t + 104) == sp && Load(m, t + 112) == x[30]
  }

  lemma ContextStored(m: Memory, t: nat, x: Registers, sp: Word)
    ensures HoldsContext(Store(m, t + THREAD_CPU_CONTEXT, Callee(x, sp)), t, x, sp)
  {
    hide Store, Callee;
    var c, r := Callee(x, sp), Store(m, t + THREAD_CPU_CONTEXT, Callee(x, sp));
    CalleeAt(x, sp);
    forall i | 19 <= i < 30 ensures Load(r, t + 16 + 8 * (i - 19)) == x[i] {
      LoadInside(m, t + THREAD_CPU_CONTEXT, c, i - 19);
    }
    LoadInside(m, t + THREAD_CPU_CONTEXT, c, 11);
    LoadInside(m, t + THREAD_CPU_CONTEXT, c, 12);
  }

  lemma ContextRead(m: Memory, t: nat, x: Registers, sp: Word)
    requires Callee(x, sp) == Words(m, t + THREAD_CPU_CONTEXT, CONTEXT_WORDS)
    ensures HoldsContext(m, t, x, sp)
  {
    hide Callee, Load;
    CalleeAt(x, sp);
    var c := Callee(x, sp);
    forall i | 19 <= i < 30 ensures Load(m, t + 16 + 8 * (i - 19)) == x[i] {
      assert c[i - 19] == x[i];
    }
    assert c[11] == sp && c[12] == x[30];
  }

  /** The interrupt frame at `at`: x0 to x30, then sp, the return address and the state. */
  predicate HoldsFrame(m: Memory, at: nat, x: Registers, sp: Word, elr: Word, spsr: Word) {
    && (forall i :: 0 <= i < 31 ==> Load(m, at + 8 * i) == x[i])
    && Load(m, at + 248) == sp && Load(m, at + 256) == elr && Load(m, at + 264) == spsr
  }

  lemma FrameStored(m: Memory, at: nat, x: Registers, sp: Word, elr: Word, spsr: Word)
    ensures HoldsFrame(Store(m, at, FrameWords(x, sp, elr, spsr)), at, x, sp, elr, spsr)
  {
    hide Store, FrameWords;
    var w := FrameWords(x, sp, elr, spsr);
    FrameAt(x, sp, elr, spsr);
    forall i | 0 <= i < 31 ensures Load(Store(m, at, w), at + 8 * i) == x[i] {
      LoadInside(m, at, w, i);
    }
    LoadInside(m, at, w, 31);
    LoadInside(m, at, w, 32);
    LoadInside(m, at, w, 33);
  }

  class Cpu {
    var mem: Memory
    var x: Registers
    var sp: Word
    var pc: Word
    var elr: Word
    var spsr: Word
    var pstate: Word

    constructor () {
      mem, x, sp, pc, elr, spsr, pstate := map[], seq(31, i => 0), 0, 0, 0, 0, 0;
    }

    /** stp xa, xb, [x8], #16: two more words of `all`, stored from `base` on. */
    method StpPost(a: nat, b: nat, ghost m0: Memory, ghost base: nat, ghost all: seq<Word>, ghost k: nat)
      requires a < 31 && b < 31 && a != 8 && b != 8 && k + 2 <= |all| && all[k] == x[a] && all[k + 1] == x[b]
      requires x[8] as nat == base + 8 * k && base + 8 * |all| < 0x1_0000_0000_0000_0000
      requires mem == Store(m0, base, all[..k])
      modifies this`mem, this`x
      ensures mem == Store(m0, base, all[..k + 2])
      ensures x[8] as nat == base + 8 * (k + 2) && forall i :: 0 <= i < 31 && i != 8 ==> x[i] == old(x)[i]
    {
      StoreAppend(m0, base, all[..k], [x[a], x[b]]);
      StorePair(mem, x[8], x[a], x[b]);
      assert all[..k + 2] == all[..k] + [x[a], x[b]];
      mem := mem[x[8] as nat := x[a]][x[8] as nat + 8 := x[b]];
      x := x[8 := x[8] + 16];
    }

    /** ldp xa, xb, [x8], #16: words k and k + 1 from `base`. */
    method LdpPost(a: nat, b: nat, ghost base: nat, ghost k: nat)
      requires a < 31 && b < 31 && a != b && a != 8 && b != 8
      requires x[8] as nat == base + 8 * k && base + 8 * k + 16 < 0x1_0000_0000_0000_0000
      modifies this`x
      ensures x[a] == Load(mem, base + 8 * k) && x[b] == Load(mem, base + 8 * (k + 1))
      ensures x[8] as nat == base + 8 * (k + 2)
      ensures forall i :: 0 <= i < 31 && i != 8 && i != a && i != b ==> x[i] == old(x)[i]
    {
      x := x[a := Load(mem, x[8])][b := Load(mem, x[8] + 8)];
      x := x[8 := x[8] + 16];
    }

    /** The first half of cpu_switch_to: the running task's context. */
    method SaveCallee()
      requires x[0] + THREAD_SIZE < 0x1_0000_0000_0000_0000
      modifies this`mem, this`x
      ensures mem == Store(old(mem), x[0] + THREAD_CPU_CONTEXT, Callee(old(x), sp))
      ensures forall i :: 0 <= i < 31 && i != 8 && i != 9 ==> x[i] == old(x)[i]
    {
      hide Store, Callee;
      ghost var m0, base, c := mem, x[0] + THREAD_CPU_CONTEXT, Callee(x, sp);
      CalleeAt(x, sp);
      StoreNothing(mem, base, c);
      x := x[8 := x[0] + THREAD_CPU_CONTEXT];
      x := x[9 := sp];
      StpPost(19, 20, m0, base, c, 0);
      StpPost(21, 22, m0, base, c, 2);
      StpPost(23, 24, m0, base, c, 4);
      StpPost(25, 26, m0, base, c, 6);
      StpPost(27, 28, m0, base, c, 8);
      StpPost(29, 9, m0, base, c, 10);
      StoreAppend(m0, base, c[..12], [c[12]]);
      StorePair(mem, x[8], x[30], 0);
      assert c == c[..12] + [c[12]];
      mem := mem[x[8] as nat := x[30]];
    }

    /** The second half: the next task's. */
    method LoadCallee()
      requires x[1] + THREAD_SIZE < 0x1_0000_0000_0000_0000
      modifies this`x, this`sp, this`pc
      ensures Callee(x, sp) == Words(mem, old(x)[1] + THREAD_CPU_CONTEXT, CONTEXT_WORDS)
      ensures HoldsContext(mem, old(x)[1], x, sp)
      ensures pc == x[30] && forall i :: 0 <= i < 8 || 10 <= i < 19 ==> x[i] == old(x)[i]
    {
      hide Callee, Words, Load, HoldsContext;
      ghost var next := x[1];
      ghost var base := x[1] + THREAD_CPU_CONTEXT;
      x := x[8 := x[1] + THREAD_CPU_CONTEXT];
      LdpPost(19, 20, base, 0);
      LdpPost(21, 22, base, 2);
      LdpPost(23, 24, base, 4);
      LdpPost(25, 26, base, 6);
      LdpPost(27, 28, base, 8);
      LdpPost(29, 9, base, 10);
      x := x[30 := Load(mem, x[8])];
      sp := x[9];
      pc := x[30];
      CalleeAt(x, sp);
      assert Callee(x, sp) == Words(mem, base, CONTEXT_WORDS);
      ContextRead(mem, next, x, sp);
    }

    /** cpu_switch_to(prev, next): prev in x0, next in x1. The caller's registers go to prev's
        record, next's come back, and x0 still names prev. */
    method CpuSwitchTo()
      requires x[0] + THREAD_SIZE < 0x1_0000_0000_0000_0000 && x[1] + THREAD_SIZE < 0x1_0000_0000_0000_0000
      requires x[0] + THREAD_SIZE <= x[1] || x[1] + THREAD_SIZE <= x[0]
      modifies this`mem, this`x, this`sp, this`pc
      ensures mem == Store(old(mem), old(x)[0] + THREAD_CPU_CONTEXT, Callee(old(x), old(sp)))
      ensures Callee(x, sp) == Words(old(mem), old(x)[1] + THREAD_CPU_CONTEXT, CONTEXT_WORDS)
      ensures HoldsContext(mem, old(x)[0], old(x), old(sp)) && HoldsContext(old(mem), old(x)[1], x, sp)
      ensures pc == x[30] && forall i :: 0 <= i < 8 || 10 <= i < 19 ==> x[i] == old(x)[i]
    {
      hide Callee, Words, Store, HoldsContext;
      ghost var m0, next := mem, x[1];
      ContextStored(mem, x[0], x, sp);
      ReadElsewhere(mem, x[0] + THREAD_CPU_CONTEXT, Callee(x, sp), x[1] + THREAD_CPU_CONTEXT, CONTEXT_WORDS);
      SaveCallee();
      LoadCallee();
      ContextRead(m0, next, x, sp);
    }

    // ----- the interrupt frame -----

    /** The hardware's part of taking an interrupt. */
    method TakeException(vector: Word)
      modifies this`elr, this`spsr, this`pc
      ensures elr == old(pc) && spsr == old(pstate) && pc == vector
    {
      elr, spsr, pc := pc, pstate, vector;
    }

    /** stp xa, xb, [sp, #8 * k] */
    method Stp(a: nat, b: nat, k: nat, ghost m0: Memory, ghost all: seq<Word>)
      requires a < 31 && b < 31 && k + 2 <= |all| && all[k] == x[a] && all[k + 1] == x[b]
      requires mem == Store(m0, sp, all[..k])
      modifies this`mem
      ensures mem == Store(m0, sp, all[..k + 2])
    {
      StoreAppend(m0, sp, all[..k], [x[a], x[b]]);
      StorePair(mem, sp + 8 * k, x[a], x[b]);
      assert all[..k + 2] == all[..k] + [x[a], x[b]];
      mem := mem[sp + 8 * k := x[a]][sp + 8 * k + 8 := x[b]];
    }

    /** Four pairs of kernel_context_save: xk to x(k+7). */
    method StpEight(k: nat, ghost m0: Memory, ghost w: seq<Word>)
      requires k <= 16 && |w| == 34 && mem == Store(m0, sp, w[..k]) && forall i :: k <= i < k + 8 ==> w[i] == x[i]
      modifies this`mem
      ensures mem == Store(m0, sp, w[..k + 8])
    {
      hide Store;
      Stp(k, k + 1, k, m0, w);
      Stp(k + 2, k + 3, k + 2, m0, w);
      Stp(k + 4, k + 5, k + 4, m0, w);
      Stp(k + 6, k + 7, k + 6, m0, w);
    }

    /** kernel_context_save 1 */
    method KernelContextSave()
      requires sp >= S_FRAME_SIZE
      modifies this`mem, this`x, this`sp
      ensures sp == old(sp) - S_FRAME_SIZE && mem == Store(old(mem), sp, FrameWords(old(x), old(sp), elr, spsr))
      ensures sp == old(sp) - 320 && HoldsFrame(mem, sp, old(x), old(sp), elr, spsr)
    {
      hide Store, FrameWords, HoldsFrame;
      FrameStored(mem, sp - S_FRAME_SIZE, x, sp, elr, spsr);
      ghost var m0, w := mem, FrameWords(x, sp, elr, spsr);
      FrameAt(x, sp, elr, spsr);
      sp := sp - S_FRAME_SIZE;
      StoreNothing(m0, sp, w);
      StpEight(0, m0, w);
      StpEight(8, m0, w);
      StpEight(16, m0, w);
      Stp(24, 25, 24, m0, w);
      Stp(26, 27, 26, m0, w);
      Stp(28, 29, 28, m0, w);
      x := x[21 := sp + S_FRAME_SIZE];
      x := x[22 := elr];
      x := x[23 := spsr];
      Stp(30, 21, S_LR / 8, m0, w);
      Stp(22, 23, S_PC / 8, m0, w);
      assert w[..34] == w;
    }

    /** ldp xa, xb, [sp, #8 * k] */
    method Ldp(a: nat, b: nat, k: nat)
      requires a < 31 && b < 31 && a != b
      modifies this`x
      ensures x[a] == Load(mem, sp + 8 * k) && x[b] == Load(mem, sp + 8 * (k + 1))
      ensures forall i :: 0 <= i < 31 && i != a && i != b ==> x[i] == old(x)[i]
    {
      x := x[a := Load(mem, sp + 8 * k)][b := Load(mem, sp + 8 * k + 8)];
    }

    /** Four pairs of kernel_context_res: xk to x(k+7). */
    method LdpEight(k: nat)
      requires k <= 16
      modifies this`x
      ensures forall i :: 0 <= i < 31 ==> x[i] == if k <= i < k + 8 then Load(mem, sp + 8 * i) else old(x)[i]
    {
      hide Load;
      Ldp(k, k + 1, k);
      Ldp(k + 2, k + 3, k + 2);
      Ldp(k + 4, k + 5, k + 4);
      Ldp(k + 6, k + 7, k + 6);
    }

    /** kernel_context_res 1 and its eret */
    method KernelContextRes()
      requires sp + S_FRAME_SIZE < 0x1_0000_0000_0000_0000
      modifies this`x, this`sp, this`pc, this`pstate, this`elr, this`spsr
      ensures x == Words(mem, old(sp), 31) && sp == old(sp) + S_FRAME_SIZE
      ensures pc == Load(mem, old(sp) + S_PC) && pstate == Load(mem, old(sp) + S_PC + 8)
    {
      hide Words, Load;
      Ldp(21, 22, S_PC / 8);
      elr, spsr := x[21], x[22];
      LdpEight(0);
      LdpEight(8);
      LdpEight(16);
      Ldp(24, 25, 24);
      Ldp(26, 27, 26);
      Ldp(28, 29, 28);
      x := x[30 := Load(mem, sp + S_LR)];
      assert x == Words(mem, sp, 31);
      sp := sp + S_FRAME_SIZE;
      pc, pstate := elr, spsr;
    }

    /** el1_irq around a handler that may change any register and any memory but its frame:
        the interrupted code continues with every register, its stack pointer and its mask. */
    method Interrupted(vector: Word, handlerMem: Memory, handlerX: Registers, handlerElr: Word, handlerSpsr: Word)
      requires sp >= S_FRAME_SIZE
      requires Words(handlerMem, sp - S_FRAME_SIZE, 34) == FrameWords(x, sp, pc, pstate)
      modifies this
      ensures x == old(x) && sp == old(sp) && pc == old(pc) && pstate == old(pstate) && mem == handlerMem
    {
      FrameRead(x, sp, pc, pstate, handlerMem, sp - S_FRAME_SIZE);
      TakeException(vector);
      KernelContextSave();
      mem, x, elr, spsr := handlerMem, handlerX, handlerElr, handlerSpsr;
      KernelContextRes();
    }
  }

  // ----- runs of tasks, forks and switches -----

  /** get_current: the stack pointer masked. */
  function CurrentOf(sp: Word): Word { And(sp, Not(0xFFF)) }

  /** It is the start of the stack pointer's page. */
  lemma CurrentMeans(sp: Word)
    ensures CurrentOf(sp) == sp - sp % 4096
  {
    ClearLow12(sp);
  }

  predicate TaskPage(t: nat) { t % THREAD_SIZE == 0 && t + THREAD_SIZE < 0x1_0000_0000_0000_0000 }

  /** The cpu_context of the task record at t. */
  function Record(mem: Memory, t: nat): (c: seq<Word>)
    ensures |c| == CONTEXT_WORDS
  {
    Words(mem, t + THREAD_CPU_CONTEXT, CONTEXT_WORDS)
  }

  datatype Machine = Machine(mem: Memory, x: Registers, sp: Word, pc: Word, cur: nat, tasks: set<nat>)

  /** `Run`: the running task computes. `SwitchTo`: it calls switch_to. `ForkThread`: it makes
      a kernel thread fn(arg) on a new page. */
  datatype Event = Run | SwitchTo(next: nat) | ForkThread(page: nat, fn: nat, arg: nat)

  /** cpu_context in memory order. */
  function ContextWords(c: TaskRing.CpuContext): seq<nat> {
    [c.x19, c.x20, c.x21, c.x22, c.x23, c.x24, c.x25, c.x26, c.x27, c.x28, c.fp, c.sp, c.pc]
  }

  /** A task writes no other task's record; only cpu_switch_to and copy_thread write a record. */
  ghost predicate OthersSame(m: Machine, r: Machine) {
    forall t :: t in m.tasks && t != m.cur ==> Record(r.mem, t) == Record(m.mem, t)
  }

  ghost predicate Step(m: Machine, e: Event, r: Machine, retFromFork: nat) {
    match e
    case Run => r.cur == m.cur && r.tasks == m.tasks && CurrentOf(r.sp) == m.cur && OthersSame(m, r)
    case SwitchTo(next) => next in m.tasks && next != m.cur && Switched(m, next, r)
    case ForkThread(page, fn, arg) =>
      && page !in m.tasks && TaskPage(page) && OthersSame(m, r)
      && r.cur == m.cur && r.tasks == m.tasks + {page} && r.sp == m.sp
      && Record(r.mem, page) == ContextWords(Sched.ChildContext(Sched.PF_KTHREAD, fn, arg, page, retFromFork))
  }

  /** What CpuSwitchTo ensures, called with the two tasks in x0 and x1. */
  ghost predicate Switched(m: Machine, next: nat, r: Machine) {
    && r.mem == Store(m.mem, m.cur + THREAD_CPU_CONTEXT, Callee(m.x, m.sp))
    && Callee(r.x, r.sp) == Record(m.mem, next)
    && r.pc == r.x[30] && r.x[0] == m.cur && r.cur == next && r.tasks == m.tasks
  }

  /** Each task's stack pointer, live or saved, is on its own page. */
  ghost predicate Inv(m: Machine) {
    && m.cur in m.tasks && CurrentOf(m.sp) == m.cur
    && (forall t :: t in m.tasks ==> TaskPage(t))
    && (forall t :: t in m.tasks && t != m.cur ==> CurrentOf(Record(m.mem, t)[11]) == t)
  }

  lemma PagesApart(t: nat, u: nat)
    requires TaskPage(t) && TaskPage(u) && t != u
    ensures t + THREAD_SIZE <= u || u + THREAD_SIZE <= t
  {
  }

  /** Storing a record at one task leaves the record of another as it is. */
  lemma RecordApart(mem: Memory, t: nat, u: nat, w: seq<Word>)
    requires TaskPage(t) && TaskPage(u) && t != u && |w| == CONTEXT_WORDS
    ensures Record(Store(mem, t + THREAD_CPU_CONTEXT, w), u) == Record(mem, u)
  {
    hide TaskPage;
    PagesApart(t, u);
    ReadElsewhere(mem, t + THREAD_CPU_CONTEXT, w, u + THREAD_CPU_CONTEXT, CONTEXT_WORDS);
  }

  lemma RecordStored(mem: Memory, t: nat, w: seq<Word>)
    requires |w| == CONTEXT_WORDS
    ensures Record(Store(mem, t + THREAD_CPU_CONTEXT, w), t) == w
  {
    StoreThenRead(mem, t + THREAD_CPU_CONTEXT, w);
  }

  /** A switch writes the record of the task that leaves and no other. */
  lemma SwitchRecords(m: Machine, next: nat, r: Machine)
    requires Inv(m) && next in m.tasks && next != m.cur && Switched(m, next, r)
    ensures Record(r.mem, m.cur) == Callee(m.x, m.sp) && OthersSame(m, r)
  {
    hide Record, TaskPage;
    var w := Callee(m.x, m.sp);
    RecordStored(m.mem, m.cur, w);
    forall t | t in m.tasks && t != m.cur ensures Record(r.mem, t) == Record(m.mem, t) {
      RecordApart(m.mem, m.cur, t, w);
    }
  }

  /** switch_to on the processor: the two tasks go into x0 and x1, and the routine's effect is
      a `SwitchTo` step. */
  method SwitchOn(cpu: Cpu, next: Word, ghost m: Machine) returns (ghost r: Machine)
    requires Inv(m) && next in m.tasks && next != m.cur
    requires cpu.mem == m.mem && cpu.x == m.x && cpu.sp == m.sp
    modifies cpu
    ensures r == Machine(cpu.mem, cpu.x, cpu.sp, cpu.pc, next, m.tasks) && Switched(m, next, r)
    ensures forall ret :: Step(m, SwitchTo(next), r, ret)
  {
    PagesApart(next, m.cur);
    CurrentKnown(m);
    var prev := CurrentOf(cpu.sp);
    cpu.x := cpu.x[0 := prev][1 := next];
    SameCallee(m.x, cpu.x, cpu.sp);
    cpu.CpuSwitchTo();
    r := Machine(cpu.mem, cpu.x, cpu.sp, cpu.pc, next, m.tasks);
  }

  lemma SameCallee(x: Registers, y: Registers, sp: Word)
    requires forall i :: 19 <= i < 31 ==> x[i] == y[i]
    ensures Callee(x, sp) == Callee(y, sp)
  {
  }

  lemma NewStack(page: nat)
    requires TaskPage(page)
    ensures CurrentOf(page + THREAD_SIZE - S_FRAME_SIZE) == page
  {
    hide And;
    var sp := page + THREAD_SIZE - S_FRAME_SIZE;
    DivisionParts(page, 0x1000);
    Quotient(sp, 0x1000, page / 0x1000, THREAD_SIZE - S_FRAME_SIZE);
    ClearLow12(sp);
  }

  lemma StepKeeps(m: Machine, e: Event, r: Machine, ret: nat)
    requires Inv(m) && Step(m, e, r, ret)
    ensures Inv(r) && m.tasks <= r.tasks
  {
    hide CurrentOf, Store, Callee, Words, TaskPage;
    match e {
      case Run =>
      case SwitchTo(next) =>
        SwitchRecords(m, next, r);
        CalleeAt(m.x, m.sp);
        CalleeAt(r.x, r.sp);
      case ForkThread(page, fn, arg) =>
        NewStack(page);
    }
  }

  ghost predicate Trace(ms: seq<Machine>, es: seq<Event>, ret: nat) {
    |ms| == |es| + 1 && Inv(ms[0]) && forall i :: 0 <= i < |es| ==> Step(ms[i], es[i], ms[i + 1], ret)
  }

  lemma {:induction false} TraceKeeps(ms: seq<Machine>, es: seq<Event>, ret: nat, i: nat, j: nat)
    requires Trace(ms, es, ret) && i <= j < |ms|
    ensures Inv(ms[j]) && ms[i].tasks <= ms[j].tasks
    decreases j
  {
    hide Inv, Step;
    if j > 0 {
      TraceKeeps(ms, es, ret, if i < j then i else j - 1, j - 1);
      StepKeeps(ms[j - 1], es[j - 1], ms[j], ret);
    }
  }

  /** While a task is not running nothing changes its saved context. */
  lemma {:induction false} RecordKept(ms: seq<Machine>, es: seq<Event>, ret: nat, i: nat, j: nat, a: nat)
    requires Trace(ms, es, ret) && i <= j < |ms| && a in ms[i].tasks
    requires forall k :: i <= k <= j ==> ms[k].cur != a
    ensures Record(ms[j].mem, a) == Record(ms[i].mem, a)
    decreases j
  {
    hide Record, Switched, Inv;
    if i < j {
      RecordKept(ms, es, ret, i, j - 1, a);
      TraceKeeps(ms, es, ret, i, j - 1);
      assert Step(ms[j - 1], es[j - 1], ms[j], ret);
      if es[j - 1].SwitchTo? { SwitchRecords(ms[j - 1], es[j - 1].next, ms[j]); }
    }
  }

  /** Context-switch refinement: a task that left at step i and is next switched to at step j
      finds x19 to x29, its stack pointer and its return address as they were when it left,
      x0 naming the task that left for it, and itself as current. */
  lemma ResumesExactly(ms: seq<Machine>, es: seq<Event>, ret: nat, i: nat, j: nat)
    requires Trace(ms, es, ret) && i < j < |es| && es[i].SwitchTo? && es[j] == SwitchTo(ms[i].cur)
    requires forall k :: i < k <= j ==> ms[k].cur != ms[i].cur
    ensures var a, r := ms[i].cur, ms[j + 1];
            && Callee(r.x, r.sp) == Callee(ms[i].x, ms[i].sp) && r.pc == ms[i].x[30]
            && (forall k :: 19 <= k < 31 ==> r.x[k] == ms[i].x[k]) && r.sp == ms[i].sp
            && r.x[0] == ms[j].cur && r.cur == a == CurrentOf(r.sp)
  {
    hide Callee, Record, Inv, CurrentOf;
    var a := ms[i].cur;
    TraceKeeps(ms, es, ret, i, i);
    TraceKeeps(ms, es, ret, j + 1, j + 1);
    CurrentKnown(ms[i]);
    CurrentKnown(ms[j + 1]);
    assert Step(ms[i], es[i], ms[i + 1], ret) && Step(ms[j], es[j], ms[j + 1], ret);
    SwitchRecords(ms[i], es[i].next, ms[i + 1]);
    RecordKept(ms, es, ret, i + 1, j, a);
    SameRegisters(ms[i].x, ms[i].sp, ms[j + 1].x, ms[j + 1].sp);
  }

  lemma SameRegisters(x: Registers, sp: Word, y: Registers, sp': Word)
    requires Callee(x, sp) == Callee(y, sp')
    ensures sp == sp' && forall k :: 19 <= k < 31 ==> x[k] == y[k]
  {
    hide Callee;
    CalleeAt(x, sp);
    CalleeAt(y, sp');
    forall k | 19 <= k < 31 ensures x[k] == y[k] {
      if k < 30 { assert Callee(x, sp)[k - 19] == Callee(y, sp')[k - 19]; }
    }
  }

  lemma CurrentKnown(m: Machine)
    requires Inv(m)
    ensures m.cur in m.tasks && CurrentOf(m.sp) == m.cur
  {
  }

  /** A new kernel thread, first switched to at step j, starts at ret_from_fork on its own
      stack with its function in x19 and the argument in x20. */
  lemma NewThreadStarts(ms: seq<Machine>, es: seq<Event>, ret: nat, i: nat, j: nat, page: nat, fn: nat, arg: nat)
    requires Trace(ms, es, ret) && i < j < |es| && es[i] == ForkThread(page, fn, arg) && es[j] == SwitchTo(page)
    requires forall k :: i < k <= j ==> ms[k].cur != page
    ensures var r := ms[j + 1];
            && r.pc == ret && r.x[19] == fn && r.x[20] == arg && r.sp == page + 4096 - 320
            && r.x[0] == ms[j].cur && r.cur == page == CurrentOf(r.sp)
  {
    hide Callee, Record, Inv, CurrentOf;
    assert Step(ms[i], es[i], ms[i + 1], ret) && Step(ms[j], es[j], ms[j + 1], ret);
    TraceKeeps(ms, es, ret, j + 1, j + 1);
    CurrentKnown(ms[j + 1]);
    RecordKept(ms, es, ret, i + 1, j, page);
    var r := ms[j + 1];
    CalleeAt(r.x, r.sp);
    assert Callee(r.x, r.sp)[0] == r.x[19] && Callee(r.x, r.sp)[1] == r.x[20];
  }
}
