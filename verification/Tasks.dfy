/** Round-robin switching between kernel stacks (src/multitasking.c, src/multitask.asm). */
module Tasks {

  const MAX_TASKS := 256
  const KSTACK_SIZE := 4096
  const KERNEL_CS := 0x8
  const KERNEL_DS := 0x10
  const USER_CS := 0x18
  const USER_DS := 0x20
  const EFLAGS := 0x200
  const INIT_WORDS := 11       // words of NewTaskInitStack

  /** 32-bit words by address. Nothing is known of a word that was never stored. */
  type Memory = map<nat, nat>

  function Word(mem: Memory, a: nat): nat {
    if a in mem then mem[a] else 0
  }

  /** What switch_context leaves on a stack, lowest address first. */
  datatype Frame = Frame(ebp: nat, edi: nat, esi: nat, ebx: nat, ret: nat)

  function FrameAt(mem: Memory, k: nat): Frame {
    Frame(Word(mem, k), Word(mem, k + 4), Word(mem, k + 8), Word(mem, k + 12), Word(mem, k + 16))
  }

  /** What a task has when it stops running: registers, return address, the stack pointer after
      the return, and the memory. */
  datatype Context = Context(frame: Frame, esp: nat, mem: Memory)

  /** Everything in the processor that running code can change. */
  datatype Registers = Registers(esp: nat, ebx: nat, esi: nat, edi: nat, ebp: nat, eip: nat, ds: nat, ss: nat, cs: nat,
                                 eflags: nat)

  /** What the running code does next: it computes, which leaves words in memory and values in the
      registers, or it calls schedule. */
  datatype Step = Compute(writes: seq<(nat, nat)>, regs: Registers) | Yield

  function WithWords(mem: Memory, writes: seq<(nat, nat)>): Memory
    decreases |writes|
  {
    if writes == [] then mem
    else var n := |writes| - 1; WithWords(mem, writes[..n])[writes[n].0 := writes[n].1]
  }

  lemma {:induction false} WordsSpare(mem: Memory, writes: seq<(nat, nat)>, t: Task)
    requires forall k :: 0 <= k < |writes| ==> !InStack(t, writes[k].0)
    ensures Spares(mem, WithWords(mem, writes), t)
    decreases |writes|
  {
    if writes != [] {
      WordsSpare(mem, writes[..|writes| - 1], t);
    }
  }

  class Task {
    var kstack: nat
    const bottom: nat          // kstack_bottom: the end of the stack's memory, where it begins

    constructor (kstack: nat, bottom: nat)
      ensures this.kstack == kstack && this.bottom == bottom
    {
      this.kstack, this.bottom := kstack, bottom;
    }
  }

  predicate InStack(t: Task, a: nat) {
    t.bottom <= a + KSTACK_SIZE && a < t.bottom
  }

  /** Where a stack pointer may be; above the last word when the stack is empty. */
  predicate OnStack(t: Task, esp: nat) {
    t.bottom <= esp + KSTACK_SIZE && esp <= t.bottom
  }

  predicate StacksApart(s: Task, t: Task) {
    s.bottom + KSTACK_SIZE <= t.bottom || t.bottom + KSTACK_SIZE <= s.bottom
  }

  /** The stack of a task that is not running holds what it had when it stopped. */
  ghost predicate Suspended(mem: Memory, t: Task, c: Context)
    reads t
  {
    && t.kstack % 4 == 0 && InStack(t, t.kstack) && t.kstack + 20 == c.esp <= t.bottom
    && FrameAt(mem, t.kstack) == c.frame
    && forall a :: c.esp <= a < t.bottom && a % 4 == 0 ==> Word(mem, a) == Word(c.mem, a)
  }

  /** Only words outside the stack of `t` were stored. */
  ghost predicate Spares(mem: Memory, mem': Memory, t: Task) {
    forall a :: InStack(t, a) ==> Word(mem', a) == Word(mem, a)
  }

  lemma StillSuspended(mem: Memory, mem': Memory, t: Task, c: Context)
    requires Suspended(mem, t, c) && Spares(mem, mem', t)
    ensures Suspended(mem', t, c)
  {
    assert InStack(t, t.kstack + 4) && InStack(t, t.kstack + 8) && InStack(t, t.kstack + 12)
        && InStack(t, t.kstack + 16);
  }

  // ---- who is next ----

  /** multitasking.c:75-76 */
  function Next(current: int, n: nat): nat
    requires n > 0 && -1 <= current < n
  {
    if current + 1 >= n then (current + 1) % n else current + 1
  }

  function After(current: int, n: nat, k: nat): int
    requires n > 0 && -1 <= current < n
    ensures -1 <= After(current, n, k) < n
  {
    if k == 0 then current else Next(After(current, n, k - 1), n)
  }

  /** The turn moves on by one task a switch, and from the last one back to the first. */
  lemma {:induction false} AfterIs(current: int, n: nat, k: nat)
    requires n > 0 && -1 <= current < n && 1 <= k <= n
    ensures After(current, n, k) == if current + k < n then current + k else current + k - n
    decreases k
  {
    assert n % n == 0;
    if k > 1 {
      AfterIs(current, n, k - 1);
    }
  }

  /** Any `n` switches in a row, with `n` tasks, choose each task exactly once. */
  lemma RoundRobin(current: int, n: nat, i: nat)
    requires n > 0 && -1 <= current < n && i < n
    ensures exists k :: 1 <= k <= n && After(current, n, k) == i
    ensures forall k, l :: 1 <= k <= n && 1 <= l <= n && After(current, n, k) == i && After(current, n, l) == i ==>
      k == l
  {
    var k := if i > current then i - current else i - current + n;
    AfterIs(current, n, k);
    forall l | 1 <= l <= n && After(current, n, l) == i
      ensures l == k
    {
      AfterIs(current, n, l);
    }
  }

  // ---- the machine ----

  /** The processor, the memory and the scheduler's globals. `boot` stands for what `old` points to
      on the first switch, when the source has not set it. */
  class Machine {
    var mem: Memory
    var esp: nat
    var ebx: nat
    var esi: nat
    var edi: nat
    var ebp: nat
    var eip: nat
    var ds: nat
    var ss: nat
    var cs: nat
    var eflags: nat
    var esp0: nat                // in the task state segment
    var tasks: seq<Task>
    var currentTask: int
    const boot: Task
    ghost var saved: seq<Context>

    constructor (boot: Task, mem: Memory, esp: nat)
      requires OnStack(boot, esp) && esp % 4 == 0
      ensures Valid() && tasks == [] && currentTask == -1 && this.boot == boot && this.mem == mem && this.esp == esp
    {
      this.boot, this.mem, this.esp := boot, mem, esp;
      tasks, currentTask, saved := [], -1, [];
    }

    ghost predicate Disjoint()
      reads this
    {
      && (forall i :: 0 <= i < |tasks| ==> tasks[i] != boot && StacksApart(boot, tasks[i]))
      && (forall i, j :: 0 <= i < j < |tasks| ==> tasks[i] != tasks[j] && StacksApart(tasks[i], tasks[j]))
    }

    /** Every task but number `c` is suspended. */
    ghost predicate OthersSuspended(c: int)
      reads this, tasks
    {
      && |tasks| <= MAX_TASKS && |saved| == |tasks| && -1 <= c < |tasks| && Disjoint()
      && forall i :: 0 <= i < |tasks| && i != c ==> Suspended(mem, tasks[i], saved[i])
    }

    ghost predicate Valid()
      reads this, tasks
    {
      OthersSuspended(currentTask) && esp % 4 == 0 && OnStack(Running(), esp)
    }

    function TaskAt(c: int): Task
      requires -1 <= c < |tasks|
      reads this
    {
      if c < 0 then boot else tasks[c]
    }

    function Running(): Task
      requires -1 <= currentTask < |tasks|
      reads this
    {
      TaskAt(currentTask)
    }

    function Now(): Registers
      reads this
    {
      Registers(esp, ebx, esi, edi, ebp, eip, ds, ss, cs, eflags)
    }

    /** The running code does what it likes on its own stack and anywhere outside the others'. In
        between it may be in user mode, be interrupted and return; at the end it stands in the
        kernel, on its kernel stack. */
    method Work(mem': Memory, r: Registers)
      requires Valid() && r.esp % 4 == 0 && OnStack(Running(), r.esp)
      requires forall i :: 0 <= i < |tasks| && i != currentTask ==> Spares(mem, mem', tasks[i])
      modifies this`mem, this`esp, this`ebx, this`esi, this`edi, this`ebp, this`eip, this`ds, this`ss, this`cs,
               this`eflags
      ensures Valid() && mem == mem' && Now() == r
    {
      hide Suspended, Spares, StacksApart;
      forall i | 0 <= i < |tasks| && i != currentTask
        ensures Suspended(mem', tasks[i], saved[i])
      {
        StillSuspended(mem, mem', tasks[i], saved[i]);
      }
      mem := mem';
      LoadAll(r);
    }

    method LoadAll(r: Registers)
      modifies this`esp, this`ebx, this`esi, this`edi, this`ebp, this`eip, this`ds, this`ss, this`cs, this`eflags
      ensures Now() == r && esp == r.esp
    {
      esp, ebx, esi, edi, ebp, eip := r.esp, r.ebx, r.esi, r.edi, r.ebp, r.eip;
      ds, ss, cs, eflags := r.ds, r.ss, r.cs, r.eflags;
    }

    method Push(v: nat)
      requires esp >= 4
      modifies this`mem, this`esp
      ensures esp == old(esp) - 4 && mem == old(mem)[esp := v]
    {
      esp := esp - 4;
      mem := mem[esp := v];
    }

    method Pop() returns (v: nat)
      modifies this`esp
      ensures v == Word(mem, old(esp)) && esp == old(esp) + 4
    {
      v := Word(mem, esp);
      esp := esp + 4;
    }

    /** multitask.asm:11-19 */
    method Save(from: Task)
      requires esp >= 16
      modifies this`mem, this`esp, from`kstack
      ensures esp == from.kstack == old(esp) - 16
      ensures mem == Pushed(old(mem), old(esp), ebx, esi, edi, ebp)
    {
      Push(ebx);
      Push(esi);
      Push(edi);
      Push(ebp);
      from.kstack := esp;
    }

    /** multitask.asm:20-30 */
    method Load(to: Task)
      modifies this`esp, this`ebx, this`esi, this`edi, this`ebp, this`eip
      ensures esp == to.kstack + 20 && Frame(ebp, edi, esi, ebx, eip) == FrameAt(mem, to.kstack)
    {
      esp := to.kstack;
      ebp := Pop();
      edi := Pop();
      esi := Pop();
      ebx := Pop();
      eip := Pop();
    }

    /** multitask.asm:4-30, from its first instruction, when `esp` is where the return address is. */
    method SwitchContext(from: Task, to: Task)
      requires esp >= 16
      modifies this`mem, this`esp, this`ebx, this`esi, this`edi, this`ebp, this`eip, from`kstack
      ensures from.kstack == old(esp) - 16
      ensures mem == Pushed(old(mem), old(esp), old(ebx), old(esi), old(edi), old(ebp))
      ensures Word(mem, old(esp) - 4) == old(ebx) && Word(mem, old(esp) - 8) == old(esi)
      ensures Word(mem, old(esp) - 12) == old(edi) && Word(mem, old(esp) - 16) == old(ebp)
      ensures ebp == Word(mem, to.kstack) && edi == Word(mem, to.kstack + 4) && esi == Word(mem, to.kstack + 8)
      ensures ebx == Word(mem, to.kstack + 12) && eip == Word(mem, to.kstack + 16)
      ensures esp == to.kstack + 20 && Frame(ebp, edi, esi, ebx, eip) == FrameAt(mem, to.kstack)
    {
      Save(from);
      Load(to);
    }

    /** What the running code will find again: it has called schedule and is about to leave. */
    ghost function Leaving(): Context
      reads this
    {
      Context(Frame(ebp, edi, esi, ebx, Word(mem, esp)), esp + 4, mem)
    }

    /** There is room on the running task's stack for what a switch leaves there. */
    predicate CanYield()
      requires -1 <= currentTask < |tasks|
      reads this, boot, tasks
    {
      OnStack(Running(), esp + 4) && esp >= 16 && OnStack(Running(), esp - 16)
    }

    /** multitasking.c:64-80. The next task in turn goes on with exactly what it had when it
        stopped: registers, return address, stack pointer and everything on its stack. */
    method Schedule()
      requires Valid() && CanYield()
      modifies this, boot, tasks
      ensures Valid() && tasks == old(tasks) && forall i :: 0 <= i < |tasks| ==> tasks[i].bottom == old(tasks[i].bottom)
      ensures tasks == [] ==>
        currentTask == old(currentTask) && mem == old(mem) && esp == old(esp) && saved == old(saved)
      ensures tasks != [] ==>
        && currentTask == Next(old(currentTask), |tasks|)
        && saved == (if old(currentTask) < 0 then old(saved) else old(saved)[old(currentTask) := old(Leaving())])
        && Goes(saved[currentTask], tasks[currentTask]) && esp0 == tasks[currentTask].bottom
    {
      hide Suspended, StacksApart, FrameAt, Word, Spares;
      if tasks == [] {
        return;
      }
      ghost var c := currentTask;
      var was := if currentTask >= 0 then tasks[currentTask] else boot;
      currentTask := Next(currentTask, |tasks|);
      var next := tasks[currentTask];
      esp0 := next.bottom;
      Switch(was, next, c);
      Resumed(next);
    }

    /** The processor stands where `c` says, with what `c` had on the stack of `t`. */
    ghost predicate Goes(c: Context, t: Task)
      reads this
    {
      && Frame(ebp, edi, esi, ebx, eip) == c.frame && esp == c.esp
      && forall a :: esp <= a < t.bottom && a % 4 == 0 ==> Word(mem, a) == Word(c.mem, a)
    }

    ghost predicate AllSuspended()
      reads this, tasks
    {
      |saved| == |tasks| && forall i :: 0 <= i < |tasks| ==> Suspended(mem, tasks[i], saved[i])
    }

    /** The switch itself (multitask.asm:4-30), and what it is remembered by: while nobody has the
        stack pointer, every task is suspended, the one that has just left too. */
    method Switch(was: Task, next: Task, ghost c: int)
      requires OthersSuspended(c) && was == TaskAt(c) && esp % 4 == 0
      requires OnStack(was, esp + 4) && esp >= 16 && OnStack(was, esp - 16)
      modifies this`mem, this`esp, this`ebx, this`esi, this`edi, this`ebp, this`eip, this`saved, was`kstack
      ensures AllSuspended() && Disjoint()
      ensures saved == if c < 0 then old(saved) else old(saved)[c := old(Leaving())]
      ensures esp == next.kstack + 20 && Frame(ebp, edi, esi, ebx, eip) == FrameAt(mem, next.kstack)
    {
      ghost var m0, r0, leaving := mem, Now(), Leaving();
      LeavesSuspended(was, leaving, m0, esp, ebx, esi, edi, ebp);
      SwitchContext(was, next);
      if c >= 0 {
        saved := saved[c := leaving];
      }
      hide Pushed, FrameAt, StacksApart, Spares;
      forall i | 0 <= i < |tasks|
        ensures Suspended(mem, tasks[i], saved[i])
      {
        if i != c {
          assert tasks[i] != was && StacksApart(was, tasks[i]) by {
            ApartFrom(was, c, i);
          }
          PushedSpares(m0, r0.esp, r0.ebx, r0.esi, r0.edi, r0.ebp, was, tasks[i]);
          assert old(Suspended(mem, tasks[i], saved[i]));
          hide Suspended;
          StillSuspended(m0, mem, tasks[i], saved[i]);
        }
      }
    }

    lemma ApartFrom(was: Task, c: int, i: nat)
      requires Disjoint() && -1 <= c < |tasks| && was == TaskAt(c) && i < |tasks| && i != c
      ensures tasks[i] != was && StacksApart(was, tasks[i])
    {
    }

    lemma Resumed(t: Task)
      requires AllSuspended() && Disjoint() && |tasks| <= MAX_TASKS && 0 <= currentTask < |tasks|
      requires t == tasks[currentTask]
      requires esp == t.kstack + 20 && Frame(ebp, edi, esi, ebx, eip) == FrameAt(mem, t.kstack)
      ensures Valid() && Goes(saved[currentTask], t)
    {
      assert Suspended(mem, t, saved[currentTask]);
    }

    /** multitask.asm:36-52: what a new task does first. Returning to user mode, iret takes the stack
        pointer and the stack segment from the stack as well. */
    method NewTaskSetup()
      modifies this`esp, this`ds, this`ss, this`ebx, this`esi, this`edi, this`ebp, this`eip, this`cs, this`eflags
      ensures ds == Word(mem, old(esp)) % 0x1_0000 && ebx == esi == edi == ebp == 0
      ensures eip == Word(mem, old(esp) + 4) && cs == Word(mem, old(esp) + 8) && eflags == Word(mem, old(esp) + 12)
      ensures if cs % 4 == 3 then esp == Word(mem, old(esp) + 16) && ss == Word(mem, old(esp) + 20)
              else esp == old(esp) + 16 && ss == old(ss)
    {
      hide *;
      ebx := Pop();
      ds := ebx % 0x1_0000;
      ebx, esi, edi, ebp := 0, 0, 0, 0;
      Iret();
    }

    /** The return from an interrupt: to user mode with the stack that was in use there. */
    method Iret()
      modifies this`esp, this`ss, this`eip, this`cs, this`eflags
      ensures eip == Word(mem, old(esp)) && cs == Word(mem, old(esp) + 4) && eflags == Word(mem, old(esp) + 8)
      ensures if cs % 4 == 3 then esp == Word(mem, old(esp) + 12) && ss == Word(mem, old(esp) + 16)
              else esp == old(esp) + 12 && ss == old(ss)
    {
      hide *;
      eip := Pop();
      cs := Pop();
      eflags := Pop();
      if cs % 4 == 3 {
        var user := Pop();
        ss := Pop();
        esp := user;
      }
    }

    /** multitasking.c:53-59. */
    method AddTask(t: Task, ghost c: Context) returns (ok: bool)
      requires Valid() && Suspended(mem, t, c)
      requires t != boot && StacksApart(boot, t)
      requires forall i :: 0 <= i < |tasks| ==> tasks[i] != t && StacksApart(tasks[i], t)
      modifies this`tasks, this`saved
      ensures Valid() && ok == (|old(tasks)| < 256)
      ensures tasks == (if ok then old(tasks) + [t] else old(tasks))
      ensures saved == (if ok then old(saved) + [c] else old(saved))
    {
      if |tasks| >= MAX_TASKS {
        return false;
      }
      tasks := tasks + [t];
      saved := saved + [c];
      ok := true;
    }

    /** multitasking.c:11-43: the first stack of a new task, written to memory that no task uses. */
    method CreateTask(callback: nat, userStack: nat, kernelStack: nat, isKernelTask: bool, newTaskSetup: nat)
      returns (t: Task, ghost c: Context)
      requires Valid() && kernelStack % 4 == 0 && kernelStack >= KSTACK_SIZE && userStack >= 4
      requires forall i :: 0 <= i < |tasks| ==>
        tasks[i].bottom <= kernelStack - KSTACK_SIZE || kernelStack + KSTACK_SIZE <= tasks[i].bottom
      requires !isKernelTask ==> forall i :: 0 <= i < |tasks| ==> !InStack(tasks[i], userStack - 4)
      requires !isKernelTask ==> !(kernelStack - KSTACK_SIZE <= userStack - 4 < kernelStack)
      modifies this`mem, this`esp, this`ebx, this`esi, this`edi, this`ebp, this`eip, this`ds, this`ss, this`cs,
               this`eflags
      ensures Now() == old(Now())
      ensures Valid() && fresh(t) && t.bottom == kernelStack && Suspended(mem, t, c)
      ensures c == NewContext(mem, newTaskSetup, kernelStack)
      ensures t.kstack == kernelStack - 44 && c.esp == kernelStack - 24 && Word(mem, kernelStack - 28) == newTaskSetup
      ensures Prepared(mem, c.esp, callback, if isKernelTask then userStack else userStack - 4, isKernelTask)
      ensures !isKernelTask ==> Word(mem, userStack - 4) == 0
    {
      hide *;
      var user := userStack;
      var m := mem;
      if !isKernelTask {
        user := user - 4;
        m := m[user := 0];
      }
      var kesp := InitialPointer(kernelStack);
      var m' := WithInitStack(m, kesp, newTaskSetup, callback, user, isKernelTask);
      InitStackHolds(mem, m, m', userStack, kernelStack, isKernelTask, newTaskSetup, callback, user);
      t := new Task(kesp, kernelStack);
      c := NewContext(m', newTaskSetup, kernelStack);
      ContextPlace(m', newTaskSetup, kernelStack);
      NewTaskSuspended(m', t, c, newTaskSetup);
      OthersSpared(mem, m', kernelStack, userStack, isKernelTask);
      NowIs();
      Work(m', Now());
    }

    lemma NowIs()
      ensures Now().esp == esp
    {
    }

    // ---- any run ----

    /** The step respects the other tasks' stacks and its own. */
    predicate May(step: Step)
      requires -1 <= currentTask < |tasks|
      reads this, boot, tasks
    {
      match step
      case Compute(writes, r) =>
        && r.esp % 4 == 0 && OnStack(Running(), r.esp)
        && forall i, k :: 0 <= i < |tasks| && 0 <= k < |writes| && i != currentTask ==> !InStack(tasks[i], writes[k].0)
      case Yield => CanYield()
    }

    method Perform(step: Step)
      requires Valid() && May(step)
      modifies this, boot, tasks
      ensures Valid() && tasks == old(tasks)
      ensures step.Compute? ==> currentTask == old(currentTask) && saved == old(saved)
      ensures step.Compute? ==> mem == WithWords(old(mem), step.writes) && Now() == step.regs
      ensures step.Yield? && tasks != [] ==>
        && currentTask == Next(old(currentTask), |tasks|)
        && saved == (if old(currentTask) < 0 then old(saved) else old(saved)[old(currentTask) := old(Leaving())])
        && Goes(saved[currentTask], tasks[currentTask]) && esp0 == tasks[currentTask].bottom
    {
      match step {
        case Compute(writes, r) =>
          hide InStack, OnStack, Spares, StacksApart, Suspended, WithWords;
          forall i | 0 <= i < |tasks| && i != currentTask
            ensures Spares(mem, WithWords(mem, writes), tasks[i])
          {
            WordsSpare(mem, writes, tasks[i]);
          }
          Work(WithWords(mem, writes), r);
        case Yield =>
          Schedule();
      }
    }

    /** Since `start`, the turn has moved on `turns` times without coming to task `i` before, and
        what that task had when it stopped is `c`. */
    ghost predicate Waiting(i: nat, ts: seq<Task>, start: int, c: Context, reached: bool, turns: nat)
      reads this, tasks
    {
      && Valid() && tasks == ts && i < |ts| && -1 <= start < |ts| && currentTask == After(start, |ts|, turns)
      && (forall k :: 1 <= k < turns ==> After(start, |ts|, k) != i)
      && (reached <==> currentTask == i)
      && if reached then Goes(c, ts[i]) && esp0 == ts[i].bottom else saved[i] == c
    }

    lemma WaitingParts(i: nat, ts: seq<Task>, start: int, c: Context, reached: bool, turns: nat)
      requires Waiting(i, ts, start, c, reached, turns)
      ensures Valid() && tasks == ts && i < |ts| && -1 <= start < |ts| && currentTask == After(start, |ts|, turns)
      ensures forall k :: 1 <= k < turns ==> After(start, |ts|, k) != i
      ensures reached <==> currentTask == i
      ensures if reached then Goes(c, ts[i]) && esp0 == ts[i].bottom else saved[i] == c
    {
    }

    lemma WaitingNow(i: nat, ts: seq<Task>, start: int, c: Context, reached: bool, turns: nat)
      requires Valid() && tasks == ts && i < |ts| && -1 <= start < |ts| && currentTask == After(start, |ts|, turns)
      requires forall k :: 1 <= k < turns ==> After(start, |ts|, k) != i
      requires reached <==> currentTask == i
      requires if reached then Goes(c, ts[i]) && esp0 == ts[i].bottom else saved[i] == c
      ensures Waiting(i, ts, start, c, reached, turns)
    {
    }

    lemma AfterNext(start: int, n: nat, turns: nat)
      requires n > 0 && -1 <= start < n
      ensures -1 <= After(start, n, turns) < n && After(start, n, turns + 1) == Next(After(start, n, turns), n)
    {
    }

    lemma InRange()
      requires Valid()
      ensures -1 <= currentTask < |tasks| == |saved|
    {
    }

    /** One more step while task `i` waits. */
    method WaitStep(step: Step, i: nat, ghost ts: seq<Task>, ghost start: int, ghost c: Context, ghost turns: nat)
      returns (reached: bool, ghost turns': nat)
      requires Waiting(i, ts, start, c, false, turns) && -1 <= currentTask < |tasks| && May(step)
      modifies this, boot, tasks
      ensures Waiting(i, ts, start, c, reached, turns')
    {
      hide *;
      WaitingParts(i, ts, start, c, false, turns);
      InRange();
      AfterNext(start, |ts|, turns);
      Perform(step);
      InRange();
      turns' := if step.Yield? then turns + 1 else turns;
      reached := currentTask == i;
      WaitingNow(i, ts, start, c, reached, turns');
    }

    /** Whatever the tasks do, each on its own, task `i` goes on with what it had when it stopped as
        soon as its turn has come; steps that a task may not take are left out. */
    method RunUntil(i: nat, steps: seq<Step>) returns (reached: bool, ghost turns: nat)
      requires Valid() && i < |tasks| && currentTask != i
      modifies this, boot, tasks
      ensures Valid() && tasks == old(tasks)
      ensures currentTask == After(old(currentTask), |tasks|, turns)
      ensures forall k :: 1 <= k < turns ==> After(old(currentTask), |tasks|, k) != i
      ensures reached <==> currentTask == i
      ensures reached ==> Goes(old(saved[i]), tasks[i]) && esp0 == tasks[i].bottom
      ensures !reached ==> saved[i] == old(saved[i]) && turns < |tasks|
    {
      hide *;
      InRange();
      ghost var ts, start, c := tasks, currentTask, saved[i];
      AfterNothing(start, |ts|);
      reached, turns := false, 0;
      WaitingNow(i, ts, start, c, reached, turns);
      var n: nat := 0;
      while n < |steps| && !reached
        invariant n <= |steps| && Waiting(i, ts, start, c, reached, turns)
      {
        WaitingParts(i, ts, start, c, reached, turns);
        InRange();
        if May(steps[n]) {
          reached, turns := WaitStep(steps[n], i, ts, start, c, turns);
        }
        n := n + 1;
      }
      WaitingParts(i, ts, start, c, reached, turns);
      if !reached {
        StillWaiting(start, |ts|, i, turns);
      }
    }

    lemma AfterNothing(start: int, n: nat)
      requires n > 0 && -1 <= start < n
      ensures After(start, n, 0) == start
    {
    }

    lemma StillWaiting(start: int, n: nat, i: nat, turns: nat)
      requires -1 <= start < n && i < n && After(start, n, turns) != i
      requires forall k :: 1 <= k < turns ==> After(start, n, k) != i
      ensures turns < n
    {
      if turns >= n {
        RoundRobin(start, n, i);
      }
    }

    /** A task from its creation to its first instruction (multitasking.c:11-80, multitask.asm:4-52):
        whatever the others do until its turn comes, it starts at `callback`, with the selectors, the
        flags and the stack that were built for it. */
    method Launch(callback: nat, userStack: nat, kernelStack: nat, isKernelTask: bool, newTaskSetup: nat,
                  steps: seq<Step>)
      returns (t: Task, started: bool)
      requires Valid() && |tasks| < 256 && kernelStack % 4 == 0 && kernelStack >= KSTACK_SIZE && userStack >= 4
      requires forall i :: 0 <= i < |tasks| ==>
        tasks[i].bottom <= kernelStack - KSTACK_SIZE || kernelStack + KSTACK_SIZE <= tasks[i].bottom
      requires boot.bottom <= kernelStack - KSTACK_SIZE || kernelStack + KSTACK_SIZE <= boot.bottom
      requires !isKernelTask ==> forall i :: 0 <= i < |tasks| ==> !InStack(tasks[i], userStack - 4)
      requires !isKernelTask ==> !(kernelStack - KSTACK_SIZE <= userStack - 4 < kernelStack)
      modifies this, boot, tasks
      ensures tasks == old(tasks) + [t] && fresh(t)
      ensures started <==> currentTask == |old(tasks)|
      ensures started ==> eip == callback && eflags == 0x200 && ebx == esi == edi == ebp == 0 && esp0 == kernelStack
      ensures started ==> cs == if isKernelTask then 0x08 else 0x1B
      ensures started ==> ds == if isKernelTask then 0x10 else 0x23
      ensures started ==> if isKernelTask then esp == kernelStack - 8 else esp == userStack - 4 && ss == 0x23
    {
      hide *;
      ghost var c;
      InRange();
      t, c := CreateTask(callback, userStack, kernelStack, isKernelTask, newTaskSetup);
      InRange();
      NewStackApart(t);
      FirstContext(mem, newTaskSetup, kernelStack);
      var ok := AddTask(t, c);
      InRange();
      ghost var turns;
      started, turns := RunUntil(|tasks| - 1, steps);
      if started {
        Begin(t, c, callback, if isKernelTask then userStack else userStack - 4, isKernelTask, newTaskSetup);
      }
    }

    lemma NewStackApart(t: Task)
      requires forall i :: 0 <= i < |tasks| ==>
        tasks[i].bottom + KSTACK_SIZE <= t.bottom || t.bottom + KSTACK_SIZE <= tasks[i].bottom
      requires boot.bottom + KSTACK_SIZE <= t.bottom || t.bottom + KSTACK_SIZE <= boot.bottom
      ensures StacksApart(boot, t) && forall i :: 0 <= i < |tasks| ==> StacksApart(tasks[i], t)
    {
    }

    /** The first turn: the switch has returned to new_task_setup. */
    method Begin(t: Task, ghost c: Context, callback: nat, ghost user: nat, isKernelTask: bool, newTaskSetup: nat)
      requires t.bottom >= KSTACK_SIZE && t.bottom % 4 == 0 && c == NewContext(c.mem, newTaskSetup, t.bottom)
      requires Prepared(c.mem, c.esp, callback, user, isKernelTask) && Goes(c, t)
      modifies this`esp, this`ds, this`ss, this`ebx, this`esi, this`edi, this`ebp, this`eip, this`cs, this`eflags
      ensures eip == callback && eflags == 0x200 && ebx == esi == edi == ebp == 0
      ensures cs == if isKernelTask then 0x08 else 0x1B
      ensures ds == if isKernelTask then 0x10 else 0x23
      ensures if isKernelTask then esp == t.bottom - 8 else esp == user && ss == 0x23
    {
      FirstDispatch(c, t.bottom, mem, callback, user, isKernelTask, newTaskSetup);
      assert eip == newTaskSetup;
      PreparedWords(mem, esp, callback, user, isKernelTask);
      hide Word, FrameAt;
      NewTaskSetup();
    }

    lemma OthersSpared(m: Memory, m': Memory, kernelStack: nat, userStack: nat, isKernelTask: bool)
      requires Valid() && OnlyThere(m, m', kernelStack, userStack, isKernelTask) && kernelStack >= KSTACK_SIZE
      requires userStack >= 4
      requires forall i :: 0 <= i < |tasks| ==>
        tasks[i].bottom <= kernelStack - KSTACK_SIZE || kernelStack + KSTACK_SIZE <= tasks[i].bottom
      requires !isKernelTask ==> forall i :: 0 <= i < |tasks| ==> !InStack(tasks[i], userStack - 4)
      ensures forall i :: 0 <= i < |tasks| && i != currentTask ==> Spares(m, m', tasks[i])
      ensures esp % 4 == 0 && -1 <= currentTask < |tasks| && OnStack(Running(), esp)
    {
    }
  }

  function InitialPointer(kernelStack: nat): (k: nat)
    requires kernelStack >= KSTACK_SIZE
    ensures k == kernelStack - 4 * INIT_WORDS
  {
    kernelStack - 4 * INIT_WORDS
  }

  /** Only the new stack's words and, for a user task, one word of its user stack were stored. */
  ghost predicate OnlyThere(m: Memory, m': Memory, kernelStack: nat, userStack: nat, isKernelTask: bool) {
    forall a: nat :: !(kernelStack <= a + KSTACK_SIZE && a < kernelStack) && (isKernelTask || a + 4 != userStack) ==>
      Word(m', a) == Word(m, a)
  }

  /** multitasking.c:22-39 */
  function WithInitStack(m: Memory, kesp: nat, newTaskSetup: nat, callback: nat, user: nat,
                         isKernelTask: bool): Memory {
    var cs := if isKernelTask then KERNEL_CS else USER_CS + 3;
    var ds := if isKernelTask then KERNEL_DS else USER_DS + 3;
    NewStack(m, kesp, newTaskSetup, ds, callback, cs, user)
  }

  lemma InitStackHolds(m0: Memory, m: Memory, m': Memory, userStack: nat, kernelStack: nat, isKernelTask: bool,
                       newTaskSetup: nat, callback: nat, user: nat)
    requires kernelStack >= KSTACK_SIZE && userStack >= 4
    requires m == if isKernelTask then m0 else m0[userStack - 4 := 0]
    requires user == if isKernelTask then userStack else userStack - 4
    requires !isKernelTask ==> !(kernelStack - KSTACK_SIZE <= userStack - 4 < kernelStack)
    requires m' == WithInitStack(m, kernelStack - 4 * INIT_WORDS, newTaskSetup, callback, user, isKernelTask)
    ensures OnlyThere(m0, m', kernelStack, userStack, isKernelTask)
    ensures FrameAt(m', kernelStack - 4 * INIT_WORDS) == Frame(0, 0, 0, 0, newTaskSetup)
    ensures NewContext(m', newTaskSetup, kernelStack).mem == m'
    ensures Prepared(m', NewContext(m', newTaskSetup, kernelStack).esp, callback, user, isKernelTask)
    ensures !isKernelTask ==> Word(m', userStack - 4) == 0
    ensures Word(m', kernelStack - 28) == newTaskSetup
  {
    hide NewStack, FrameAt;
    NewStackHolds(m, kernelStack - 4 * INIT_WORDS, newTaskSetup, if isKernelTask then KERNEL_DS else USER_DS + 3,
                  callback,
                  if isKernelTask then KERNEL_CS else USER_CS + 3, user);
  }

  /** Eleven words in all, of which the first five are popped by the switch. */
  lemma ContextPlace(m: Memory, newTaskSetup: nat, kernelStack: nat)
    requires kernelStack >= KSTACK_SIZE
    ensures kernelStack - 4 * INIT_WORDS == kernelStack - 44 &&
            NewContext(m, newTaskSetup, kernelStack).esp == kernelStack - 24
  {
  }

  lemma NewTaskSuspended(m: Memory, t: Task, c: Context, newTaskSetup: nat)
    requires t.bottom >= KSTACK_SIZE && t.bottom % 4 == 0 && t.kstack == t.bottom - 4 * INIT_WORDS
    requires c == NewContext(m, newTaskSetup, t.bottom) && FrameAt(m, t.kstack) == Frame(0, 0, 0, 0, newTaskSetup)
    ensures Suspended(m, t, c)
  {
    hide FrameAt;
  }

  function NewContext(mem: Memory, newTaskSetup: nat, kernelStack: nat): Context
    requires kernelStack >= 4 * INIT_WORDS
  {
    Context(Frame(0, 0, 0, 0, newTaskSetup), kernelStack - 4 * INIT_WORDS + 20, mem)
  }

  /** The words of NewTaskInitStack (multitasking.c:27-39). */
  function NewStack(m: Memory, kesp: nat, setup: nat, ds: nat, callback: nat, cs: nat, user: nat): Memory {
    m[kesp := 0][kesp + 4 := 0][kesp + 8 := 0][kesp + 12 := 0][kesp + 16 := setup]
     [kesp + 20 := ds][kesp + 24 := callback][kesp + 28 := cs][kesp + 32 := EFLAGS][kesp + 36 := user][kesp + 40 := ds]
  }

  lemma NewStackHolds(m: Memory, kesp: nat, setup: nat, ds: nat, callback: nat, cs: nat, user: nat)
    ensures var r := NewStack(m, kesp, setup, ds, callback, cs, user);
      && FrameAt(r, kesp) == Frame(0, 0, 0, 0, setup) && Word(r, kesp + 16) == setup
      && Word(r, kesp + 20) == ds && Word(r, kesp + 24) == callback && Word(r, kesp + 28) == cs
      && Word(r, kesp + 32) == EFLAGS && Word(r, kesp + 36) == user && Word(r, kesp + 40) == ds
      && forall a: nat :: a < kesp || kesp + 40 < a ==> Word(r, a) == Word(m, a)
  {
  }

  /** The words that new_task_setup and its iret pop (multitasking.c:34-39). */
  predicate Prepared(mem: Memory, esp: nat, callback: nat, user: nat, isKernelTask: bool) {
    && Word(mem, esp) == (if isKernelTask then 0x10 else 0x23)
    && Word(mem, esp + 4) == callback
    && Word(mem, esp + 8) == (if isKernelTask then 0x08 else 0x1B)
    && Word(mem, esp + 12) == 0x200 && Word(mem, esp + 16) == user
    && Word(mem, esp + 20) == Word(mem, esp)
  }

  lemma FirstContext(mem: Memory, setup: nat, kernelStack: nat)
    requires kernelStack >= KSTACK_SIZE
    ensures NewContext(mem, setup, kernelStack).mem == mem
  {
  }

  lemma PreparedWords(mem: Memory, esp: nat, callback: nat, user: nat, isKernelTask: bool)
    requires Prepared(mem, esp, callback, user, isKernelTask)
    ensures Word(mem, esp) % 0x1_0000 == (if isKernelTask then 0x10 else 0x23)
    ensures Word(mem, esp + 4) == callback && Word(mem, esp + 8) == (if isKernelTask then 0x08 else 0x1B)
    ensures Word(mem, esp + 8) % 4 == 3 <==> !isKernelTask
    ensures Word(mem, esp + 12) == 0x200 && Word(mem, esp + 16) == user
    ensures !isKernelTask ==> Word(mem, esp + 20) == 0x23
  {
  }

  /** A new task goes on, the first time, where its creator said and with the selectors built for
      it: nothing of its stack was touched since. */
  lemma FirstDispatch(c: Context, bottom: nat, mem: Memory, callback: nat, user: nat, isKernelTask: bool, setup: nat)
    requires bottom >= KSTACK_SIZE && bottom % 4 == 0 && c == NewContext(c.mem, setup, bottom)
    requires Prepared(c.mem, c.esp, callback, user, isKernelTask)
    requires forall a :: c.esp <= a < bottom && a % 4 == 0 ==> Word(mem, a) == Word(c.mem, a)
    ensures c.frame.ret == setup && Prepared(mem, c.esp, callback, user, isKernelTask)
  {
    assert forall k :: 0 <= k < 6 ==> Word(mem, c.esp + 4 * k) == Word(c.mem, c.esp + 4 * k);
    assert Word(mem, c.esp + 4 * 0) == Word(c.mem, c.esp) && Word(mem, c.esp + 4 * 1) == Word(c.mem, c.esp + 4);
    assert Word(mem, c.esp + 4 * 2) == Word(c.mem, c.esp + 8) && Word(mem, c.esp + 4 * 3) == Word(c.mem, c.esp + 12);
    assert Word(mem, c.esp + 4 * 4) == Word(c.mem, c.esp + 16) && Word(mem, c.esp + 4 * 5) == Word(c.mem, c.esp + 20);
  }

  lemma PushedSpares(mem: Memory, esp: nat, ebx: nat, esi: nat, edi: nat, ebp: nat, t: Task, u: Task)
    requires esp >= 16 && OnStack(t, esp) && OnStack(t, esp - 16) && StacksApart(t, u)
    ensures Spares(mem, Pushed(mem, esp, ebx, esi, edi, ebp), u)
  {
  }

  /** The stack that a task leaves behind, whatever its saved pointer was before. */
  lemma LeavesSuspended(t: Task, c: Context, mem: Memory, esp: nat, ebx: nat, esi: nat, edi: nat, ebp: nat)
    requires esp >= 16 && esp % 4 == 0 && OnStack(t, esp + 4) && OnStack(t, esp - 16)
    requires c == Context(Frame(ebp, edi, esi, ebx, Word(mem, esp)), esp + 4, mem)
    ensures var m := Pushed(mem, esp, ebx, esi, edi, ebp);
      && (esp - 16) % 4 == 0 && InStack(t, esp - 16) && esp - 16 + 20 == c.esp <= t.bottom
      && FrameAt(m, esp - 16) == c.frame
      && forall a :: c.esp <= a < t.bottom && a % 4 == 0 ==> Word(m, a) == Word(c.mem, a)
  {
  }

  function Pushed(mem: Memory, esp: nat, ebx: nat, esi: nat, edi: nat, ebp: nat): Memory
    requires esp >= 16
  {
    mem[esp - 4 := ebx][esp - 8 := esi][esp - 12 := edi][esp - 16 := ebp]
  }
}
