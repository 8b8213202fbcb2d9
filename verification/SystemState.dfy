/** The primitive kernel heap that takes over once paging is on. */
module KernelHeap {
  import opened Processes

  const BASE := 0xD000000
  const SIZE := 0x10000

  /** The new end of the heap, or None where `alloc` panics. */
  function Alloc(heap: int, size: nat): Option<int> {
    if heap + size > BASE + SIZE then None else Some(heap + size)
  }
}

/** The four queues, the running process and the kernel heap, as one value, and every
    system call and command as a step on it. */
module SystemState {
  import opened Processes
  import KernelHeap

  const PCB_SIZE := 52
  const STACK_SIZE := 1024
  const CONTEXT_SIZE := 60

  /** A block's stack follows it, and its first context is at the top of the stack. */
  function StackBase(a: int): int {
    a + PCB_SIZE
  }

  function FirstContext(a: int): int {
    StackBase(a) + STACK_SIZE - CONTEXT_SIZE
  }

  datatype Status = Live | PoweredOff | Panicked

  /** `live` and `arrived` are history. `live` maps the address of every block that has been
      set up and not freed to its name; `arrived` lists the ready queue's members by latest
      insertion. */
  datatype Sys = Sys(ready: seq<Proc>, blocked: seq<Proc>,
                     suspendedReady: seq<Proc>, suspendedBlocked: seq<Proc>,
                     running: Option<Proc>, heap: int, status: Status,
                     live: map<int, string>, arrived: seq<Proc>)

  const EMPTY := Sys([], [], [], [], None, KernelHeap.BASE, Live, map[], [])

  function Queue(s: Sys, k: QueueId): seq<Proc> {
    match k
    case ReadyQ => s.ready
    case BlockedQ => s.blocked
    case SuspendedReadyQ => s.suspendedReady
    case SuspendedBlockedQ => s.suspendedBlocked
  }

  /** All queues, in the order `pcb_find` searches them. */
  function Queued(s: Sys): seq<Proc> {
    s.ready + s.blocked + s.suspendedReady + s.suspendedBlocked
  }

  // ----- The two primitives -----

  function Insert(s: Sys, p: Proc): Sys {
    match Home(p)
    case ReadyQ => s.(ready := InsertByPriority(s.ready, p), arrived := s.arrived + [p])
    case BlockedQ => s.(blocked := s.blocked + [p])
    case SuspendedReadyQ => s.(suspendedReady := s.suspendedReady + [p])
    case SuspendedBlockedQ => s.(suspendedBlocked := s.suspendedBlocked + [p])
  }

  function Remove(s: Sys, p: Proc): Sys {
    match Home(p)
    case ReadyQ => s.(ready := Without(s.ready, p.addr), arrived := Without(s.arrived, p.addr))
    case BlockedQ => s.(blocked := Without(s.blocked, p.addr))
    case SuspendedReadyQ => s.(suspendedReady := Without(s.suspendedReady, p.addr))
    case SuspendedBlockedQ => s.(suspendedBlocked := Without(s.suspendedBlocked, p.addr))
  }

  /** Remove, change the flags or the priority, reinsert. */
  function Move(s: Sys, p: Proc, p': Proc): Sys {
    Insert(Remove(s, p), p')
  }

  function Find(s: Sys, name: string): Option<Proc> {
    FirstNamed(Queued(s), name)
  }

  // ----- System calls -----

  function Idle(s: Sys): Sys {
    if s.ready == [] then s.(status := PoweredOff)
    else
      var next := s.ready[0];
      match s.running
      case None => Remove(s, next).(running := Some(next))
      case Some(cur) => Remove(Insert(s, cur), next).(running := Some(next))
  }

  function Free(s: Sys, p: Option<Proc>): Sys {
    match p
    case None => s
    case Some(q) => s.(live := s.live - {q.addr})
  }

  function Exit(s: Sys): Sys {
    var freed := Free(s, s.running);
    if s.ready == [] then freed.(running := None, status := PoweredOff)
    else Remove(freed, s.ready[0]).(running := Some(s.ready[0]))
  }

  datatype OpCode = EXIT | IDLE | READ | WRITE

  /** `sys_call` on the queues: READ and WRITE leave them alone. */
  function SysCall(s: Sys, op: OpCode): Sys {
    match op
    case EXIT => Exit(s)
    case IDLE => Idle(s)
    case READ => s
    case WRITE => s
  }

  // ----- Commands -----

  function Suspend(s: Sys, name: string): (Sys, int) {
    if |name| == 0 then (s, -1)
    else match Find(s, name)
      case None => (s, -1)
      case Some(p) =>
        if p.class_.SystemClass? then (s, -2)
        else if p.dispatch.Suspended? then (s, 1)
        else (Move(s, p, p.(dispatch := Suspended)), 0)
  }

  function Resume(s: Sys, name: string): (Sys, int) {
    if |name| == 0 then (s, -1)
    else match Find(s, name)
      case None => (s, -1)
      case Some(p) =>
        if p.dispatch.Active? then (s, 1)
        else (Move(s, p, p.(dispatch := Active)), 0)
  }

  /** The walk of `resume all`, which resumes by name what it meets. */
  function ResumeEach(s: Sys, todo: seq<Proc>): Sys
    decreases |todo|
  {
    if todo == [] then s else ResumeEach(Resume(s, todo[0].name).0, todo[1..])
  }

  function ResumeAll(s: Sys): Sys {
    ResumeEach(s, s.suspendedReady)
  }

  /** A missing name is dereferenced as NULL: page 0 is unmapped, so the page fault panics. */
  function Block(s: Sys, name: string): Sys {
    match Find(s, name)
    case None => s.(status := Panicked)
    case Some(p) =>
      if p.exec.Blocked? || |name| < 1 || |name| > NAME_MAX then s
      else Move(s, p, p.(exec := Blocked))
  }

  function Unblock(s: Sys, name: string): Sys {
    match Find(s, name)
    case None => s.(status := Panicked)
    case Some(p) =>
      if p.exec.Ready? || |name| < 1 || |name| > NAME_MAX then s
      else Move(s, p, p.(exec := Ready))
  }

  function SetPriority(s: Sys, name: string, priority: int): Sys {
    match Find(s, name)
    case None => s
    case Some(p) =>
      if p.class_.SystemClass? || priority > LOWEST || priority < 0 then s
      else Move(s, p, p.(priority := priority))
  }

  function Delete(s: Sys, name: string): Sys {
    match Find(s, name)
    case None => s
    case Some(p) =>
      if |name| < 1 || |name| > NAME_MAX || p.class_.SystemClass? then s
      else Free(Remove(s, p), Some(p))
  }

  /** `pcb_setup`: the new block, not yet in any queue, or None for its NULL result. */
  function Setup(s: Sys, name: string, class_: ProcessClass, priority: int): (Sys, Option<Proc>) {
    if |name| >= NAME_MAX || priority < 0 || priority > LOWEST || Find(s, name).Some? then (s, None)
    else match KernelHeap.Alloc(s.heap, PCB_SIZE + STACK_SIZE)
      case None => (s.(status := Panicked), None)
      case Some(end) =>
        (s.(heap := end, live := s.live[s.heap := name]),
         Some(Proc(s.heap, name, class_, priority, Ready, Active)))
  }

  /** Set up and insert, as every loader does; inserting NULL does nothing. */
  function Load(s: Sys, name: string, class_: ProcessClass, priority: int): Sys {
    if s.status != Live then s
    else
      var (s', p) := Setup(s, name, class_, priority);
      match p case None => s' case Some(q) => Insert(s', q)
  }

  function LoadR3(s: Sys): Sys {
    var s1 := Load(s, "proc1", UserClass, 1);
    var s2 := Load(s1, "proc2", UserClass, 1);
    var s3 := Load(s2, "proc3", UserClass, 1);
    var s4 := Load(s3, "proc4", UserClass, 1);
    Load(s4, "proc5", UserClass, 1)
  }

  function LoadR3Suspended(s: Sys): Sys {
    var t := LoadR3(s);
    if t.status != Live then t
    else
      Suspend(Suspend(Suspend(Suspend(Suspend(t, "proc1").0, "proc2").0, "proc3").0, "proc4").0, "proc5").0
  }

  function LoadProcess(s: Sys, name: string): Sys {
    if name == "proc1" || name == "proc2" || name == "proc3" || name == "proc4" || name == "proc5"
    then Load(s, name, UserClass, 1) else s
  }

  /** Any other use of `sys_alloc_mem`, such as the alarm records. */
  function AllocMem(s: Sys, size: nat): Sys {
    match KernelHeap.Alloc(s.heap, size)
    case None => s.(status := Panicked)
    case Some(end) => s.(heap := end)
  }

  /** What kmain sets up after memory is up. */
  function BeforeFirstTrap(): Sys {
    Load(Load(EMPTY, "commhand", SystemClass, 0), "idle", SystemClass, 9)
  }

  /** And the first system call, which it makes itself. */
  function Boot(): Sys {
    Idle(BeforeFirstTrap())
  }

  // ----- Runs -----

  datatype Event =
    | Call(op: OpCode)
    | DoSuspend(name: string) | DoResume(name: string) | DoResumeAll
    | DoBlock(name: string) | DoUnblock(name: string)
    | DoSetPriority(name: string, priority: int) | DoDelete(name: string)
    | DoLoadR3 | DoLoadR3Suspended | DoLoadProcess(name: string)
    | DoLoad(name: string, class_: ProcessClass, priority: int) | DoAlloc(size: nat)

  function Step(s: Sys, e: Event): Sys {
    if s.status != Live then s
    else match e
      case Call(op) => SysCall(s, op)
      case DoSuspend(n) => Suspend(s, n).0
      case DoResume(n) => Resume(s, n).0
      case DoResumeAll => ResumeAll(s)
      case DoBlock(n) => Block(s, n)
      case DoUnblock(n) => Unblock(s, n)
      case DoSetPriority(n, p) => SetPriority(s, n, p)
      case DoDelete(n) => Delete(s, n)
      case DoLoadR3 => LoadR3(s)
      case DoLoadR3Suspended => LoadR3Suspended(s)
      case DoLoadProcess(n) => LoadProcess(s, n)
      case DoLoad(n, c, p) => Load(s, n, c, p)
      case DoAlloc(size) => AllocMem(s, size)
  }

  function Run(s: Sys, es: seq<Event>): Sys
    decreases |es|
  {
    if es == [] then s else Run(Step(s, es[0]), es[1..])
  }
}
