/** `sys_call` itself, and the commands, on the heap: the saved contexts, the kernel's context and
    memory. */
module Dispatchers {
  import opened Processes
  import opened PcbQueues
  import opened Kernels
  import opened ContextSwitch
  import Commands
  import Scheduling
  import opened Invariants
  import SystemState
  import KernelHeap

  const IDLE_CODE := 1
  const EXIT_CODE := 0

  /** The names in a command are C strings. */
  predicate Spelt(e: SystemState.Event) {
    match e
    case DoSuspend(n) => '\0' !in n
    case DoResume(n) => '\0' !in n
    case DoBlock(n) => '\0' !in n
    case DoUnblock(n) => '\0' !in n
    case DoSetPriority(n, _) => '\0' !in n
    case DoDelete(n) => '\0' !in n
    case DoLoadProcess(n) => '\0' !in n
    case DoLoad(n, _, _) => '\0' !in n
    case _ => true
  }

  /** Where the programs of the blocks that a command loads begin. */
  function ProgramsFor(e: SystemState.Event, entry: int, entries: seq<int>): (m: map<string, int>)
    requires |entries| == 5
    ensures e.DoLoad? ==> e.name in m && m[e.name] == entry
    ensures !e.DoLoad? ==>
      forall i :: 0 <= i < 5 ==> Scheduling.PROC_NAMES[i] in m && m[Scheduling.PROC_NAMES[i]] == entries[i]
  {
    ProgramsListed(entries);
    if e.DoLoad? then map[e.name := entry] else ProgramsOf(entries)
  }

  /** A command on a machine, read off its parts. */
  lemma ApplyIs(c: Computer, e: SystemState.Event, d: Computer)
    requires d.s == SystemState.Step(c.s, e) && d.regs == c.regs && d.kernel == c.kernel
    requires d.saved == c.saved + map a | a in d.s.live.Keys - c.s.live.Keys :: SystemState.FirstContext(a)
    ensures d == Apply(c, Command(e, d.mem))
  {
    hide SystemState.Step;
  }

  class Dispatcher {
    const table: Kernel
    /** Where the five processes that `load` knows begin. */
    const entries: seq<int>
    var sysStackPtr: int
    /** The context of every block of the table, by address. */
    ghost var saved: map<int, int>

    ghost predicate Valid()
      reads this, table, table.Repr()
    {
      this !in table.Repr() && table.Valid() && table.Contexts(saved) && |entries| == 5
    }

    ghost function Machine(regs: Regs): Computer
      reads this, table, table.Repr(), table.ram
    {
      Computer(table.State(), regs, table.ram.words, saved, sysStackPtr)
    }

    constructor (table: Kernel, entries: seq<int>, ghost saved: map<int, int>)
      requires table.Valid() && table.Contexts(saved) && |entries| == 5
      ensures Valid() && this.table == table && this.entries == entries && this.saved == saved && sysStackPtr == 0
    {
      hide Kernel.State, Kernel.Repr, Kernel.Valid, Kernel.Linked;
      table.AllExist();
      this.table, this.entries, this.saved, sysStackPtr := table, entries, saved, 0;
    }

    /** The head of the ready queue and the running block are different and tracked. */
    lemma HeadTracked()
      requires Valid()
      ensures table.ready.head == null <==> table.State().ready == []
      ensures table.cur == null <==> table.State().running == None
      ensures table.cur != null ==> table.cur in table.Repr() && table.State().running.value.addr == table.cur.addr
      ensures table.ready.head != null ==>
        && table.ready.head in table.Repr() && table.State().ready[0].addr == table.ready.head.addr
        && table.ready.head.addr in saved && saved[table.ready.head.addr] == table.ready.head.context
        && (table.cur != null ==> table.cur.addr != table.ready.head.addr)
    {
      hide Kernel.State, Kernel.Repr, Kernel.Valid;
      table.Head();
      table.InRepr(ReadyQ);
      table.AddressesDiffer();
      if table.cur != null { table.Yielder(); }
    }

    /** The handler's C half: the context to leave through, and the whole machine after it. */
    method SysCall(curContext: int, ghost regs: Regs) returns (to: int)
      requires Valid()
      modifies this, table.Repr(), table.ram
      ensures Valid() && (Machine(regs), to) == SysCallOn(old(Machine(regs)), curContext)
    {
      hide Kernel.State, Kernel.Repr, Kernel.Valid, Kernel.Contexts, SystemState.Idle, SystemState.Exit, Read;
      HeadTracked();
      table.TableInRepr();
      if table.cur == null { sysStackPtr := curContext; }
      var op := Read(table.ram.words, curContext + EAX);
      if op == IDLE_CODE {
        if table.cur != null && table.ready.head != null {
          table.Store(curContext, saved);
          saved := saved[table.cur.addr := curContext];
        }
        var next := table.Idle(saved);
        to := if next == null then sysStackPtr else next.context;
        Poke(curContext + EAX);
      } else if op == EXIT_CODE {
        var next := table.Exit(saved);
        to := if next == null then sysStackPtr else next.context;
        Poke(to + EAX);
      } else {
        to := curContext;
        Poke(curContext + EAX);
      }
    }

    /** The interrupt handler around it: registers pushed, the call, registers popped from the
        context it returned. The call's own frames leave `scratch` on the stack. */
    method Trap(regs: Regs, scratch: Memory) returns (after: Regs)
      requires Valid()
      modifies this, table.Repr(), table.ram
      ensures Valid() && Machine(after) == Interrupt(old(Machine(regs)), scratch)
    {
      hide Kernel.State, Kernel.Repr, Kernel.Valid, Kernel.Contexts, PushAll, Pushed, SysCallOn, Leave;
      var esp := PushContext(regs);
      Scribble(scratch);
      var to := SysCall(esp, regs);
      after := PopContext(to);
    }

    method PushContext(regs: Regs) returns (esp: int)
      requires Valid()
      modifies table.ram
      ensures Valid() && table.State() == old(table.State())
      ensures Stack(esp, table.ram.words) == Enter(regs, old(table.ram.words))
    {
      hide Kernel.State, Kernel.Repr, Kernel.Valid, Kernel.Contexts, Pushed;
      table.RamApart();
      table.AllExist();
      var ws, i := Pushed(regs), 0;
      esp := regs.esp;
      while i < |ws|
        invariant 0 <= i <= |ws| && Valid() && table.State() == old(table.State())
        invariant PushAll(Stack(esp, table.ram.words), ws[i..]) == Enter(regs, old(table.ram.words))
      {
        assert ws[i..][0] == ws[i] && ws[i..][1..] == ws[i + 1..];
        esp := esp - 4;
        table.ram.words := table.ram.words[esp := ws[i]];
        i := i + 1;
      }
    }

    /** The pops in their order; popa skips the saved stack pointer. */
    method PopContext(sp: int) returns (regs: Regs)
      requires Valid()
      ensures Valid() && table.State() == old(table.State()) && regs == Leave(table.ram.words, sp)
    {
      hide Read, Kernel.State, Kernel.Repr, Kernel.Valid, Kernel.Contexts;
      var esp := sp;
      var gs := Read(table.ram.words, esp);
      var fs := Read(table.ram.words, esp + 4);
      var es := Read(table.ram.words, esp + 8);
      var ds := Read(table.ram.words, esp + 12);
      esp := esp + 16;
      var edi := Read(table.ram.words, esp);
      var esi := Read(table.ram.words, esp + 4);
      var ebp := Read(table.ram.words, esp + 8);
      var ebx := Read(table.ram.words, esp + 16);
      var edx := Read(table.ram.words, esp + 20);
      var ecx := Read(table.ram.words, esp + 24);
      var eax := Read(table.ram.words, esp + 28);
      esp := esp + 32;
      var eip := Read(table.ram.words, esp);
      var cs := Read(table.ram.words, esp + 4);
      var eflags := Read(table.ram.words, esp + 8);
      esp := esp + 12;
      regs := Regs(gs, fs, es, ds, edi, esi, ebp, esp, ebx, edx, ecx, eax, eip, cs, eflags);
    }

    method Scribble(scratch: Memory)
      requires Valid()
      modifies table.ram
      ensures Valid() && table.State() == old(table.State()) && table.ram.words == old(table.ram.words) + scratch
    {
      hide Kernel.State, Kernel.Repr, Kernel.Valid, Kernel.Contexts;
      table.RamApart();
      table.AllExist();
      table.ram.words := table.ram.words + scratch;
    }

    /** A result of -1 goes to a saved eax. */
    method Poke(at: int)
      requires Valid()
      modifies table.ram
      ensures Valid() && table.State() == old(table.State()) && table.ram.words == old(table.ram.words)[at := -1]
    {
      hide Kernel.State, Kernel.Repr, Kernel.Valid, Kernel.Contexts;
      table.RamApart();
      table.AllExist();
      table.ram.words := table.ram.words[at := -1];
    }

    /** Any command, on the whole machine: exactly the step that the results over runs are about,
        and one that they allow. */
    method Perform(e: SystemState.Event, entry: int, ghost regs: Regs)
      requires Valid() && !e.Call? && Spelt(e)
      modifies this, table.Repr(), table.ram
      ensures Valid() && Machine(regs) == Apply(old(Machine(regs)), Command(e, table.ram.words))
      ensures Allowed(old(Machine(regs)), Command(e, table.ram.words))
      ensures Sane(old(Machine(regs))) ==>
        NewOnesStart(old(Machine(regs)), Machine(regs), ProgramsFor(e, entry, entries))
      ensures old(sysStackPtr) + SystemState.CONTEXT_SIZE <= KernelHeap.BASE ==>
        Spares(old(Machine(regs)), Command(e, table.ram.words))
    {
      hide Kernel.State, Kernel.Repr, Kernel.Valid, Kernel.Contexts, SystemState.Step, OthersKept, Framed;
      hide Sane, NewOnesStart, ProgramsFor, BelowKept, Spared;
      ghost var c := Machine(regs);
      table.RamApart();
      if Commands.IsLoad(e) {
        PerformLoad(e, entry);
      } else {
        PerformOther(e);
        KeptItself(c.s, c.mem);
        BelowItself(c.mem);
      }
      if c.kernel + SystemState.CONTEXT_SIZE <= KernelHeap.BASE { BelowSpared(c.mem, table.ram.words, c.kernel); }
      ApplyIs(c, e, Machine(regs));
      if Sane(c) { FramedStart(c, e, table.ram.words, ProgramsFor(e, entry, entries)); }
    }

    method PerformLoad(e: SystemState.Event, entry: int)
      requires Valid() && Commands.IsLoad(e) && Spelt(e)
      modifies this`saved, table.Repr(), table.ram
      ensures Valid() && table.State() == SystemState.Step(old(table.State()), e)
      ensures Extends(old(table.State()), old(table.ram.words), old(saved), table.State(), table.ram.words, saved,
                      ProgramsFor(e, entry, entries))
    {
      hide Kernel.State, Kernel.Repr, Kernel.Valid, Kernel.Contexts, Extends, ContextAt, InitialRegs;
      hide SystemState.Load, SystemState.LoadR3, SystemState.LoadR3Suspended, SystemState.LoadProcess;
      table.TableInRepr();
      table.AllExist();
      table.StatusShown();
      if table.status != SystemState.Live {
        ExtendsNothing(table.State(), table.ram.words, saved, table.State(), ProgramsFor(e, entry, entries));
        return;
      }
      ghost var saved' := saved;
      match e {
        case DoLoad(name, class_, priority) =>
          var p;
          p, saved' := table.LoadTracked(name, class_, priority, entry, saved, map[name := entry]);
        case DoLoadR3 => saved' := table.LoadR3(entries, saved);
        case DoLoadR3Suspended => saved' := table.LoadR3Suspended(entries, saved);
        case DoLoadProcess(name) => saved' := table.LoadProcess(name, entries, saved);
      }
      saved := saved';
    }

    method PerformOther(e: SystemState.Event)
      requires Valid() && !Commands.IsLoad(e) && !e.Call? && Spelt(e)
      modifies table.Repr()
      ensures Valid() && table.State() == SystemState.Step(old(table.State()), e)
      ensures saved == saved +
        map a | a in table.State().live.Keys - old(table.State()).live.Keys :: SystemState.FirstContext(a)
      ensures forall words, programs :: Framed(old(table.State()), table.State(), words, programs)
    {
      hide Kernel.State, Kernel.Repr, Kernel.Valid, SystemState.Suspend, SystemState.Resume, SystemState.ResumeAll;
      hide SystemState.Block, SystemState.Unblock, SystemState.SetPriority, SystemState.Delete, SystemState.AllocMem;
      table.TableInRepr();
      table.AllExist();
      table.StatusShown();
      Commands.OtherStepNames(table.State(), e);
      if table.status != SystemState.Live { return; }
      match e
      case DoSuspend(name) => var result := table.Suspend(name);
      case DoResume(name) => var result, moved := table.Resume(name);
      case DoResumeAll => table.ResumeAll();
      case DoBlock(name) => table.Block(name);
      case DoUnblock(name) => table.Unblock(name);
      case DoSetPriority(name, priority) => table.SetPriority(name, priority);
      case DoDelete(name) => table.Delete(name);
      case DoAlloc(size) => var addr := table.AllocMem(size);
    }
  }

  /** From memory being up to the first dispatch, by the trap that kmain itself makes: control
      goes to commhand's entry point, on its own empty stack. The machine is then the one that the
      results from boot start with. */
  method Kmain(ram: Ram, regs: Regs, scratch: Memory, commhand: int, idle: int, entries: seq<int>)
    returns (d: Dispatcher, after: Regs, ghost setUp: Memory)
    requires regs.eax == IDLE_CODE && regs.esp <= KernelHeap.BASE && |entries| == 5
    requires forall x :: x in scratch ==> x < regs.esp - SystemState.CONTEXT_SIZE
    modifies ram
    ensures d.Valid() && d.table.State() == SystemState.Boot()
    ensures after == Regs(0x10, 0x10, 0x10, 0x10, 0, 0, 0, 0xD000000 + 1076, 0, 0, 0, 0, commhand, 0x08, 0x202)
    ensures WillStart(d.Machine(after), KernelHeap.BASE + SystemState.PCB_SIZE + SystemState.STACK_SIZE, idle)
    ensures Allowed(BootComputer(regs, setUp), Trap(scratch))
    ensures d.Machine(after) == BootedComputer(regs, setUp, scratch)
  {
    hide Kernel.State, Kernel.Repr, Kernel.Valid, Kernel.Contexts, SystemState.Boot, SystemState.BeforeFirstTrap;
    hide Interrupt, Allowed, BootComputer, ContextAt, OnlyStack, WillStart;
    var table := SetUpTable(ram, commhand, idle);
    ghost var saved := map a | a in table.State().live :: SystemState.FirstContext(a);
    table.TableInRepr();
    table.AllExist();
    d := new Dispatcher(table, entries, saved);
    setUp := ram.words;
    BootComputerIs(d.Machine(regs));
    FirstTrapAllowed(regs, setUp, scratch);
    FirstTrapBoots(regs, setUp, scratch);
    BootIdleStarts(regs, setUp, scratch, idle);
    after := d.Trap(regs, scratch);
  }

  lemma BootComputerIs(c: Computer)
    requires c.s == SystemState.BeforeFirstTrap() && c.kernel == 0
    requires c.saved == map a | a in c.s.live :: SystemState.FirstContext(a)
    ensures c == BootComputer(c.regs, c.mem)
  {
    hide SystemState.BeforeFirstTrap;
  }

  /** commhand and idle are set up and inserted. */
  method SetUpTable(ram: Ram, commhand: int, idle: int) returns (table: Kernel)
    modifies ram
    ensures table.Valid() && fresh(table.Repr()) && table.ram == ram && table.State() == SystemState.BeforeFirstTrap()
    ensures table.Contexts(map a | a in table.State().live :: SystemState.FirstContext(a))
    ensures var top := SystemState.FirstContext(KernelHeap.BASE);
      ContextAt(ram.words, top).(esp := top + SystemState.CONTEXT_SIZE) == InitialRegs(KernelHeap.BASE, commhand)
    ensures var a := KernelHeap.BASE + SystemState.PCB_SIZE + SystemState.STACK_SIZE;
      ContextAt(ram.words, SystemState.FirstContext(a)) == InitialRegs(a, idle)
  {
    hide Kernel.State, Kernel.Repr, Kernel.Valid, Kernel.Contexts, SystemState.Load, SystemState.Setup, Inv;
    hide ContextAt, InitialRegs, OnlyStack, Extends;
    table := new Kernel(ram);
    table.TableInRepr();
    ghost var s0, m0 := table.State(), ram.words;
    assert s0 == SystemState.EMPTY;
    ghost var programs := map["commhand" := commhand, "idle" := idle];
    assert |"commhand"| != |"idle"|;
    EmptyInv();
    var p, q;
    ghost var v1, v2;
    p, v1 := table.LoadTracked("commhand", SystemClass, 0, commhand, map[], programs);
    ghost var s1, m1 := table.State(), ram.words;
    q, v2 := table.LoadTracked("idle", SystemClass, 9, idle, v1, programs);
    ExtendsTwice(s0, m0, map[], s1, m1, v1, table.State(), ram.words, v2, programs);
    FirstFrames(table.State(), m0, ram.words, v2, programs);
  }

  lemma FirstFrames(t: SystemState.Sys, mem: Memory, mem': Memory, saved: map<int, int>, programs: map<string, int>)
    requires t == SystemState.BeforeFirstTrap() && Extends(SystemState.EMPTY, mem, map[], t, mem', saved, programs)
    requires "commhand" in programs && "idle" in programs
    ensures saved == map a | a in t.live :: SystemState.FirstContext(a)
    ensures var top := SystemState.FirstContext(KernelHeap.BASE);
      ContextAt(mem', top).(esp := top + SystemState.CONTEXT_SIZE)
        == InitialRegs(KernelHeap.BASE, programs["commhand"])
    ensures var a := KernelHeap.BASE + SystemState.PCB_SIZE + SystemState.STACK_SIZE;
      ContextAt(mem', SystemState.FirstContext(a)) == InitialRegs(a, programs["idle"])
  {
    hide SystemState.BeforeFirstTrap, ContextAt, Inv;
    FirstTrapState();
    assert KernelHeap.BASE in t.live;
    assert KernelHeap.BASE + SystemState.PCB_SIZE + SystemState.STACK_SIZE in t.live;
  }
}
