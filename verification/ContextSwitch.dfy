/** Registers, stacks and the interrupt handler: what a process finds when it runs again. */
module ContextSwitch {
  import opened Processes
  import opened SystemState
  import opened Invariants
  import KernelHeap
  import opened Commands

  type Word = int

  /** Memory by word address; what was never written reads as zero. */
  type Memory = map<int, Word>

  function Read(mem: Memory, a: int): Word {
    if a in mem then mem[a] else 0
  }

  datatype Regs = Regs(gs: Word, fs: Word, es: Word, ds: Word,
                       edi: Word, esi: Word, ebp: Word, esp: Word,
                       ebx: Word, edx: Word, ecx: Word, eax: Word,
                       eip: Word, cs: Word, eflags: Word)

  const EAX := 44

  // ----- The handler's pushes and pops -----

  datatype Stack = Stack(esp: int, mem: Memory)

  function Push(s: Stack, w: Word): Stack {
    Stack(s.esp - 4, s.mem[s.esp - 4 := w])
  }

  function PushAll(s: Stack, ws: seq<Word>): Stack
    decreases |ws|
  {
    if ws == [] then s else PushAll(Push(s, ws[0]), ws[1..])
  }

  /** What `int 0x60` pushes, then pusha (whose saved stack pointer is that after the trap), then
      the segment registers. */
  function Pushed(r: Regs): seq<Word> {
    [r.eflags, r.cs, r.eip] +
    [r.eax, r.ecx, r.edx, r.ebx, r.esp - 12, r.ebp, r.esi, r.edi] +
    [r.ds, r.es, r.fs, r.gs]
  }

  function Enter(r: Regs, mem: Memory): Stack {
    PushAll(Stack(r.esp, mem), Pushed(r))
  }

  /** The handler after the call, from the stack pointer the call returned. */
  function Leave(mem: Memory, sp: int): Regs {
    var gs, fs, es, ds := Read(mem, sp), Read(mem, sp + 4), Read(mem, sp + 8), Read(mem, sp + 12);
    var popa := sp + 16;
    var edi, esi, ebp := Read(mem, popa), Read(mem, popa + 4), Read(mem, popa + 8);
    // popa skips the saved stack pointer
    var ebx, edx, ecx, eax := Read(mem, popa + 16), Read(mem, popa + 20), Read(mem, popa + 24), Read(mem, popa + 28);
    var iret := popa + 32;
    Regs(gs, fs, es, ds, edi, esi, ebp, iret + 12, ebx, edx, ecx, eax,
         Read(mem, iret), Read(mem, iret + 4), Read(mem, iret + 8))
  }

  /** `struct context` as the C code reads it at an address. */
  function ContextAt(mem: Memory, c: int): Regs {
    Regs(Read(mem, c), Read(mem, c + 4), Read(mem, c + 8), Read(mem, c + 12),
         Read(mem, c + 16), Read(mem, c + 20), Read(mem, c + 24), Read(mem, c + 28),
         Read(mem, c + 32), Read(mem, c + 36), Read(mem, c + 40), Read(mem, c + EAX),
         Read(mem, c + 48), Read(mem, c + 52), Read(mem, c + 56))
  }

  lemma {:induction false} PushAllReads(s: Stack, ws: seq<Word>)
    ensures PushAll(s, ws).esp == s.esp - 4 * |ws|
    ensures forall i :: 0 <= i < |ws| ==> Read(PushAll(s, ws).mem, s.esp - 4 - 4 * i) == ws[i]
    ensures forall a :: !(s.esp - 4 * |ws| <= a < s.esp) ==> Read(PushAll(s, ws).mem, a) == Read(s.mem, a)
    decreases |ws|
  {
    if ws != [] {
      var t := Push(s, ws[0]);
      PushAllReads(t, ws[1..]);
      forall i | 0 <= i < |ws| ensures Read(PushAll(s, ws).mem, s.esp - 4 - 4 * i) == ws[i] {
        if i > 0 {
          assert Read(PushAll(t, ws[1..]).mem, t.esp - 4 - 4 * (i - 1)) == ws[1..][i - 1];
        }
      }
    }
  }

  /** The push order is the struct's field order: each register is found under its own name. */
  lemma EntryMatchesStruct(r: Regs, mem: Memory)
    ensures Enter(r, mem).esp == r.esp - CONTEXT_SIZE
    ensures ContextAt(Enter(r, mem).mem, r.esp - CONTEXT_SIZE) == r.(esp := r.esp - 12)
    ensures forall a :: !(r.esp - CONTEXT_SIZE <= a < r.esp) ==> Read(Enter(r, mem).mem, a) == Read(mem, a)
  {
    var ws, st := Pushed(r), Enter(r, mem);
    PushAllReads(Stack(r.esp, mem), ws);
    hide PushAll, Read;
    var c := r.esp - CONTEXT_SIZE;
    forall i: nat | i < 15 ensures Read(st.mem, c + 4 * i) == ws[14 - i] {
      assert c + 4 * i == r.esp - 4 - 4 * (14 - i);
    }
    assert Read(st.mem, c + 4 * 0) == ws[14] == r.gs;
    assert Read(st.mem, c + 4 * 1) == ws[13] == r.fs;
    assert Read(st.mem, c + 4 * 2) == ws[12] == r.es;
    assert Read(st.mem, c + 4 * 3) == ws[11] == r.ds;
    assert Read(st.mem, c + 4 * 4) == ws[10] == r.edi;
    assert Read(st.mem, c + 4 * 5) == ws[9] == r.esi;
    assert Read(st.mem, c + 4 * 6) == ws[8] == r.ebp;
    assert Read(st.mem, c + 4 * 7) == ws[7] == r.esp - 12;
    assert Read(st.mem, c + 4 * 8) == ws[6] == r.ebx;
    assert Read(st.mem, c + 4 * 9) == ws[5] == r.edx;
    assert Read(st.mem, c + 4 * 10) == ws[4] == r.ecx;
    assert Read(st.mem, c + 4 * 11) == ws[3] == r.eax;
    assert Read(st.mem, c + 4 * 12) == ws[2] == r.eip;
    assert Read(st.mem, c + 4 * 13) == ws[1] == r.cs;
    assert Read(st.mem, c + 4 * 14) == ws[0] == r.eflags;
  }

  /** The places are those where the processor and the handler put the registers. */
  lemma PushOrder(r: Regs, mem: Memory)
    ensures var m := Enter(r, mem).mem;
      && Read(m, r.esp - 4) == r.eflags && Read(m, r.esp - 8) == r.cs && Read(m, r.esp - 12) == r.eip
      && Read(m, r.esp - 16) == r.eax && Read(m, r.esp - 20) == r.ecx && Read(m, r.esp - 24) == r.edx
      && Read(m, r.esp - 28) == r.ebx && Read(m, r.esp - 32) == r.esp - 12 && Read(m, r.esp - 36) == r.ebp
      && Read(m, r.esp - 40) == r.esi && Read(m, r.esp - 44) == r.edi && Read(m, r.esp - 48) == r.ds
      && Read(m, r.esp - 52) == r.es && Read(m, r.esp - 56) == r.fs && Read(m, r.esp - 60) == r.gs
  {
    EntryMatchesStruct(r, mem);
    hide Enter, Read;
  }

  /** The pop order is too: the handler restores what the struct holds. */
  lemma ExitMatchesStruct(mem: Memory, c: int)
    ensures Leave(mem, c) == ContextAt(mem, c).(esp := c + CONTEXT_SIZE)
  {
  }

  // ----- sys_call on contexts -----

  /** `saved` is each block's `contextPtr`, `kernel` is `sysStackPtr`. */
  datatype Computer = Computer(s: Sys, regs: Regs, mem: Memory, saved: map<int, int>, kernel: int)

  function Saved(c: Computer, a: int): int {
    if a in c.saved then c.saved[a] else 0
  }

  /** The system call, given the context it was entered with: the new state and the context to
      leave through. */
  function SysCallOn(c: Computer, cur: int): (Computer, int) {
    var k := c.(kernel := if c.s.running.None? then cur else c.kernel);
    var op := Read(c.mem, cur + EAX);
    if op == 1 then
      var s' := SysCall(c.s, IDLE);
      var mem' := c.mem[cur + EAX := -1];
      if c.s.ready == [] then
        (k.(s := s', mem := mem'), k.kernel)
      else if c.s.running.None? then
        (k.(s := s', mem := mem'), Saved(c, c.s.ready[0].addr))
      else
        var d := k.(s := s', mem := mem', saved := c.saved[c.s.running.value.addr := cur]);
        (d, Saved(d, c.s.ready[0].addr))
    else if op == 0 then
      var s' := SysCall(c.s, EXIT);
      var to := if c.s.ready == [] then k.kernel else Saved(c, c.s.ready[0].addr);
      (k.(s := s', mem := c.mem[to + EAX := -1]), to)
    else
      (k.(mem := c.mem[cur + EAX := -1]), cur)
  }

  /** One software interrupt; the kernel's C frames scribble `scratch` below the context. */
  function Interrupt(c: Computer, scratch: Memory): Computer {
    var entered := Enter(c.regs, c.mem);
    var (d, to) := SysCallOn(c.(mem := entered.mem + scratch), entered.esp);
    d.(regs := Leave(d.mem, to))
  }

  /** The memory on entry to the C code. */
  function EntryMemory(c: Computer, scratch: Memory): Memory {
    Enter(c.regs, c.mem).mem + scratch
  }

  // ----- Stacks -----

  predicate IsRunning(s: Sys, a: int) {
    s.running.Some? && s.running.value.addr == a
  }

  predicate InStack(a: int, x: int) {
    StackBase(a) <= x < StackBase(a) + STACK_SIZE
  }

  /** Memory is the same on the stack of every live block but the running one. */
  ghost predicate OthersKept(s: Sys, mem: Memory, mem': Memory) {
    forall a, x :: a in s.live && !IsRunning(s, a) && InStack(a, x)
      ==> Read(mem', x) == Read(mem, x)
  }

  /** The stack pointer is in the running process's stack, with room for a context; kmain's is
      in the kernel image, below the heap. */
  predicate HasRoom(s: Sys, esp: int) {
    match s.running
    case None => esp <= KernelHeap.BASE
    case Some(p) => StackBase(p.addr) + CONTEXT_SIZE <= esp <= StackBase(p.addr) + STACK_SIZE
  }

  // ----- Everything that can happen -----

  datatype Action =
    | Compute(regs: Regs, mem: Memory)
    | Trap(scratch: Memory)
    | Command(e: Event, mem: Memory)

  function Apply(c: Computer, act: Action): Computer {
    match act
    case Compute(regs, mem) => c.(regs := regs, mem := mem)
    case Trap(scratch) => Interrupt(c, scratch)
    case Command(e, mem) =>
      var s' := Step(c.s, e);
      c.(s := s', mem := mem,
         saved := c.saved + map a | a in s'.live.Keys - c.s.live.Keys :: FirstContext(a))
  }

  /** A process writes to no stack but its own and does not overflow it, and the kernel's frames
      for a call are on the caller's stack. Commands set up new blocks but leave the stacks of
      the others alone. */
  ghost predicate Allowed(c: Computer, act: Action) {
    match act
    case Compute(regs, mem) => HasRoom(c.s, regs.esp) && OthersKept(c.s, c.mem, mem)
    case Trap(scratch) =>
      OthersKept(c.s, c.mem, c.mem + scratch) &&
      forall x :: x in scratch ==> x < c.regs.esp - CONTEXT_SIZE
    case Command(e, mem) => !e.Call? && OthersKept(c.s, c.mem, mem)
  }

  ghost predicate Sane(c: Computer) {
    && Inv(c.s) && HasRoom(c.s, c.regs.esp)
    && forall a :: a in c.s.live && !IsRunning(c.s, a) ==>
         a in c.saved && StackBase(a) <= c.saved[a] <= FirstContext(a)
  }

  // ----- What a call leaves of memory -----

  /** The caller's stack pointer and everything from it up, and the other stacks, survive entry. */
  lemma EntryKeeps(c: Computer, scratch: Memory)
    requires Sane(c) && Allowed(c, Trap(scratch))
    ensures var mem := EntryMemory(c, scratch);
      && Entered(c, scratch) && OthersKept(c.s, c.mem, mem)
      && forall x :: x >= c.regs.esp ==> Read(mem, x) == Read(c.mem, x)
  {
    var entered := Enter(c.regs, c.mem);
    var mem := entered.mem + scratch;
    EntryMatchesStruct(c.regs, c.mem);
    hide Enter, Inv;
    assert forall x :: x >= c.regs.esp - CONTEXT_SIZE ==> Read(mem, x) == Read(entered.mem, x);
    forall a, x | a in c.s.live && !IsRunning(c.s, a) && InStack(a, x)
      ensures Read(mem, x) == Read(c.mem, x)
    {
      Elsewhere(c, a, x);
      if x !in scratch {
      } else {
        assert Read(c.mem + scratch, x) == Read(c.mem, x);
      }
    }
  }

  /** Another block's stack lies outside the context of a call. */
  lemma Elsewhere(c: Computer, a: int, x: int)
    requires Sane(c) && a in c.s.live && !IsRunning(c.s, a) && InStack(a, x)
    ensures !(c.regs.esp - CONTEXT_SIZE <= x < c.regs.esp)
  {
    if c.s.running.Some? {
      var r := c.s.running.value.addr;
      OnePlace(c.s, r);
      assert r < a ==> r + PCB_SIZE + STACK_SIZE <= a;
      assert a < r ==> a + PCB_SIZE + STACK_SIZE <= r;
    }
  }

  // ----- The three ways a call returns to a process -----

  lemma PokeEax(mem: Memory, c: int)
    ensures ContextAt(mem[c + EAX := -1], c) == ContextAt(mem, c).(eax := -1)
  {
  }

  /** sys_call finds the request code in the eax slot of the context just pushed. */
  ghost predicate Entered(c: Computer, scratch: Memory) {
    && Enter(c.regs, c.mem).esp == c.regs.esp - CONTEXT_SIZE
    && ContextAt(EntryMemory(c, scratch), c.regs.esp - CONTEXT_SIZE) == c.regs.(esp := c.regs.esp - 12)
  }

  /** READ and WRITE return to the caller with eax = -1 and every other register as it was. */
  lemma OtherReturns(c: Computer, scratch: Memory)
    requires Entered(c, scratch) && c.regs.eax != 0 && c.regs.eax != 1
    ensures var d := Interrupt(c, scratch);
      && d.s == c.s && d.saved == c.saved && d.regs == c.regs.(eax := -1)
      && d.mem == EntryMemory(c, scratch)[c.regs.esp - CONTEXT_SIZE + EAX := -1]
  {
    var cur, mem := c.regs.esp - CONTEXT_SIZE, EntryMemory(c, scratch);
    PokeEax(mem, cur);
    ExitMatchesStruct(mem[cur + EAX := -1], cur);
    assert Read(mem, cur + EAX) == c.regs.eax;
    hide Enter, Read, ContextAt, Leave;
  }

  /** The running process's context is saved; kmain's is not. */
  function SavedOf(c: Computer, context: int): map<int, int> {
    if c.s.running.Some? then c.saved[c.s.running.value.addr := context] else c.saved
  }

  lemma IdleReturns(c: Computer, scratch: Memory)
    requires Entered(c, scratch) && c.regs.eax == 1 && c.s.ready != []
    ensures var d := Interrupt(c, scratch);
      && d.s == Idle(c.s)
      && d.saved == SavedOf(c, c.regs.esp - CONTEXT_SIZE)
      && d.mem == EntryMemory(c, scratch)[c.regs.esp - CONTEXT_SIZE + EAX := -1]
      && d.regs == ContextAt(d.mem, Saved(d, c.s.ready[0].addr)).(esp := Saved(d, c.s.ready[0].addr) + CONTEXT_SIZE)
  {
    var d := Interrupt(c, scratch);
    ExitMatchesStruct(d.mem, Saved(d, c.s.ready[0].addr));
    assert Read(EntryMemory(c, scratch), c.regs.esp - CONTEXT_SIZE + EAX) == c.regs.eax;
    hide Enter, Read, ContextAt, Leave, Idle, Exit;
  }

  lemma ExitReturns(c: Computer, scratch: Memory)
    requires Entered(c, scratch) && c.regs.eax == 0 && c.s.ready != []
    ensures var d, to := Interrupt(c, scratch), Saved(c, c.s.ready[0].addr);
      && d.s == Exit(c.s) && d.saved == c.saved
      && d.mem == EntryMemory(c, scratch)[to + EAX := -1]
      && d.regs == ContextAt(d.mem, to).(esp := to + CONTEXT_SIZE)
  {
    var d := Interrupt(c, scratch);
    ExitMatchesStruct(d.mem, Saved(c, c.s.ready[0].addr));
    assert Read(EntryMemory(c, scratch), c.regs.esp - CONTEXT_SIZE + EAX) == c.regs.eax;
    hide Enter, Read, ContextAt, Leave, Idle, Exit;
  }

  lemma PowersOff(c: Computer, scratch: Memory)
    requires Entered(c, scratch) && c.s.ready == [] && (c.regs.eax == 0 || c.regs.eax == 1)
    ensures var d, cur := Interrupt(c, scratch), c.regs.esp - CONTEXT_SIZE;
      && d.s.status == PoweredOff && (d.s.running == c.s.running || d.s.running.None?)
      && d.kernel == (if c.s.running.None? then cur else c.kernel)
      && d.mem == EntryMemory(c, scratch)[(if c.regs.eax == 1 then cur else d.kernel) + EAX := -1]
      && d.regs == ContextAt(d.mem, d.kernel).(esp := d.kernel + CONTEXT_SIZE)
  {
    var d := Interrupt(c, scratch);
    ExitMatchesStruct(d.mem, d.kernel);
    assert Read(EntryMemory(c, scratch), c.regs.esp - CONTEXT_SIZE + EAX) == c.regs.eax;
    hide Enter, Read, ContextAt, Leave;
  }

  // ----- A process that is not running is frozen -----

  /** The same registers, but for the stack pointer, and for eax if a system call has returned. */
  predicate SameBut(x: Regs, r: Regs) {
    x.(esp := r.esp, eax := r.eax) == r && (x.eax == r.eax || x.eax == -1)
  }

  /** The saved context of a process that is to run with registers r, and its stack above that as
      it is in the memory image. */
  ghost predicate FrozenMemory(mem: Memory, a: int, r: Regs, image: Memory) {
    && SameBut(ContextAt(mem, r.esp - CONTEXT_SIZE), r)
    && forall x :: r.esp <= x < StackBase(a) + STACK_SIZE ==> Read(mem, x) == Read(image, x)
  }

  ghost predicate Frozen(c: Computer, a: int, r: Regs, image: Memory) {
    && a in c.s.live && !IsRunning(c.s, a)
    && a in c.saved && c.saved[a] == r.esp - CONTEXT_SIZE
    && FrozenMemory(c.mem, a, r, image)
  }

  /** Running with those registers, on the same stack. */
  ghost predicate Resumed(c: Computer, a: int, r: Regs, image: Memory) {
    && IsRunning(c.s, a) && SameBut(c.regs, r) && c.regs.esp == r.esp
    && forall x :: r.esp <= x < StackBase(a) + STACK_SIZE ==> Read(c.mem, x) == Read(image, x)
  }

  /** The stack of one block is the same in both memories. */
  ghost predicate Kept(mem: Memory, mem': Memory, a: int) {
    forall x :: InStack(a, x) ==> Read(mem', x) == Read(mem, x)
  }

  lemma FrozenKept(mem: Memory, mem': Memory, a: int, r: Regs, image: Memory)
    requires FrozenMemory(mem, a, r, image) && StackBase(a) <= r.esp - CONTEXT_SIZE
    requires r.esp <= StackBase(a) + STACK_SIZE
    requires Kept(mem, mem', a)
    ensures FrozenMemory(mem', a, r, image)
  {
    var c := r.esp - CONTEXT_SIZE;
    forall x | c <= x < StackBase(a) + STACK_SIZE ensures Read(mem', x) == Read(mem, x) {
      assert InStack(a, x);
    }
    hide Read;
  }

  /** Setting the saved eax to -1 once more changes nothing. */
  lemma FrozenPoked(mem: Memory, a: int, r: Regs, image: Memory)
    requires FrozenMemory(mem, a, r, image)
    ensures FrozenMemory(mem[r.esp - CONTEXT_SIZE + EAX := -1], a, r, image)
  {
    PokeEax(mem, r.esp - CONTEXT_SIZE);
  }

  lemma StacksApart(s: Sys, a: int, b: int, x: int)
    requires Inv(s) && a in s.live && b in s.live && a != b && InStack(b, x)
    ensures !InStack(a, x)
  {
    assert a < b ==> a + PCB_SIZE + STACK_SIZE <= b;
    assert b < a ==> b + PCB_SIZE + STACK_SIZE <= a;
  }

  lemma PokeKeeps(mem: Memory, mem': Memory, at: int, a: int)
    requires Kept(mem, mem', a) && !InStack(a, at)
    ensures Kept(mem, mem'[at := -1], a)
  {
  }

  // ----- Runs -----

  /** Freed, and behind every address the heap will still hand out. */
  predicate Gone(c: Computer, a: int) {
    a !in c.s.live && a < c.s.heap
  }

  /** What is known of the process that yielded, for as long as it has not run again. */
  ghost predicate Tracked(c: Computer, a: int, r: Regs, image: Memory) {
    c.s.status == Live ==> Sane(c) && (Frozen(c, a, r, image) || Gone(c, a))
  }

  /** The other registers of a yielded process go nowhere while it waits. */
  ghost predicate Follows(d: Computer, a: int, r: Regs, image: Memory) {
    if IsRunning(d.s, a) then Resumed(d, a, r, image) else Tracked(d, a, r, image)
  }

  /** The running process's stack and the others are apart, so its writes and its context are
      never in another's saved context. */
  lemma ContextElsewhere(c: Computer, a: int)
    requires Sane(c) && a in c.s.live && !IsRunning(c.s, a)
    ensures !InStack(a, c.regs.esp - CONTEXT_SIZE + EAX)
  {
    if InStack(a, c.regs.esp - CONTEXT_SIZE + EAX) {
      Elsewhere(c, a, c.regs.esp - CONTEXT_SIZE + EAX);
    }
  }

  ghost predicate FrozenOrResumed(c: Computer, a: int, r: Regs, image: Memory) {
    if IsRunning(c.s, a) then Resumed(c, a, r, image) else Frozen(c, a, r, image)
  }

  lemma FrozenOnEntry(c: Computer, scratch: Memory, a: int, r: Regs, image: Memory)
    requires Sane(c) && Allowed(c, Trap(scratch)) && Frozen(c, a, r, image)
    ensures Entered(c, scratch) && Kept(c.mem, EntryMemory(c, scratch), a)
    ensures FrozenMemory(EntryMemory(c, scratch), a, r, image)
    ensures FrozenMemory(EntryMemory(c, scratch)[c.regs.esp - CONTEXT_SIZE + EAX := -1], a, r, image)
  {
    var mem := EntryMemory(c, scratch);
    EntryKeeps(c, scratch);
    ContextElsewhere(c, a);
    assert Kept(c.mem, mem, a);
    assert StackBase(a) <= r.esp - CONTEXT_SIZE && r.esp <= StackBase(a) + STACK_SIZE;
    hide Inv, EntryMemory, Read, FrozenMemory, Kept, InStack;
    FrozenKept(c.mem, mem, a, r, image);
    PokeKeeps(c.mem, mem, c.regs.esp - CONTEXT_SIZE + EAX, a);
    FrozenKept(c.mem, mem[c.regs.esp - CONTEXT_SIZE + EAX := -1], a, r, image);
  }

  lemma FrozenOnExit(c: Computer, mem: Memory, a: int, r: Regs, image: Memory)
    requires Sane(c) && Frozen(c, a, r, image) && FrozenMemory(mem, a, r, image) && c.s.ready != []
    ensures FrozenMemory(mem[Saved(c, c.s.ready[0].addr) + EAX := -1], a, r, image)
  {
    hide Inv, Read, FrozenMemory, Kept;
    var next, at := c.s.ready[0].addr, Saved(c, c.s.ready[0].addr) + EAX;
    NextInLive(c.s);
    if next == a {
      FrozenPoked(mem, a, r, image);
    } else {
      assert InStack(next, at);
      StacksApart(c.s, a, next, at);
      NothingKept(mem, a);
      PokeKeeps(mem, mem, at, a);
      FrozenKept(mem, mem[at := -1], a, r, image);
    }
  }

  lemma NothingKept(mem: Memory, a: int)
    ensures Kept(mem, mem, a)
  {
  }

  /** A system call that does not switch to a leaves it frozen; one that does resumes it. */
  lemma TrapFrozen(c: Computer, scratch: Memory, a: int, r: Regs, image: Memory)
    requires Sane(c) && Allowed(c, Trap(scratch)) && Frozen(c, a, r, image)
    requires c.s.ready != [] || (c.regs.eax != 0 && c.regs.eax != 1)
    ensures FrozenOrResumed(Interrupt(c, scratch), a, r, image)
  {
    if c.regs.eax == 1 {
      IdleFrozen(c, scratch, a, r, image);
    } else if c.regs.eax == 0 {
      ExitFrozen(c, scratch, a, r, image);
    } else {
      OtherFrozen(c, scratch, a, r, image);
    }
  }

  lemma IdleFrozen(c: Computer, scratch: Memory, a: int, r: Regs, image: Memory)
    requires Sane(c) && Allowed(c, Trap(scratch)) && Frozen(c, a, r, image) && c.s.ready != [] && c.regs.eax == 1
    ensures FrozenOrResumed(Interrupt(c, scratch), a, r, image)
  {
    hide Sane, Allowed, Inv, Interrupt, EntryMemory, FrozenMemory, Read, ContextAt, Idle;
    hide FrozenOrResumed, Kept, Entered;
    FrozenOnEntry(c, scratch, a, r, image);
    IdleReturns(c, scratch);
    IdleSwitch(c.s);
    SwitchedTo(c, Interrupt(c, scratch), a, r, image);
  }

  lemma ExitFrozen(c: Computer, scratch: Memory, a: int, r: Regs, image: Memory)
    requires Sane(c) && Allowed(c, Trap(scratch)) && Frozen(c, a, r, image) && c.s.ready != [] && c.regs.eax == 0
    ensures FrozenOrResumed(Interrupt(c, scratch), a, r, image)
  {
    hide Sane, Allowed, Inv, Interrupt, EntryMemory, FrozenMemory, Read, ContextAt, Exit;
    hide FrozenOrResumed, Kept, Entered;
    FrozenOnEntry(c, scratch, a, r, image);
    FrozenOnExit(c, EntryMemory(c, scratch), a, r, image);
    ExitReturns(c, scratch);
    ExitSwitch(c.s);
    SwitchedTo(c, Interrupt(c, scratch), a, r, image);
  }

  lemma OtherFrozen(c: Computer, scratch: Memory, a: int, r: Regs, image: Memory)
    requires Sane(c) && Allowed(c, Trap(scratch)) && Frozen(c, a, r, image) && c.regs.eax != 0 && c.regs.eax != 1
    ensures FrozenOrResumed(Interrupt(c, scratch), a, r, image)
  {
    hide Sane, Allowed, Inv, Interrupt, EntryMemory, FrozenMemory, Read, ContextAt, Kept, Entered;
    FrozenOnEntry(c, scratch, a, r, image);
    OtherReturns(c, scratch);
  }

  /** Reading off the outcome of a switch. */
  lemma SwitchedTo(c: Computer, d: Computer, a: int, r: Regs, image: Memory)
    requires Frozen(c, a, r, image) && c.s.ready != []
    requires d.s.running == Some(c.s.ready[0]) && a in d.s.live
    requires a in d.saved && d.saved[a] == c.saved[a] && FrozenMemory(d.mem, a, r, image)
    requires d.regs == ContextAt(d.mem, Saved(d, c.s.ready[0].addr)).(esp := Saved(d, c.s.ready[0].addr) + CONTEXT_SIZE)
    ensures FrozenOrResumed(d, a, r, image)
  {
    hide ContextAt, Read;
  }

  lemma IdleSwitch(s: Sys)
    requires s.ready != []
    ensures Idle(s).running == Some(s.ready[0]) && Idle(s).status == s.status
    ensures Idle(s).live == s.live && Idle(s).heap == s.heap
  {
    IdleFrame(s);
    RemoveFrame(s, s.ready[0]);
    if s.running.Some? {
      InsertFrame(s, s.running.value);
      RemoveFrame(Insert(s, s.running.value), s.ready[0]);
    }
  }

  lemma ExitSwitch(s: Sys)
    requires s.ready != []
    ensures Exit(s).running == Some(s.ready[0]) && Exit(s).status == s.status && Exit(s).heap == s.heap
    ensures Exit(s).live == if s.running.Some? then s.live - {s.running.value.addr} else s.live
  {
    RemoveFrame(Free(s, s.running), s.ready[0]);
  }

  lemma NextInLive(s: Sys)
    requires Inv(s) && s.ready != []
    ensures s.ready[0].addr in s.live && !IsRunning(s, s.ready[0].addr)
  {
    assert s.ready[0] in Queue(s, ReadyQ);
    OnePlace(s, s.ready[0].addr);
  }

  /** The yield itself. */
  lemma YieldFreezes(c: Computer, scratch: Memory)
    requires Sane(c) && Allowed(c, Trap(scratch)) && c.regs.eax == 1 && c.s.running.Some? && c.s.ready != []
    ensures Frozen(Interrupt(c, scratch), c.s.running.value.addr, c.regs.(eax := -1), c.mem)
  {
    hide Inv, Allowed, Interrupt, EntryMemory, OthersKept, Idle, ContextAt, Read, Frozen;
    EntryKeeps(c, scratch);
    IdleReturns(c, scratch);
    IdleSwitch(c.s);
    NextInLive(c.s);
    OnePlace(c.s, c.s.running.value.addr);
    Yielded(c, Interrupt(c, scratch), EntryMemory(c, scratch), c.s.ready[0]);
  }

  lemma Yielded(c: Computer, d: Computer, mem: Memory, next: Proc)
    requires c.s.running.Some? && c.s.running.value.addr in c.s.live && d.s.live == c.s.live
    requires d.s.running == Some(next) && next.addr != c.s.running.value.addr
    requires d.saved == c.saved[c.s.running.value.addr := c.regs.esp - CONTEXT_SIZE]
    requires d.mem == mem[c.regs.esp - CONTEXT_SIZE + EAX := -1]
    requires ContextAt(mem, c.regs.esp - CONTEXT_SIZE) == c.regs.(esp := c.regs.esp - 12)
    requires forall x :: x >= c.regs.esp ==> Read(mem, x) == Read(c.mem, x)
    ensures Frozen(d, c.s.running.value.addr, c.regs.(eax := -1), c.mem)
  {
    hide ContextAt, Read;
    YieldMemory(mem, c.mem, c.s.running.value.addr, c.regs);
  }

  lemma YieldMemory(mem: Memory, image: Memory, a: int, r: Regs)
    requires ContextAt(mem, r.esp - CONTEXT_SIZE) == r.(esp := r.esp - 12)
    requires forall x :: x >= r.esp ==> Read(mem, x) == Read(image, x)
    ensures FrozenMemory(mem[r.esp - CONTEXT_SIZE + EAX := -1], a, r.(eax := -1), image)
  {
    PokeEax(mem, r.esp - CONTEXT_SIZE);
    hide ContextAt;
  }

  /** Every block's saved context after a switch: kept, or the yielder's new one. */
  ghost predicate SavedFrom(c: Computer, d: Computer) {
    forall a :: a in d.s.live ==>
      a in c.s.live && a in d.saved &&
      d.saved[a] == if IsRunning(c.s, a) then c.regs.esp - CONTEXT_SIZE else Saved(c, a)
  }

  lemma SwitchSane(c: Computer, d: Computer)
    requires Sane(c) && Inv(d.s) && c.s.ready != [] && d.s.running == Some(c.s.ready[0])
    requires c.s.ready[0].addr in c.s.live && !IsRunning(c.s, c.s.ready[0].addr)
    requires SavedFrom(c, d) && d.s.live.Keys <= c.s.live.Keys && c.s.ready[0].addr in d.s.live
    requires d.regs.esp == Saved(d, c.s.ready[0].addr) + CONTEXT_SIZE
    ensures Sane(d)
  {
    hide Inv;
  }

  lemma SavedOnIdle(c: Computer, d: Computer)
    requires Sane(c) && d.s.live == c.s.live
    requires d.saved == SavedOf(c, c.regs.esp - CONTEXT_SIZE)
    ensures SavedFrom(c, d)
  {
    hide Inv;
  }

  lemma SavedOnExit(c: Computer, d: Computer)
    requires Sane(c) && d.saved == c.saved
    requires d.s.live == if c.s.running.Some? then c.s.live - {c.s.running.value.addr} else c.s.live
    ensures SavedFrom(c, d)
  {
    hide Inv;
  }

  /** Calls keep the computer sane while it is on. */
  lemma TrapSane(c: Computer, scratch: Memory)
    requires Sane(c) && Allowed(c, Trap(scratch))
    requires c.s.ready != [] || (c.regs.eax != 0 && c.regs.eax != 1)
    ensures Sane(Interrupt(c, scratch))
  {
    EntryKeeps(c, scratch);
    if c.regs.eax == 1 {
      IdleSane(c, scratch);
    } else if c.regs.eax == 0 {
      ExitSane(c, scratch);
    } else {
      OtherReturns(c, scratch);
      hide Inv, Allowed, Entered, OthersKept, Interrupt;
    }
  }

  lemma IdleSane(c: Computer, scratch: Memory)
    requires Sane(c) && Entered(c, scratch) && c.s.ready != [] && c.regs.eax == 1
    ensures Sane(Interrupt(c, scratch))
  {
    var d := Interrupt(c, scratch);
    IdleReturns(c, scratch);
    IdleSwitch(c.s);
    IdleKeeps(c.s);
    NextInLive(c.s);
    hide Inv, Entered, OthersKept, Interrupt, Idle, Sane, SavedFrom, EntryMemory;
    SavedOnIdle(c, d);
    assert Inv(d.s);
    SwitchSane(c, d);
  }

  lemma ExitSane(c: Computer, scratch: Memory)
    requires Sane(c) && Entered(c, scratch) && c.s.ready != [] && c.regs.eax == 0
    ensures Sane(Interrupt(c, scratch))
  {
    var d := Interrupt(c, scratch);
    ExitReturns(c, scratch);
    ExitSwitch(c.s);
    ExitKeeps(c.s);
    NextInLive(c.s);
    hide Inv, Entered, OthersKept, Interrupt, Exit, Sane, SavedFrom, EntryMemory;
    SavedOnExit(c, d);
    assert Inv(d.s);
    SwitchSane(c, d);
  }

  // ----- Whatever happens, in any order -----

  lemma ComputeFollows(c: Computer, regs: Regs, mem: Memory, a: int, r: Regs, image: Memory)
    requires Sane(c) && Allowed(c, Compute(regs, mem)) && Tracked(c, a, r, image) && !IsRunning(c.s, a)
    requires c.s.status == Live
    ensures Follows(Apply(c, Compute(regs, mem)), a, r, image)
  {
    hide Inv, FrozenMemory;
    if Frozen(c, a, r, image) {
      assert Kept(c.mem, mem, a);
      FrozenKept(c.mem, mem, a, r, image);
    }
  }

  lemma CommandFollows(c: Computer, e: Event, mem: Memory, a: int, r: Regs, image: Memory)
    requires Sane(c) && Allowed(c, Command(e, mem)) && Tracked(c, a, r, image) && !IsRunning(c.s, a)
    requires c.s.status == Live
    ensures Follows(Apply(c, Command(e, mem)), a, r, image)
  {
    hide Inv, FrozenMemory, Step, Sane, Kept, OthersKept;
    CommandGrows(c.s, e);
    StepKept(c, e);
    CommandSane(c, e, mem);
    if Frozen(c, a, r, image) {
      FrozenInHeap(c, a, r, image);
      KeptForOne(c.s, c.mem, mem, a);
      FrozenKept(c.mem, mem, a, r, image);
    }
  }

  lemma StepKept(c: Computer, e: Event)
    requires Sane(c)
    ensures Inv(Step(c.s, e))
  {
    hide Inv, Step;
    StepKeeps(c.s, e);
  }

  lemma FrozenInHeap(c: Computer, a: int, r: Regs, image: Memory)
    requires Sane(c) && Frozen(c, a, r, image)
    ensures a < c.s.heap && StackBase(a) <= r.esp - CONTEXT_SIZE && r.esp <= StackBase(a) + STACK_SIZE
  {
    hide Partition, Homed, Ordered, FrozenMemory;
  }

  lemma KeptForOne(s: Sys, mem: Memory, mem': Memory, a: int)
    requires OthersKept(s, mem, mem') && a in s.live && !IsRunning(s, a)
    ensures Kept(mem, mem', a)
  {
  }

  lemma CommandSane(c: Computer, e: Event, mem: Memory)
    requires Sane(c) && Grows(c.s, Step(c.s, e)) && Inv(Step(c.s, e))
    ensures Sane(Apply(c, Command(e, mem)))
  {
    hide Inv, Step;
  }

  lemma TrapFollows(c: Computer, scratch: Memory, a: int, r: Regs, image: Memory)
    requires Sane(c) && Allowed(c, Trap(scratch)) && Tracked(c, a, r, image) && !IsRunning(c.s, a)
    requires c.s.status == Live
    ensures Follows(Interrupt(c, scratch), a, r, image)
  {
    if c.s.ready != [] || (c.regs.eax != 0 && c.regs.eax != 1) {
      TrapSane(c, scratch);
      if Frozen(c, a, r, image) {
        TrapFrozen(c, scratch, a, r, image);
        hide Sane, Allowed, Interrupt, FrozenMemory, Resumed, Frozen;
      } else {
        GoneStays(c, scratch, a);
        hide Sane, Allowed, Interrupt, FrozenMemory;
      }
    } else {
      EntryKeeps(c, scratch);
      PowersOff(c, scratch);
      hide Sane, Allowed, Interrupt, FrozenMemory;
    }
  }

  lemma GoneStays(c: Computer, scratch: Memory, a: int)
    requires Sane(c) && Allowed(c, Trap(scratch)) && Gone(c, a)
    requires c.s.ready != [] || (c.regs.eax != 0 && c.regs.eax != 1)
    ensures Gone(Interrupt(c, scratch), a) && !IsRunning(Interrupt(c, scratch).s, a)
  {
    EntryKeeps(c, scratch);
    if c.s.running.Some? { OnePlace(c.s, c.s.running.value.addr); }
    if c.regs.eax == 1 {
      IdleReturns(c, scratch);
      IdleSwitch(c.s);
      NextInLive(c.s);
      hide Sane, Allowed, Interrupt, Inv, Idle;
    } else if c.regs.eax == 0 {
      ExitReturns(c, scratch);
      ExitSwitch(c.s);
      NextInLive(c.s);
      hide Sane, Allowed, Interrupt, Inv, Exit;
    } else {
      OtherReturns(c, scratch);
      hide Sane, Allowed, Interrupt, Inv;
    }
  }

  lemma ActionFollows(c: Computer, act: Action, a: int, r: Regs, image: Memory)
    requires c.s.status == Live && Sane(c) && Allowed(c, act) && Tracked(c, a, r, image) && !IsRunning(c.s, a)
    ensures Follows(Apply(c, act), a, r, image)
  {
    match act
    case Compute(regs, mem) => ComputeFollows(c, regs, mem, a, r, image);
    case Trap(scratch) => TrapFollows(c, scratch, a, r, image);
    case Command(e, mem) => CommandFollows(c, e, mem, a, r, image);
  }

  function After(c: Computer, acts: seq<Action>): Computer
    decreases |acts|
  {
    if acts == [] then c else After(Apply(c, acts[0]), acts[1..])
  }

  /** Allowed throughout, with the machine on, and a not running until perhaps at the end. */
  ghost predicate Happens(c: Computer, acts: seq<Action>, a: int)
    decreases |acts|
  {
    acts == [] ||
    (c.s.status == Live && !IsRunning(c.s, a) && Allowed(c, acts[0]) && Happens(Apply(c, acts[0]), acts[1..], a))
  }

  lemma {:induction false} Transparency(c: Computer, acts: seq<Action>, a: int, r: Regs, image: Memory)
    requires Follows(c, a, r, image) && Happens(c, acts, a)
    ensures Follows(After(c, acts), a, r, image)
    decreases |acts|
  {
    if acts != [] {
      hide Sane, Allowed, Frozen, Resumed, Gone, Apply;
      ActionFollows(c, acts[0], a, r, image);
      Transparency(Apply(c, acts[0]), acts[1..], a, r, image);
    }
  }

  /** The stack above a stack pointer is the same in both memories. */
  ghost predicate SameStack(mem: Memory, image: Memory, a: int, esp: int) {
    forall x :: esp <= x < StackBase(a) + STACK_SIZE ==> Read(mem, x) == Read(image, x)
  }

  /** A process yields; other processes compute, call, exit and issue commands in any order; when
      it next runs, every register but eax is what it was and so is its stack. */
  lemma YieldIsTransparent(c: Computer, scratch: Memory, acts: seq<Action>)
    requires c.s.status == Live && Sane(c) && Allowed(c, Trap(scratch))
    requires c.regs.eax == 1 && c.s.running.Some? && c.s.ready != []
    requires Happens(Interrupt(c, scratch), acts, c.s.running.value.addr)
    ensures var a, d := c.s.running.value.addr, After(Interrupt(c, scratch), acts);
      IsRunning(d.s, a) ==> d.regs == c.regs.(eax := -1) && SameStack(d.mem, c.mem, a, c.regs.esp)
  {
    hide Sane, Allowed, Interrupt, Frozen, Happens, After;
    var a, d, r := c.s.running.value.addr, Interrupt(c, scratch), c.regs.(eax := -1);
    YieldFreezes(c, scratch);
    TrapSane(c, scratch);
    NotRunning(d, a, r, c.mem);
    Transparency(d, acts, a, r, c.mem);
  }

  lemma NotRunning(d: Computer, a: int, r: Regs, image: Memory)
    requires Frozen(d, a, r, image)
    ensures !IsRunning(d.s, a)
  {
  }

  lemma KeptItself(s: Sys, mem: Memory)
    ensures OthersKept(s, mem, mem)
  {
  }

  // ----- A new process -----

  /** The frame that `pcb_setup` writes at the top of a new stack. */
  function InitialRegs(a: int, entry: int): Regs {
    Regs(0x10, 0x10, 0x10, 0x10, 0, 0, 0, FirstContext(a) + CONTEXT_SIZE, 0, 0, 0, 0, entry, 0x08, 0x202)
  }

  /** A stack that has been filled with zeros: nothing in it counts as written. */
  function Cleared(mem: Memory, a: int): Memory {
    mem - set x | StackBase(a) <= x < StackBase(a) + STACK_SIZE && InStack(a, x)
  }

  /** Memory outside one stack is the same. */
  ghost predicate OnlyStack(a: int, mem: Memory, mem': Memory) {
    forall x :: !InStack(a, x) ==> Read(mem', x) == Read(mem, x)
  }

  /** The next block's stack is none of those in use. */
  lemma NewStackApart(s: Sys, mem: Memory, mem': Memory)
    requires Inv(s) && OnlyStack(s.heap, mem, mem')
    ensures OthersKept(s, mem, mem')
  {
    hide Partition, Homed, Ordered, Read;
    forall a, x | a in s.live && !IsRunning(s, a) && InStack(a, x) ensures Read(mem', x) == Read(mem, x) {
      assert !InStack(s.heap, x);
    }
  }

  lemma BelowItself(mem: Memory)
    ensures BelowKept(mem, mem)
  {
  }

  lemma NewStackAbove(s: Sys, mem: Memory, mem': Memory)
    requires Inv(s) && OnlyStack(s.heap, mem, mem')
    ensures BelowKept(mem, mem')
  {
    hide Partition, Homed, Ordered, Read;
    forall x | x < KernelHeap.BASE ensures Read(mem', x) == Read(mem, x) {
      assert !InStack(s.heap, x);
    }
  }

  /** Every new block starts, by its frame, where the program of its name begins. */
  ghost predicate Framed(s: Sys, t: Sys, mem: Memory, programs: map<string, int>) {
    forall a :: a in t.live && a !in s.live ==>
      t.live[a] in programs && ContextAt(mem, FirstContext(a)) == InitialRegs(a, programs[t.live[a]])
  }

  /** Memory below the heap, kmain's stack included, is the same. */
  ghost predicate BelowKept(mem: Memory, mem': Memory) {
    forall x :: x < KernelHeap.BASE ==> Read(mem', x) == Read(mem, x)
  }

  ghost predicate NamesKept(s: Sys, t: Sys) {
    forall a :: a in s.live ==> a in t.live && t.live[a] == s.live[a]
  }

  /** What loading does beside the queues: new blocks have their first contexts and frames, and
      the stacks in use and the memory below the heap stay as they are. */
  ghost predicate Extends(s: Sys, mem: Memory, saved: map<int, int>, t: Sys, mem': Memory, saved': map<int, int>,
                          programs: map<string, int>) {
    && NamesKept(s, t) && s.running == t.running && OthersKept(s, mem, mem') && BelowKept(mem, mem')
    && saved' == saved + (map a | a in t.live.Keys - s.live.Keys :: FirstContext(a))
    && Framed(s, t, mem', programs)
  }

  lemma ExtendsNothing(s: Sys, mem: Memory, saved: map<int, int>, t: Sys, programs: map<string, int>)
    requires s.live == t.live && s.running == t.running
    ensures Extends(s, mem, saved, t, mem, saved, programs)
  {
    hide ContextAt, InitialRegs;
    assert t.live.Keys - s.live.Keys == {};
    assert saved + (map a | a in t.live.Keys - s.live.Keys :: FirstContext(a)) == saved;
  }

  lemma ExtendsTwice(s: Sys, m0: Memory, v0: map<int, int>, t: Sys, m1: Memory, v1: map<int, int>,
                     u: Sys, m2: Memory, v2: map<int, int>, programs: map<string, int>)
    requires Inv(s)
    requires Extends(s, m0, v0, t, m1, v1, programs) && Extends(t, m1, v1, u, m2, v2, programs)
    ensures Extends(s, m0, v0, u, m2, v2, programs)
  {
    hide Inv, OthersKept, Framed, Read;
    KeptTwice(s, m0, t, m1, m2);
    FramedTwice(s, t, m1, u, m2, programs);
    KeysKept(s, t);
    KeysKept(t, u);
    SavedTwice(s.live.Keys, v0, t.live.Keys, v1, u.live.Keys, v2);
  }

  lemma KeysKept(s: Sys, t: Sys)
    requires NamesKept(s, t)
    ensures s.live.Keys <= t.live.Keys
  {
    forall a | a in s.live.Keys ensures a in t.live.Keys {
      assert a in s.live;
    }
  }

  lemma SavedTwice(s: set<int>, v0: map<int, int>, t: set<int>, v1: map<int, int>, u: set<int>, v2: map<int, int>)
    requires s <= t <= u
    requires v1 == v0 + (map a | a in t - s :: FirstContext(a)) && v2 == v1 + (map a | a in u - t :: FirstContext(a))
    ensures v2 == v0 + (map a | a in u - s :: FirstContext(a))
  {
    hide FirstContext;
  }

  lemma KeptTwice(s: Sys, m0: Memory, t: Sys, m1: Memory, m2: Memory)
    requires NamesKept(s, t) && s.running == t.running && OthersKept(s, m0, m1) && OthersKept(t, m1, m2)
    ensures OthersKept(s, m0, m2)
  {
    hide Read, InStack;
    forall a, x | a in s.live && !IsRunning(s, a) && InStack(a, x) ensures Read(m2, x) == Read(m0, x) {
      assert a in t.live && Read(m1, x) == Read(m0, x);
    }
  }

  lemma FramedTwice(s: Sys, t: Sys, m1: Memory, u: Sys, m2: Memory, programs: map<string, int>)
    requires Inv(s) && NamesKept(s, t) && NamesKept(t, u) && s.running == t.running && OthersKept(t, m1, m2)
    requires Framed(s, t, m1, programs) && Framed(t, u, m2, programs)
    ensures Framed(s, u, m2, programs)
  {
    hide Partition, Ordered, Spaced, ContextAt, InitialRegs, OthersKept, Kept;
    assert s.running.Some? ==> Recorded(s.live, s.running.value);
    forall a | a in u.live && a !in s.live
      ensures u.live[a] in programs && ContextAt(m2, FirstContext(a)) == InitialRegs(a, programs[u.live[a]])
    {
      if a in t.live {
        KeptForOne(t, m1, m2, a);
        ContextKept(m1, m2, a);
      }
    }
  }

  lemma ContextKept(mem: Memory, mem': Memory, a: int)
    requires Kept(mem, mem', a)
    ensures ContextAt(mem', FirstContext(a)) == ContextAt(mem, FirstContext(a))
  {
    assert forall x :: FirstContext(a) <= x < FirstContext(a) + CONTEXT_SIZE ==> InStack(a, x);
    hide Read;
  }

  /** One block more. */
  lemma ExtendsByOne(s: Sys, mem: Memory, saved: map<int, int>, t: Sys, mem': Memory, name: string,
                     programs: map<string, int>)
    requires Inv(s) && t.live == s.live[s.heap := name] && t.running == s.running && OnlyStack(s.heap, mem, mem')
    requires name in programs && ContextAt(mem', FirstContext(s.heap)) == InitialRegs(s.heap, programs[name])
    ensures Extends(s, mem, saved, t, mem', saved[s.heap := FirstContext(s.heap)], programs)
  {
    hide Inv, OnlyStack, OthersKept, BelowKept, ContextAt, InitialRegs;
    NewStackApart(s, mem, mem');
    NewStackAbove(s, mem, mem');
    HeapIsNew(s);
    assert t.live.Keys - s.live.Keys == {s.heap};
  }

  lemma HeapIsNew(s: Sys)
    requires Inv(s)
    ensures s.heap !in s.live
  {
    hide Partition, Homed, Ordered;
  }

  lemma LoadLive(s: Sys, name: string, class_: ProcessClass, priority: int)
    ensures var t := Load(s, name, class_, priority);
      && t.running == s.running
      && t.live ==
           if s.status == Live && Setup(s, name, class_, priority).1.Some? then s.live[s.heap := name] else s.live
  {
    var (s', p) := Setup(s, name, class_, priority);
    if p.Some? { InsertFrame(s', p.value); }
  }

  lemma NewIsFrozen(c: Computer, e: Event, mem: Memory, a: int, entry: int)
    requires Sane(c) && Allowed(c, Command(e, mem)) && a !in c.s.live && a in Step(c.s, e).live
    requires ContextAt(mem, FirstContext(a)) == InitialRegs(a, entry)
    ensures Frozen(Apply(c, Command(e, mem)), a, InitialRegs(a, entry), mem)
  {
    hide Partition, Ordered, Spaced, Step, ContextAt, Read;
    CommandGrows(c.s, e);
    assert c.s.running.Some? ==> Recorded(c.s.live, c.s.running.value);
  }

  /** If a runs, it does so at its entry point, with its initial registers on an empty stack: the
      stack pointer is 52 + 1024 bytes above the block. */
  ghost predicate StartsAt(d: Computer, a: int, entry: int) {
    IsRunning(d.s, a) ==>
      && d.regs == Regs(0x10, 0x10, 0x10, 0x10, 0, 0, 0, a + 1076, 0, 0, 0, d.regs.eax, entry, 0x08, 0x202)
      && d.regs.eax in {0, -1}
  }

  /** Whatever happens until a runs for the first time, that is so. */
  ghost predicate WillStart(c: Computer, a: int, entry: int) {
    forall acts :: Happens(c, acts, a) ==> StartsAt(After(c, acts), a, entry)
  }

  lemma FrozenStarts(c: Computer, a: int, entry: int, image: Memory)
    requires Frozen(c, a, InitialRegs(a, entry), image) && (c.s.status == Live ==> Sane(c))
    ensures WillStart(c, a, entry)
  {
    hide Sane, Frozen, After, Happens, InitialRegs;
    var r := InitialRegs(a, entry);
    NotRunning(c, a, r, image);
    forall acts | Happens(c, acts, a) ensures StartsAt(After(c, acts), a, entry) {
      Transparency(c, acts, a, r, image);
      ResumedStarts(After(c, acts), a, entry, image);
    }
  }

  lemma ResumedStarts(d: Computer, a: int, entry: int, image: Memory)
    requires Follows(d, a, InitialRegs(a, entry), image)
    ensures StartsAt(d, a, entry)
  {
    hide Sane, Frozen;
  }

  /** However long it waits first, a new process starts at its entry point, on an empty stack. */
  lemma NewProcessStarts(c: Computer, e: Event, mem: Memory, a: int, entry: int)
    requires c.s.status == Live && Sane(c) && Allowed(c, Command(e, mem))
    requires a !in c.s.live && a in Step(c.s, e).live
    requires ContextAt(mem, FirstContext(a)) == InitialRegs(a, entry)
    ensures WillStart(Apply(c, Command(e, mem)), a, entry)
  {
    hide Sane, Allowed, Frozen, WillStart, Step, ContextAt, InitialRegs;
    NewIsFrozen(c, e, mem, a, entry);
    ApplySane(c, Command(e, mem));
    FrozenStarts(Apply(c, Command(e, mem)), a, entry, mem);
  }

  /** Each block that one machine has and the other has not will start where its program begins. */
  ghost predicate NewOnesStart(c: Computer, d: Computer, programs: map<string, int>) {
    forall a :: a in d.s.live && a !in c.s.live ==>
      d.s.live[a] in programs && WillStart(d, a, programs[d.s.live[a]])
  }

  lemma FramedStart(c: Computer, e: Event, mem: Memory, programs: map<string, int>)
    requires Sane(c) && Allowed(c, Command(e, mem)) && Framed(c.s, Step(c.s, e), mem, programs)
    ensures NewOnesStart(c, Apply(c, Command(e, mem)), programs)
  {
    hide Sane, Allowed, WillStart, ContextAt, InitialRegs;
    if c.s.status == Live {
      forall a | a in Step(c.s, e).live && a !in c.s.live
        ensures Step(c.s, e).live[a] in programs
        ensures WillStart(Apply(c, Command(e, mem)), a, programs[Step(c.s, e).live[a]])
      {
        NewProcessStarts(c, e, mem, a, programs[Step(c.s, e).live[a]]);
      }
    }
  }

  // ----- From boot -----

  /** Every allowed action keeps the computer sane while it is on. */
  lemma ApplySane(c: Computer, act: Action)
    requires c.s.status == Live && Sane(c) && Allowed(c, act)
    ensures Apply(c, act).s.status == Live ==> Sane(Apply(c, act))
  {
    hide Inv, Step, Interrupt, OthersKept;
    match act
    case Compute(regs, mem) =>
    case Trap(scratch) =>
      if c.s.ready != [] || (c.regs.eax != 0 && c.regs.eax != 1) {
        TrapSane(c, scratch);
      } else {
        EntryKeeps(c, scratch);
        PowersOff(c, scratch);
      }
    case Command(e, mem) =>
      CommandGrows(c.s, e);
      StepKeeps(c.s, e);
      CommandSane(c, e, mem);
  }

  ghost predicate AllowedRun(c: Computer, acts: seq<Action>)
    decreases |acts|
  {
    acts == [] || (c.s.status == Live && Allowed(c, acts[0]) && AllowedRun(Apply(c, acts[0]), acts[1..]))
  }

  lemma {:induction false} RunSane(c: Computer, acts: seq<Action>)
    requires Sane(c) && AllowedRun(c, acts)
    ensures After(c, acts).s.status == Live ==> Sane(After(c, acts))
    decreases |acts|
  {
    hide Sane, Allowed, Apply;
    if acts != [] {
      var d := Apply(c, acts[0]);
      ApplySane(c, acts[0]);
      if d.s.status == Live {
        RunSane(d, acts[1..]);
      } else {
        assert acts[1..] == [];
      }
    }
  }

  /** kmain about to make the first trap; each block's context is where it was set up. */
  function BootComputer(regs: Regs, mem: Memory): Computer {
    var s := BeforeFirstTrap();
    Computer(s, regs, mem, map a | a in s.live :: FirstContext(a), 0)
  }

  lemma BootSane(regs: Regs, mem: Memory)
    requires regs.esp <= KernelHeap.BASE
    ensures Sane(BootComputer(regs, mem)) && BootComputer(regs, mem).s.status == Live
  {
    hide Inv, BeforeFirstTrap;
    FirstTrapState();
  }

  lemma FirstTrapBoots(regs: Regs, mem: Memory, scratch: Memory)
    requires regs.esp <= KernelHeap.BASE && regs.eax == 1 && Allowed(BootComputer(regs, mem), Trap(scratch))
    ensures var d, top := Interrupt(BootComputer(regs, mem), scratch), FirstContext(KernelHeap.BASE);
      d.s == Boot() && d.regs == ContextAt(mem, top).(esp := top + CONTEXT_SIZE)
  {
    hide Inv, BeforeFirstTrap, Idle, Interrupt, Allowed, OthersKept, ContextAt, Read;
    var c, top := BootComputer(regs, mem), FirstContext(KernelHeap.BASE);
    BootSane(regs, mem);
    FirstTrapState();
    EntryKeeps(c, scratch);
    IdleReturns(c, scratch);
    PokedBelow(mem, EntryMemory(c, scratch), regs.esp, regs.esp - CONTEXT_SIZE + EAX, top);
  }

  /** A context above a stack pointer does not change with what is below it. */
  lemma PokedBelow(mem: Memory, mem': Memory, esp: int, at: int, c: int)
    requires (forall x :: x >= esp ==> Read(mem', x) == Read(mem, x)) && at < esp <= c
    ensures ContextAt(mem'[at := -1], c) == ContextAt(mem, c)
  {
    assert forall x :: x >= esp ==> Read(mem'[at := -1], x) == Read(mem, x);
    hide Read;
  }

  lemma FirstTrapAllowed(regs: Regs, mem: Memory, scratch: Memory)
    requires regs.esp <= KernelHeap.BASE && forall x :: x in scratch ==> x < regs.esp - CONTEXT_SIZE
    ensures Allowed(BootComputer(regs, mem), Trap(scratch))
  {
    hide BeforeFirstTrap;
    FirstTrapState();
  }

  /** The idle process too will start at its entry point, when commhand first leaves it a turn. */
  lemma BootIdleStarts(regs: Regs, mem: Memory, scratch: Memory, entry: int)
    requires regs.esp <= KernelHeap.BASE && regs.eax == 1 && Allowed(BootComputer(regs, mem), Trap(scratch))
    requires var a := KernelHeap.BASE + PCB_SIZE + STACK_SIZE;
      ContextAt(mem, FirstContext(a)) == InitialRegs(a, entry)
    ensures WillStart(Interrupt(BootComputer(regs, mem), scratch), KernelHeap.BASE + PCB_SIZE + STACK_SIZE, entry)
  {
    hide Inv, BeforeFirstTrap, Boot, Interrupt, Allowed, ContextAt, FrozenMemory, WillStart, Read;
    var c, a := BootComputer(regs, mem), KernelHeap.BASE + PCB_SIZE + STACK_SIZE;
    var r := InitialRegs(a, entry);
    BootSane(regs, mem);
    FirstTrapState();
    InitialFrame(mem, a, entry);
    TrapFrozen(c, scratch, a, r, mem);
    FirstTrapBoots(regs, mem, scratch);
    BootState();
    TrapSane(c, scratch);
    FrozenStarts(Interrupt(c, scratch), a, entry, mem);
  }

  lemma InitialFrame(mem: Memory, a: int, entry: int)
    requires ContextAt(mem, FirstContext(a)) == InitialRegs(a, entry)
    ensures FrozenMemory(mem, a, InitialRegs(a, entry), mem)
    ensures InitialRegs(a, entry).esp == FirstContext(a) + CONTEXT_SIZE
  {
    hide ContextAt, Read;
  }

  /** The computer when kmain has made the first trap. */
  function BootedComputer(regs: Regs, mem: Memory, first: Memory): Computer {
    Interrupt(BootComputer(regs, mem), first)
  }

  lemma BootedSane(regs: Regs, mem: Memory, first: Memory)
    requires regs.esp <= KernelHeap.BASE && regs.eax == 1 && Allowed(BootComputer(regs, mem), Trap(first))
    ensures var c := BootedComputer(regs, mem, first); Sane(c) && c.s.status == Live && c.s.running.Some?
  {
    hide Sane, Inv, Boot, BeforeFirstTrap, Interrupt, Allowed, ContextAt;
    BootSane(regs, mem);
    FirstTrapState();
    FirstTrapBoots(regs, mem, first);
    TrapSane(BootComputer(regs, mem), first);
    BootState();
  }

  lemma ApplyRuns(c: Computer, act: Action)
    requires c.s.status == Live && c.s.running.Some?
    ensures SomeRuns(Apply(c, act).s) && Apply(c, act).kernel == c.kernel
  {
    hide Idle, Exit, Step, Enter, Read, Leave;
    match act
    case Compute(_, _) =>
    case Trap(_) =>
      StepIs(c.s);
      StepRuns(c.s, Call(IDLE));
      StepRuns(c.s, Call(EXIT));
    case Command(e, _) => StepRuns(c.s, e);
  }

  lemma StepIs(s: Sys)
    requires s.status == Live
    ensures Step(s, Call(IDLE)) == Idle(s) && Step(s, Call(EXIT)) == Exit(s)
  {
  }

  /** Once a process runs, some process does for as long as the machine is on, and the kernel's
      context stays the one of the first trap. */
  lemma {:induction false} KernelStays(c: Computer, acts: seq<Action>)
    requires c.s.running.Some? && AllowedRun(c, acts)
    ensures SomeRuns(After(c, acts).s) && After(c, acts).kernel == c.kernel
    decreases |acts|
  {
    hide Allowed, Apply;
    if acts != [] {
      ApplyRuns(c, acts[0]);
      if Apply(c, acts[0]).s.status == Live {
        KernelStays(Apply(c, acts[0]), acts[1..]);
      } else {
        assert acts[1..] == [];
      }
    }
  }

  /** A yield that the yielder cannot tell from a call that just returns -1, whatever happens until
      it runs again. */
  ghost predicate YieldsUnnoticed(c: Computer, scratch: Memory, a: int) {
    forall acts :: Happens(Interrupt(c, scratch), acts, a) ==>
      var d := After(Interrupt(c, scratch), acts);
      IsRunning(d.s, a) ==> d.regs == c.regs.(eax := -1) && SameStack(d.mem, c.mem, a, c.regs.esp)
  }

  /** Transparency on any run from boot, with nothing assumed of the state in between. */
  lemma TransparentFromBoot(regs: Regs, mem: Memory, first: Memory, before: seq<Action>, scratch: Memory)
    requires regs.esp <= KernelHeap.BASE && regs.eax == 1 && Allowed(BootComputer(regs, mem), Trap(first))
    requires AllowedRun(BootedComputer(regs, mem, first), before)
    requires var c := After(BootedComputer(regs, mem, first), before);
      c.s.status == Live && Allowed(c, Trap(scratch)) && c.regs.eax == 1 && c.s.ready != []
    ensures var c := After(BootedComputer(regs, mem, first), before);
      c.s.running.Some? && YieldsUnnoticed(c, scratch, c.s.running.value.addr)
  {
    hide Sane, Allowed, AllowedRun, BootComputer, BootedComputer, Interrupt, Happens, After, SameStack;
    var c := After(BootedComputer(regs, mem, first), before);
    BootedSane(regs, mem, first);
    RunSane(BootedComputer(regs, mem, first), before);
    KernelStays(BootedComputer(regs, mem, first), before);
    var a := c.s.running.value.addr;
    forall acts | Happens(Interrupt(c, scratch), acts, a)
      ensures var d := After(Interrupt(c, scratch), acts);
        IsRunning(d.s, a) ==> d.regs == c.regs.(eax := -1) && SameStack(d.mem, c.mem, a, c.regs.esp)
    {
      YieldIsTransparent(c, scratch, acts);
    }
  }

  // ----- Back to kmain -----

  /** The kernel's context is not written to. */
  ghost predicate Spared(mem: Memory, mem': Memory, kernel: int) {
    forall x :: kernel <= x < kernel + CONTEXT_SIZE ==> Read(mem', x) == Read(mem, x)
  }

  ghost predicate Spares(c: Computer, act: Action) {
    match act
    case Compute(_, mem) => Spared(c.mem, mem, c.kernel)
    case Trap(scratch) => Spared(c.mem, c.mem + scratch, c.kernel)
    case Command(_, mem) => Spared(c.mem, mem, c.kernel)
  }

  ghost predicate AllSpare(c: Computer, acts: seq<Action>)
    decreases |acts|
  {
    acts == [] || (Spares(c, acts[0]) && AllSpare(Apply(c, acts[0]), acts[1..]))
  }

  lemma BelowSpared(mem: Memory, mem': Memory, kernel: int)
    requires BelowKept(mem, mem') && kernel + CONTEXT_SIZE <= KernelHeap.BASE
    ensures Spared(mem, mem', kernel)
  {
    hide Read;
  }

  /** The kernel's context holds these registers but for the stack pointer, which it is right
      below of; so power-off will resume kmain with them. */
  ghost predicate Holds(mem: Memory, kernel: int, r: Regs) {
    kernel + CONTEXT_SIZE == r.esp <= KernelHeap.BASE && ContextAt(mem, kernel).(esp := r.esp) == r
  }

  lemma SparedHolds(mem: Memory, mem': Memory, kernel: int, r: Regs)
    requires Holds(mem, kernel, r) && Spared(mem, mem', kernel)
    ensures Holds(mem', kernel, r)
  {
    hide Read;
  }

  /** A saved eax of some process, or of kmain itself, is set to -1. */
  lemma PokeHolds(mem: Memory, at: int, kernel: int, r: Regs)
    requires Holds(mem, kernel, r) && r.eax == -1 && (at == kernel || at >= KernelHeap.BASE)
    ensures Holds(mem[at + EAX := -1], kernel, r)
  {
    if at == kernel {
      PokeEax(mem, kernel);
    } else {
      assert Spared(mem, mem[at + EAX := -1], kernel);
      hide Read;
      SparedHolds(mem, mem[at + EAX := -1], kernel, r);
    }
  }

  /** Entering from a process's stack writes nothing below the heap. */
  lemma EntrySpares(c: Computer, scratch: Memory)
    requires Sane(c) && c.s.running.Some? && c.kernel + CONTEXT_SIZE <= KernelHeap.BASE && Spares(c, Trap(scratch))
    ensures Spared(c.mem, EntryMemory(c, scratch), c.kernel) && c.regs.esp - CONTEXT_SIZE >= KernelHeap.BASE
  {
    hide Partition, Ordered, Enter, ContextAt;
    EntryMatchesStruct(c.regs, c.mem);
    assert Recorded(c.s.live, c.s.running.value);
    var entered := Enter(c.regs, c.mem).mem;
    forall x | c.kernel <= x < c.kernel + CONTEXT_SIZE ensures Read(entered + scratch, x) == Read(c.mem, x) {
      assert Read(entered, x) == Read(c.mem, x);
      assert Read(c.mem + scratch, x) == Read(c.mem, x);
    }
  }

  lemma SavedAbove(c: Computer)
    requires Sane(c) && c.s.ready != []
    ensures Saved(c, c.s.ready[0].addr) >= KernelHeap.BASE
  {
    hide Partition, Homed, Ordered;
    NextInLive(c.s);
  }

  lemma TrapHolds(c: Computer, scratch: Memory, r: Regs)
    requires c.s.status == Live && Sane(c) && Allowed(c, Trap(scratch)) && c.s.running.Some?
    requires Spares(c, Trap(scratch)) && Holds(c.mem, c.kernel, r) && r.eax == -1
    ensures var d := Interrupt(c, scratch); Holds(d.mem, c.kernel, r) && (d.s.status == PoweredOff ==> d.regs == r)
  {
    hide Sane, Allowed, Interrupt, EntryMemory, Holds, Spared, Entered, ContextAt, Idle, Exit, Read, Spares;
    var mem, cur := EntryMemory(c, scratch), c.regs.esp - CONTEXT_SIZE;
    HoldsBelow(c.mem, c.kernel, r);
    EntrySpares(c, scratch);
    SparedHolds(c.mem, mem, c.kernel, r);
    EntryKeeps(c, scratch);
    PokeHolds(mem, cur, c.kernel, r);
    PokeHolds(mem, c.kernel, c.kernel, r);
    if c.regs.eax != 0 && c.regs.eax != 1 {
      OtherReturns(c, scratch);
    } else if c.s.ready == [] {
      PowersOff(c, scratch);
      HeldRegs(Interrupt(c, scratch), r);
    } else if c.regs.eax == 1 {
      IdleReturns(c, scratch);
      IdleSwitch(c.s);
    } else {
      ExitReturns(c, scratch);
      ExitSwitch(c.s);
      SavedAbove(c);
      PokeHolds(mem, Saved(c, c.s.ready[0].addr), c.kernel, r);
    }
  }

  lemma HoldsBelow(mem: Memory, kernel: int, r: Regs)
    requires Holds(mem, kernel, r)
    ensures kernel + CONTEXT_SIZE == r.esp <= KernelHeap.BASE
  {
  }

  lemma HeldRegs(d: Computer, r: Regs)
    requires Holds(d.mem, d.kernel, r) && d.regs == ContextAt(d.mem, d.kernel).(esp := d.kernel + CONTEXT_SIZE)
    ensures d.regs == r
  {
    hide ContextAt;
  }

  lemma ApplyHolds(c: Computer, act: Action, r: Regs)
    requires c.s.status == Live && Sane(c) && Allowed(c, act) && c.s.running.Some? && Spares(c, act)
    requires Holds(c.mem, c.kernel, r) && r.eax == -1
    ensures var d := Apply(c, act); Holds(d.mem, c.kernel, r) && (d.s.status == PoweredOff ==> d.regs == r)
  {
    hide Sane, Holds, Spared, Interrupt, Step, OthersKept;
    match act
    case Compute(regs, mem) => SparedHolds(c.mem, mem, c.kernel, r);
    case Trap(scratch) => TrapHolds(c, scratch, r);
    case Command(e, mem) =>
      SparedHolds(c.mem, mem, c.kernel, r);
      CommandGrows(c.s, e);
  }

  lemma {:induction false} RunHolds(c: Computer, acts: seq<Action>, r: Regs)
    requires c.s.status == Live && Sane(c) && c.s.running.Some? && AllowedRun(c, acts) && AllSpare(c, acts)
    requires Holds(c.mem, c.kernel, r) && r.eax == -1
    ensures var d := After(c, acts); Holds(d.mem, c.kernel, r) && (d.s.status == PoweredOff ==> d.regs == r)
    decreases |acts|
  {
    hide Sane, Allowed, Apply, Holds, Spares;
    if acts != [] {
      var d := Apply(c, acts[0]);
      ApplySane(c, acts[0]);
      ApplyRuns(c, acts[0]);
      ApplyHolds(c, acts[0], r);
      if d.s.status == Live {
        RunHolds(d, acts[1..], r);
      } else {
        assert acts[1..] == [];
      }
    }
  }

  /** When the machine goes down, after any allowed run that leaves kmain's saved registers alone,
      the last call returns to kmain: with every register that kmain made the first trap with,
      but for eax, which is -1. */
  lemma ReturnsToKmain(regs: Regs, mem: Memory, first: Memory, acts: seq<Action>)
    requires regs.esp <= KernelHeap.BASE && regs.eax == 1 && Allowed(BootComputer(regs, mem), Trap(first))
    requires var c := BootedComputer(regs, mem, first); AllowedRun(c, acts) && AllSpare(c, acts)
    ensures var d := After(BootedComputer(regs, mem, first), acts);
      && d.kernel == regs.esp - CONTEXT_SIZE
      && (d.s.status == PoweredOff ==> d.regs == regs.(eax := -1))
  {
    hide Sane, Allowed, Holds, After;
    var c := BootedComputer(regs, mem, first);
    BootedSane(regs, mem, first);
    BootedHolds(regs, mem, first);
    RunHolds(c, acts, regs.(eax := -1));
    KernelStays(c, acts);
  }

  lemma BootedHolds(regs: Regs, mem: Memory, first: Memory)
    requires regs.esp <= KernelHeap.BASE && regs.eax == 1 && Allowed(BootComputer(regs, mem), Trap(first))
    ensures var c := BootedComputer(regs, mem, first);
      c.kernel == regs.esp - CONTEXT_SIZE && Holds(c.mem, c.kernel, regs.(eax := -1))
  {
    hide Inv, BeforeFirstTrap, Idle, Allowed, OthersKept, ContextAt, Read, EntryMemory;
    var c := BootComputer(regs, mem);
    BootSane(regs, mem);
    FirstTrapState();
    EntryKeeps(c, first);
    IdleReturns(c, first);
    FirstKernel(c, first);
    PokeEax(EntryMemory(c, first), regs.esp - CONTEXT_SIZE);
  }

  lemma FirstKernel(c: Computer, scratch: Memory)
    requires c.s.running.None? && Entered(c, scratch)
    ensures Interrupt(c, scratch).kernel == c.regs.esp - CONTEXT_SIZE
  {
    hide Leave, Idle, Exit;
  }
}
