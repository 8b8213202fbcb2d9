/** The process programs on the machine with registers and stacks: all calls from commhand's leaving
    to the return to kmain. */
module WholeRuns {
  import opened Processes
  import opened SystemState
  import opened Invariants
  import opened Scheduling
  import opened Commands
  import opened ContextSwitch
  import opened Shutdown
  import KernelHeap

  /** The number of each system call: its place in the enumeration of op codes. */
  function Code(op: OpCode): (n: Word)
    ensures 0 <= n < 4 && [EXIT, IDLE, READ, WRITE][n] == op
  {
    match op
    case EXIT => 0
    case IDLE => 1
    case READ => 2
    case WRITE => 3
  }

  /** The running process is about to make the next call of its program. */
  predicate MakesItsCall(c: Computer, progs: map<int, Program>) {
    && c.s.running.Some? && c.s.running.value.addr in progs
    && c.regs.eax == Code(NextCall(progs[c.s.running.value.addr]))
  }

  /** Processes compute, for however long and whatever, and make the calls of their programs; no
      more commands come. */
  ghost predicate Performs(c: Computer, progs: map<int, Program>, acts: seq<Action>)
    decreases |acts|
  {
    acts == [] ||
    match acts[0]
    case Compute(_, _) => Performs(Apply(c, acts[0]), progs, acts[1..])
    case Trap(_) =>
      MakesItsCall(c, progs) && Performs(Apply(c, acts[0]), Proceed(Machine(c.s, progs)).progs, acts[1..])
    case Command(_, _) => false
  }

  function Traps(acts: seq<Action>): nat {
    if acts == [] then 0 else (if acts[0].Trap? then 1 else 0) + Traps(acts[1..])
  }

  /** An interrupt does to the queues what the program's call does. */
  lemma TrapProceeds(c: Computer, progs: map<int, Program>, scratch: Memory)
    requires c.s.status == Live && Sane(c) && Allowed(c, Trap(scratch)) && MakesItsCall(c, progs)
    ensures Interrupt(c, scratch).s == Proceed(Machine(c.s, progs)).s
  {
    hide Sane, Allowed, Idle, Exit, Advance, Interrupt, OthersKept, Read;
    EntryKeeps(c, scratch);
    QueuesAfter(c, scratch);
  }

  lemma QueuesAfter(c: Computer, scratch: Memory)
    requires Entered(c, scratch)
    ensures Interrupt(c, scratch).s ==
      if c.regs.eax == 1 then Idle(c.s) else if c.regs.eax == 0 then Exit(c.s) else c.s
  {
    assert Read(EntryMemory(c, scratch), c.regs.esp - CONTEXT_SIZE + EAX) == c.regs.eax;
    hide Enter, Read, ContextAt, Leave, Idle, Exit;
  }

  lemma ComputeKeeps(c: Computer, regs: Regs, mem: Memory)
    ensures Apply(c, Compute(regs, mem)).s == c.s
  {
  }

  /** It is the n-th call that powers the machine off. */
  predicate OffAt(m: Machine, n: nat) {
    n > 0 && ProceedBy(m, n - 1).s.status == Live && ProceedBy(m, n).s.status == PoweredOff
  }

  lemma {:induction false} OffStays(m: Machine, n: nat)
    requires m.s.status != Live
    ensures ProceedBy(m, n) == m
    decreases n
  {
    if n > 0 { OffStays(m, n - 1); }
  }

  lemma ByOneMore(m: Machine, n: nat)
    requires n > 0
    ensures ProceedBy(m, n) == ProceedBy(Proceed(m), n - 1)
  {
  }

  lemma OffNext(m: Machine, n: nat)
    requires OffAt(m, n)
    ensures n == 1 ==> Proceed(m).s.status == PoweredOff
    ensures n > 1 ==> Proceed(m).s.status == Live && OffAt(Proceed(m), n - 1)
  {
    hide Proceed, ProceedBy;
    ByOneMore(m, n);
    if n == 1 {
      NoMore(Proceed(m));
    } else {
      ByOneMore(m, n - 1);
      if Proceed(m).s.status != Live { OffStays(Proceed(m), n - 2); }
    }
  }

  lemma NoMore(m: Machine)
    ensures ProceedBy(m, 0) == m
  {
  }

  /** Any run of the machine makes no more calls than that, and is over exactly when it has made
      them; its queues are then what the programs leave. */
  lemma {:induction false} CallsCounted(c: Computer, progs: map<int, Program>, n: nat, acts: seq<Action>)
    requires c.s.status == Live && Sane(c) && OffAt(Machine(c.s, progs), n)
    requires AllowedRun(c, acts) && Performs(c, progs, acts)
    ensures Traps(acts) <= n && After(c, acts).s == ProceedBy(Machine(c.s, progs), Traps(acts)).s
    ensures After(c, acts).s.status == if Traps(acts) == n then PoweredOff else Live
    decreases |acts|
  {
    hide Sane, Allowed, Apply, Proceed, ProceedBy, MakesItsCall, OffAt;
    var m := Machine(c.s, progs);
    NoMore(m);
    OffFirst(m, n);
    if acts != [] {
      var d, rest := Apply(c, acts[0]), acts[1..];
      ApplySane(c, acts[0]);
      match acts[0]
      case Compute(regs, mem) =>
        ComputeKeeps(c, regs, mem);
        CallsCounted(d, progs, n, rest);
      case Trap(scratch) =>
        TrapProceeds(c, progs, scratch);
        TrapIs(c, scratch);
        OffNext(m, n);
        ByOneMore(m, 1 + Traps(rest));
        if n == 1 {
          assert rest == [];
          NoMore(Proceed(m));
        } else {
          CallsCounted(d, Proceed(m).progs, n - 1, rest);
        }
    }
  }

  lemma OffFirst(m: Machine, n: nat)
    requires OffAt(m, n)
    ensures n > 0
  {
  }

  lemma TrapIs(c: Computer, scratch: Memory)
    ensures Apply(c, Trap(scratch)) == Interrupt(c, scratch)
  {
    hide Interrupt;
  }

  // ----- Such runs exist -----

  /** Two actions: the running process puts the number of its call into eax, and traps. */
  function CallNow(c: Computer, op: OpCode): seq<Action> {
    [Compute(c.regs.(eax := Code(op)), c.mem), Trap(map[])]
  }

  lemma NothingScribbled(c: Computer)
    ensures c.mem + map[] == c.mem
  {
  }

  lemma CallNowWorks(c: Computer, progs: map<int, Program>)
    requires c.s.status == Live && Sane(c) && c.s.running.Some? && c.s.running.value.addr in progs
    ensures var op := NextCall(progs[c.s.running.value.addr]);
      var d := Apply(c, CallNow(c, op)[0]);
      && Allowed(c, CallNow(c, op)[0]) && Spares(c, CallNow(c, op)[0]) && Sane(d) && d.s == c.s
      && MakesItsCall(d, progs) && Allowed(d, Trap(map[])) && Spares(d, Trap(map[]))
  {
    hide Inv, Read;
    NothingScribbled(c);
  }

  /** One action before a run. */
  lemma OneMore(c: Computer, progs: map<int, Program>, act: Action, rest: seq<Action>)
    requires !act.Command? && c.s.status == Live && Allowed(c, act) && Spares(c, act)
    requires act.Trap? ==> MakesItsCall(c, progs)
    requires var progs' := if act.Trap? then Proceed(Machine(c.s, progs)).progs else progs;
      AllowedRun(Apply(c, act), rest) && Performs(Apply(c, act), progs', rest) && AllSpare(Apply(c, act), rest)
    ensures var acts := [act] + rest;
      && AllowedRun(c, acts) && Performs(c, progs, acts) && AllSpare(c, acts)
      && Traps(acts) == Traps(rest) + if act.Trap? then 1 else 0
  {
    hide Allowed, Spares, Apply, Proceed, MakesItsCall;
    assert ([act] + rest)[1..] == rest;
  }

  lemma InProgs(m: Machine)
    requires Managed(m)
    ensures m.s.running.Some? && m.s.running.value.addr in m.progs
  {
    hide Inv, Apart;
  }

  lemma StillManaged(m: Machine)
    requires Managed(m) && Proceed(m).s.status == Live
    ensures Managed(Proceed(m))
  {
    hide Managed, Proceed, Closer, LastCall;
    ProceedProgress(m);
  }

  /** The simplest run: nothing is computed but what a call needs. */
  lemma {:induction false} RunExists(c: Computer, progs: map<int, Program>, n: nat) returns (acts: seq<Action>)
    requires c.s.status == Live && Sane(c) && Managed(Machine(c.s, progs)) && OffAt(Machine(c.s, progs), n)
    ensures AllowedRun(c, acts) && Performs(c, progs, acts) && AllSpare(c, acts) && Traps(acts) == n
    decreases n
  {
    hide Sane, Managed, Allowed, Spares, Apply, Proceed, OffAt, MakesItsCall, Interrupt;
    var m := Machine(c.s, progs);
    InProgs(m);
    var now := CallNow(c, NextCall(progs[c.s.running.value.addr]));
    CallNowWorks(c, progs);
    var d := Apply(c, now[0]);
    var u := Apply(d, now[1]);
    TrapProceeds(d, progs, map[]);
    TrapIs(d, map[]);
    ApplySane(d, now[1]);
    OffNext(m, n);
    acts := [];
    if n > 1 {
      StillManaged(m);
      assert Machine(u.s, Proceed(m).progs) == Proceed(m);
      acts := RunExists(u, Proceed(m).progs, n - 1);
    } else {
      OffFirst(m, n);
    }
    OneMore(d, progs, now[1], acts);
    acts := [now[1]] + acts;
    OneMore(c, progs, now[0], acts);
    acts := [now[0]] + acts;
  }

  // ----- To the end -----

  /** However the processes compute in between: exactly the n-th call ends the run, with the queues
      as the programs leave them, and returns to kmain with its registers, if they were left alone. */
  ghost predicate ComesHome(c: Computer, progs: map<int, Program>, n: nat, kmain: Regs) {
    forall acts :: AllowedRun(c, acts) && Performs(c, progs, acts) ==>
      var d := After(c, acts);
      && Traps(acts) <= n && d.s == ProceedBy(Machine(c.s, progs), Traps(acts)).s
      && d.s.status == (if Traps(acts) == n then PoweredOff else Live)
      && (Traps(acts) == n && AllSpare(c, acts) ==> d.regs == kmain)
  }

  /** What a run from the first trap has kept for the way back. */
  lemma WayBack(regs: Regs, mem: Memory, first: Memory, before: seq<Action>)
    requires regs.esp <= KernelHeap.BASE && regs.eax == 1 && Allowed(BootComputer(regs, mem), Trap(first))
    requires var b := BootedComputer(regs, mem, first); AllowedRun(b, before) && AllSpare(b, before)
    ensures var c := After(BootedComputer(regs, mem, first), before);
      c.s.status == Live ==> Sane(c) && c.s.running.Some? && Holds(c.mem, c.kernel, regs.(eax := -1))
  {
    hide Sane, Allowed, AllowedRun, AllSpare, BootedComputer, Holds, After;
    var b := BootedComputer(regs, mem, first);
    BootedSane(regs, mem, first);
    BootedHolds(regs, mem, first);
    RunSane(b, before);
    RunHolds(b, before, regs.(eax := -1));
    KernelStays(b, before);
  }

  lemma DownIsOff(m: Machine, n: nat, idles: nat)
    requires DownAfter(m, n, idles)
    ensures OffAt(m, n)
  {
    hide ProceedBy, OnlyIdleLeft;
  }

  lemma HomeWith(c: Computer, progs: map<int, Program>, n: nat, kmain: Regs)
    requires c.s.status == Live && Sane(c) && c.s.running.Some? && OffAt(Machine(c.s, progs), n)
    requires Holds(c.mem, c.kernel, kmain) && kmain.eax == -1
    ensures ComesHome(c, progs, n, kmain)
  {
    hide Sane, OffAt, Holds, AllowedRun, Performs, AllSpare, After, ProceedBy, Traps;
    forall acts | AllowedRun(c, acts) && Performs(c, progs, acts)
      ensures var d := After(c, acts);
        && Traps(acts) <= n && d.s == ProceedBy(Machine(c.s, progs), Traps(acts)).s
        && d.s.status == (if Traps(acts) == n then PoweredOff else Live)
        && (Traps(acts) == n && AllSpare(c, acts) ==> d.regs == kmain)
    {
      CallsCounted(c, progs, n, acts);
      if AllSpare(c, acts) { RunHolds(c, acts, kmain); }
    }
  }

  /** From boot, after any allowed run to a state whose processes are finite programs and at most
      one idle loop: a fixed number of calls, within the bound, takes the machine back to kmain,
      whatever is computed between the calls; and runs with that many calls there are. */
  lemma ShutdownReturns(regs: Regs, mem: Memory, first: Memory, before: seq<Action>, progs: map<int, Program>)
    returns (n: nat, acts: seq<Action>)
    requires regs.esp <= KernelHeap.BASE && regs.eax == 1 && Allowed(BootComputer(regs, mem), Trap(first))
    requires var b := BootedComputer(regs, mem, first); AllowedRun(b, before) && AllSpare(b, before)
    requires Managed(Machine(After(BootedComputer(regs, mem, first), before).s, progs))
    ensures var c := After(BootedComputer(regs, mem, first), before);
      var m := Machine(c.s, progs);
      && n <= Measure(progs, TurnOf(c.s)) + 1 && DownAfter(m, n, AllIdles(progs, TurnOf(c.s)))
      && ComesHome(c, progs, n, regs.(eax := -1))
      && AllowedRun(c, acts) && Performs(c, progs, acts) && AllSpare(c, acts) && Traps(acts) == n
  {
    hide Inv, Sane, Allowed, AllowedRun, AllSpare, Apart, Programmed, Measure, AllIdles, DownAfter, OffAt, Holds;
    hide BootedComputer, ComesHome, After, Performs, Traps;
    var c := After(BootedComputer(regs, mem, first), before);
    WayBack(regs, mem, first, before);
    n := DownFrom(Machine(c.s, progs), AllIdles(progs, TurnOf(c.s)));
    DownIsOff(Machine(c.s, progs), n, AllIdles(progs, TurnOf(c.s)));
    HomeWith(c, progs, n, regs.(eax := -1));
    acts := RunExists(c, progs, n);
  }

  /** The state of the next result is that after `load` at the first prompt. */
  lemma LoadAtPrompt(regs: Regs, mem: Memory, first: Memory, mem': Memory)
    requires regs.esp <= KernelHeap.BASE && regs.eax == 1 && Allowed(BootComputer(regs, mem), Trap(first))
    ensures After(BootedComputer(regs, mem, first), [Command(DoLoadR3, mem')]).s == LoadR3(Boot())
  {
    hide Boot, LoadR3, Interrupt, BootComputer, Allowed, ContextAt, Inv, BeforeFirstTrap, FirstContext;
    FirstTrapBoots(regs, mem, first);
    BootState();
    var b, act := BootedComputer(regs, mem, first), Command(DoLoadR3, mem');
    assert [act][1..] == [];
    assert After(b, [act]) == After(Apply(b, act), []);
  }

  /** In particular from the state that `load` gives at the first prompt, whatever the numbers of
      rounds: the way to kmain is so many calls, and only the idle process is left. */
  lemma LoadedReturns(regs: Regs, mem: Memory, first: Memory, before: seq<Action>,
                      runs: seq<seq<OpCode>>, rounds: seq<nat>) returns (n: nat)
    requires regs.esp <= KernelHeap.BASE && regs.eax == 1 && Allowed(BootComputer(regs, mem), Trap(first))
    requires var b := BootedComputer(regs, mem, first); AllowedRun(b, before) && AllSpare(b, before)
    requires After(BootedComputer(regs, mem, first), before).s == LoadR3(Boot())
    requires |runs| == |rounds| == 5 && forall i :: 0 <= i < 5 ==> IsR3Run(runs[i], rounds[i])
    ensures LoadR3(Boot()).running.Some? && |LoadR3(Boot()).ready| == 6
    ensures n <= 6 * (rounds[0] + rounds[1] + rounds[2] + rounds[3] + rounds[4]) + 34
    ensures var m := LoadedMachine(Boot(), runs);
      && OnlyIdleLeft(ProceedBy(m, n))
      && ComesHome(After(BootedComputer(regs, mem, first), before), m.progs, n, regs.(eax := -1))
  {
    hide Inv, Boot, LoadR3, Assign, Sane, Allowed, AllowedRun, AllSpare, Managed, OffAt, Holds, IsR3Run;
    hide BootedComputer, ComesHome, After, LastCall, OnlyIdleLeft, ProceedBy;
    var c := After(BootedComputer(regs, mem, first), before);
    LoadedGoesDown(Boot(), runs, rounds);
    LoadedIsLive(Boot());
    var m := LoadedMachine(Boot(), runs);
    WayBack(regs, mem, first, before);
    n :| n <= 6 * (rounds[0] + rounds[1] + rounds[2] + rounds[3] + rounds[4]) + 34 && DownAfter(m, n, 1);
    DownIsOff(m, n, 1);
    HomeWith(c, m.progs, n, regs.(eax := -1));
  }
}
