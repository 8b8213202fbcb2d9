/** The process programs, and why the machine always powers off once commhand has left. */
module Shutdown {
  import opened Processes
  import opened SystemState
  import opened Invariants
  import opened Scheduling
  import opened Commands
  import KernelHeap

  // ----- The programs -----

  /** So many times WRITE and IDLE, then WRITE and the EXIT that does not return. */
  predicate IsR3Run(calls: seq<OpCode>, rounds: nat) {
    && |calls| == 2 * rounds + 2
    && (forall j :: 0 <= j < rounds ==> calls[2 * j] == WRITE && calls[2 * j + 1] == IDLE)
    && calls[2 * rounds] == WRITE && calls[2 * rounds + 1] == EXIT
  }

  /** The calls an R3 process makes. */
  method R3Proc(iterations: int) returns (calls: seq<OpCode>)
    ensures IsR3Run(calls, if iterations < 0 then 0 else iterations)
  {
    calls := [];
    var i := 0;
    while i < iterations
      invariant 0 <= i && (i <= iterations || i == 0) && |calls| == 2 * i
      invariant forall j :: 0 <= j < i ==> calls[2 * j] == WRITE && calls[2 * j + 1] == IDLE
    {
      calls := calls + [WRITE];
      calls := calls + [IDLE];
      i := i + 1;
    }
    calls := calls + [WRITE];
    calls := calls + [EXIT];
  }

  function Rounds(n: nat): seq<OpCode> {
    if n == 0 then [] else [WRITE, IDLE] + Rounds(n - 1)
  }

  /** The same calls, written out one round after the other. */
  lemma {:induction false} R3RunIs(rounds: nat)
    ensures IsR3Run(Rounds(rounds) + [WRITE, EXIT], rounds)
  {
    var calls, rest := Rounds(rounds) + [WRITE, EXIT], if rounds == 0 then [] else Rounds(rounds - 1) + [WRITE, EXIT];
    if rounds > 0 {
      R3RunIs(rounds - 1);
      assert calls == [WRITE, IDLE] + rest;
      forall j | 0 <= j < rounds ensures calls[2 * j] == WRITE && calls[2 * j + 1] == IDLE {
        if j > 0 { assert rest[2 * (j - 1)] == WRITE && rest[2 * (j - 1) + 1] == IDLE; }
      }
    }
  }

  function IdleCalls(calls: seq<OpCode>): nat {
    if calls == [] then 0 else (if calls[0] == IDLE then 1 else 0) + IdleCalls(calls[1..])
  }

  /** A process gives the processor away once a round, and for good at the end. */
  lemma {:induction false} R3Yields(calls: seq<OpCode>, rounds: nat)
    requires IsR3Run(calls, rounds)
    ensures IdleCalls(calls) == rounds
  {
    var rest := calls[2..];
    assert calls[1..][1..] == rest;
    if rounds > 0 {
      assert calls[2 * 0] == WRITE && calls[2 * 0 + 1] == IDLE;
      forall j | 0 <= j < rounds - 1 ensures rest[2 * j] == WRITE && rest[2 * j + 1] == IDLE {
        assert calls[2 * (j + 1)] == WRITE && calls[2 * (j + 1) + 1] == IDLE;
      }
      R3Yields(rest, rounds - 1);
    } else {
      assert calls[2 * 0] == WRITE && calls[2 * 0 + 1] == EXIT;
      assert calls[1..][0] == EXIT && rest == [];
      assert IdleCalls(calls[1..]) == IdleCalls(rest) == 0;
    }
  }

  /** Where a process is: the calls it still has to make, or in the idle loop, before or after
      its WRITE. */
  datatype Program = Script(left: seq<OpCode>) | IdleLoop(printed: bool)

  function NextCall(g: Program): OpCode {
    match g
    case Script(left) => if left == [] then EXIT else left[0]
    case IdleLoop(printed) => if printed then IDLE else WRITE
  }

  function Advance(g: Program): Program {
    match g
    case Script(left) => if left == [] then g else Script(left[1..])
    case IdleLoop(printed) => IdleLoop(!printed)
  }

  /** The first n calls of a program. */
  function CallsOf(g: Program, n: nat): seq<OpCode>
    decreases n
  {
    if n == 0 then [] else [NextCall(g)] + CallsOf(Advance(g), n - 1)
  }

  /** A script is made call by call. */
  lemma {:induction false} ScriptCalls(calls: seq<OpCode>)
    ensures CallsOf(Script(calls), |calls|) == calls
  {
    if calls != [] { ScriptCalls(calls[1..]); }
  }

  /** The idle process writes and yields, and so on without end. */
  lemma {:induction false} IdleLoopCalls(rounds: nat, j: nat)
    requires j < rounds
    ensures |CallsOf(IdleLoop(false), 2 * rounds)| == 2 * rounds
    ensures CallsOf(IdleLoop(false), 2 * rounds)[2 * j] == WRITE
    ensures CallsOf(IdleLoop(false), 2 * rounds)[2 * j + 1] == IDLE
  {
    var rest := CallsOf(IdleLoop(false), 2 * rounds - 2);
    assert CallsOf(IdleLoop(false), 2 * rounds) == [WRITE] + ([IDLE] + rest);
    if j > 0 {
      IdleLoopCalls(rounds - 1, j - 1);
    } else if rounds > 1 {
      IdleLoopCalls(rounds - 1, 0);
    }
  }

  /** The system together with the program of every block, by address. */
  datatype Machine = Machine(s: Sys, progs: map<int, Program>)

  function Proceed(m: Machine): Machine {
    if m.s.status != Live || m.s.running.None? || m.s.running.value.addr !in m.progs then m
    else
      var a := m.s.running.value.addr;
      Machine(SysCall(m.s, NextCall(m.progs[a])), m.progs[a := Advance(m.progs[a])])
  }

  function ProceedBy(m: Machine, n: nat): Machine
    decreases n
  {
    if n == 0 then m else ProceedBy(Proceed(m), n - 1)
  }

  // ----- Machines that only have scripts and one idle loop to run -----

  predicate Ends(g: Program) {
    match g
    case Script(left) => left != [] && left[|left| - 1] == EXIT
    case IdleLoop(_) => true
  }

  /** The next call of a waiting process is the one after a yield or the first. */
  predicate Waits(progs: map<int, Program>, p: Proc) {
    p.addr in progs && Ends(progs[p.addr]) && progs[p.addr] != IdleLoop(true)
  }

  predicate IsIdle(progs: map<int, Program>, p: Proc) {
    p.addr in progs && progs[p.addr].IdleLoop?
  }

  function IdleCount(progs: map<int, Program>, q: seq<Proc>): nat {
    if q == [] then 0 else (if IsIdle(progs, q[0]) then 1 else 0) + IdleCount(progs, q[1..])
  }

  function AllIdles(progs: map<int, Program>, t: Turn): nat {
    IdleCount(progs, t.q) + if IsIdle(progs, t.cur) then 1 else 0
  }

  ghost predicate Programmed(progs: map<int, Program>, t: Turn) {
    && t.cur.addr in progs && Ends(progs[t.cur.addr])
    && (forall p :: p in t.q ==> Waits(progs, p) && p.addr != t.cur.addr)
    && AllIdles(progs, t) <= 1
  }

  ghost predicate Managed(m: Machine) {
    Inv(m.s) && m.s.status == Live && m.s.running.Some? && Programmed(m.progs, TurnOf(m.s)) && Apart(TurnOf(m.s))
  }

  function Weight(progs: map<int, Program>, p: Proc): nat {
    if p.addr in progs && progs[p.addr].Script? then 3 * |progs[p.addr].left| else 0
  }

  function TotalWeight(progs: map<int, Program>, q: seq<Proc>): nat {
    if q == [] then 0 else Weight(progs, q[0]) + TotalWeight(progs, q[1..])
  }

  /** An idle process about to run has two calls to make before it yields. */
  function IdleDebt(g: Program): nat {
    match g
    case Script(_) => 0
    case IdleLoop(printed) => if printed then 1 else 2
  }

  function Measure(progs: map<int, Program>, t: Turn): nat
    requires t.cur.addr in progs
  {
    TotalWeight(progs, t.q) + Weight(progs, t.cur) + IdleDebt(progs[t.cur.addr])
  }

  // ----- Sums under queue operations -----

  lemma {:induction false} SumsInsert(progs: map<int, Program>, q: seq<Proc>, p: Proc)
    ensures TotalWeight(progs, InsertByPriority(q, p)) == TotalWeight(progs, q) + Weight(progs, p)
    ensures IdleCount(progs, InsertByPriority(q, p)) == IdleCount(progs, q) + if IsIdle(progs, p) then 1 else 0
  {
    if q != [] && q[0].priority <= p.priority {
      SumsInsert(progs, q[1..], p);
      var r := InsertByPriority(q[1..], p);
      assert ([q[0]] + r)[1..] == r;
    } else {
      assert ([p] + q)[1..] == q;
    }
  }

  lemma {:induction false} SumsFrame(progs: map<int, Program>, q: seq<Proc>, a: int, g: Program)
    requires forall p :: p in q ==> p.addr != a
    ensures TotalWeight(progs[a := g], q) == TotalWeight(progs, q)
    ensures IdleCount(progs[a := g], q) == IdleCount(progs, q)
  {
    if q != [] {
      assert q[0] in q;
      assert forall p :: p in q[1..] ==> p in q;
      SumsFrame(progs, q[1..], a, g);
    }
  }

  // ----- One call -----

  predicate Closer(progs: map<int, Program>, t: Turn, progs': map<int, Program>, t': Turn)
    requires t.cur.addr in progs && t'.cur.addr in progs'
  {
    AllIdles(progs', t') == AllIdles(progs, t) && Measure(progs', t') < Measure(progs, t)
  }

  /** A READ or WRITE changes nothing but the caller's place in its program. */
  lemma OtherCloser(progs: map<int, Program>, t: Turn)
    requires Programmed(progs, t) && NextCall(progs[t.cur.addr]) in {READ, WRITE}
    ensures var progs' := progs[t.cur.addr := Advance(progs[t.cur.addr])];
      Programmed(progs', t) && Closer(progs, t, progs', t)
  {
    SumsFrame(progs, t.q, t.cur.addr, Advance(progs[t.cur.addr]));
  }

  lemma IdleCloser(progs: map<int, Program>, t: Turn)
    requires Programmed(progs, t) && Apart(t) && t.q != [] && NextCall(progs[t.cur.addr]) == IDLE
    ensures var progs' := progs[t.cur.addr := Advance(progs[t.cur.addr])];
      Programmed(progs', Yield(t)) && Closer(progs, t, progs', Yield(t))
  {
    var next, tail, a := t.q[0], t.q[1..], t.cur.addr;
    var g := Advance(progs[a]);
    assert next in t.q;
    assert forall p :: p in tail ==> p in t.q;
    SumsFrame(progs, t.q, a, g);
    SumsInsert(progs[a := g], tail, t.cur);
    TailAbsent(t.q);
    IdleProgrammed(progs, t);
  }

  lemma IdleProgrammed(progs: map<int, Program>, t: Turn)
    requires Programmed(progs, t) && Apart(t) && t.q != [] && NextCall(progs[t.cur.addr]) == IDLE
    ensures var progs', u := progs[t.cur.addr := Advance(progs[t.cur.addr])], Yield(t);
      && u.cur.addr in progs' && Ends(progs'[u.cur.addr])
      && forall p :: p in u.q ==> Waits(progs', p) && p.addr != u.cur.addr
  {
    var tail := t.q[1..];
    assert t.q[0] in t.q;
    assert forall p :: p in tail ==> p in t.q;
    InsertMembers(tail, t.cur);
    TailAbsent(t.q);
  }

  lemma ExitCloser(progs: map<int, Program>, t: Turn)
    requires Programmed(progs, t) && Apart(t) && t.q != [] && NextCall(progs[t.cur.addr]) == EXIT
    ensures var progs', t' := progs[t.cur.addr := Advance(progs[t.cur.addr])], Turn(t.q[0], t.q[1..]);
      Programmed(progs', t') && Closer(progs, t, progs', t')
  {
    var next, tail, a := t.q[0], t.q[1..], t.cur.addr;
    var g := Advance(progs[a]);
    assert next in t.q;
    assert forall p :: p in tail ==> p in t.q;
    SumsFrame(progs, t.q, a, g);
    TailAbsent(t.q);
  }

  ghost predicate OnlyIdleLeft(m: Machine) {
    m.s.ready == [] && m.s.running.Some? && IsIdle(m.progs, m.s.running.value)
  }

  /** The call after which the machine is off, made with nobody ready: an EXIT, which leaves no
      process, or an IDLE, which leaves the processor with the process that made it. */
  predicate LastCall(m: Machine, m': Machine) {
    && m.s.status == Live && m.s.running.Some? && m.s.running.value.addr in m.progs && m.s.ready == []
    && m'.s.status == PoweredOff && m'.s.ready == []
    && match NextCall(m.progs[m.s.running.value.addr])
       case EXIT => m'.s.running == None
       case IDLE => m'.s.running == m.s.running
       case _ => false
  }

  /** Either that, or a step nearer to it. With an idle process about, the machine goes down only
      when that process is alone: nothing is cut off. */
  ghost predicate Progress(m: Machine, m': Machine)
    requires Managed(m)
  {
    if m'.s.status == PoweredOff then
      LastCall(m, m') && (AllIdles(m.progs, TurnOf(m.s)) == 1 ==> OnlyIdleLeft(m'))
    else Managed(m') && Closer(m.progs, TurnOf(m.s), m'.progs, TurnOf(m'.s))
  }

  lemma Assemble(m: Machine, m': Machine)
    requires Managed(m) && m'.s.status == Live && m'.s.running.Some?
    requires Inv(m'.s) && Apart(TurnOf(m'.s)) && Programmed(m'.progs, TurnOf(m'.s))
    requires Closer(m.progs, TurnOf(m.s), m'.progs, TurnOf(m'.s))
    ensures Progress(m, m')
  {
    hide Inv, Apart, Programmed, Closer;
  }

  lemma ProceedIdle(m: Machine)
    requires Managed(m) && NextCall(m.progs[m.s.running.value.addr]) == IDLE && m.s.ready != []
    ensures Progress(m, Proceed(m))
  {
    hide Inv, Apart, Closer, Progress, Idle, Yield;
    IdleShape(m.s);
    IdleKeeps(m.s);
    IdleCloser(m.progs, TurnOf(m.s));
    TurnApart(Idle(m.s));
    Assemble(m, Proceed(m));
  }

  lemma ProceedExit(m: Machine)
    requires Managed(m) && NextCall(m.progs[m.s.running.value.addr]) == EXIT && m.s.ready != []
    ensures Progress(m, Proceed(m))
  {
    hide Inv, Apart, Closer, Progress, Exit;
    ExitShape(m.s);
    ExitKeeps(m.s);
    ExitCloser(m.progs, TurnOf(m.s));
    TurnApart(Exit(m.s));
    Assemble(m, Proceed(m));
  }

  lemma ProceedLast(m: Machine)
    requires Managed(m) && NextCall(m.progs[m.s.running.value.addr]) in {IDLE, EXIT} && m.s.ready == []
    ensures Progress(m, Proceed(m))
  {
    hide Inv, Apart, Closer;
  }

  lemma ProceedProgress(m: Machine)
    requires Managed(m)
    ensures Progress(m, Proceed(m))
  {
    hide Inv, Apart, Exit, Idle;
    var call := NextCall(m.progs[m.s.running.value.addr]);
    if call == READ || call == WRITE {
      OtherCloser(m.progs, TurnOf(m.s));
    } else if m.s.ready == [] {
      ProceedLast(m);
    } else if call == EXIT {
      ProceedExit(m);
    } else {
      ProceedIdle(m);
    }
  }

  // ----- All calls -----

  /** The n-th call is the last, and if there was an idle process it is the only one left. */
  ghost predicate DownAfter(m: Machine, n: nat, idles: nat) {
    n > 0 && LastCall(ProceedBy(m, n - 1), ProceedBy(m, n)) && (idles == 1 ==> OnlyIdleLeft(ProceedBy(m, n)))
  }

  lemma OneCallMore(m: Machine, n: nat, idles: nat)
    requires DownAfter(Proceed(m), n, idles)
    ensures DownAfter(m, n + 1, idles)
  {
    assert ProceedBy(m, n + 1) == ProceedBy(Proceed(m), n);
    assert ProceedBy(m, n) == ProceedBy(Proceed(m), n - 1);
  }

  lemma DownAtOnce(m: Machine, idles: nat)
    requires LastCall(m, Proceed(m)) && (idles == 1 ==> OnlyIdleLeft(Proceed(m)))
    ensures DownAfter(m, 1, idles)
  {
    hide Proceed, LastCall, OnlyIdleLeft;
    assert ProceedBy(m, 1) == ProceedBy(Proceed(m), 0);
  }

  lemma {:induction false} DownFrom(m: Machine, idles: nat) returns (n: nat)
    requires Managed(m) && AllIdles(m.progs, TurnOf(m.s)) == idles
    ensures n <= Measure(m.progs, TurnOf(m.s)) + 1 && DownAfter(m, n, idles)
    decreases Measure(m.progs, TurnOf(m.s))
  {
    hide Inv, Apart, Programmed, Measure, AllIdles, Proceed, OnlyIdleLeft, LastCall, DownAfter, ProceedBy;
    ProceedProgress(m);
    var m' := Proceed(m);
    if m'.s.status == PoweredOff {
      n := 1;
      DownAtOnce(m, idles);
    } else {
      var k := DownFrom(m', idles);
      n := k + 1;
      OneCallMore(m, k, idles);
    }
  }

  ghost predicate GoesDown(m: Machine, bound: nat, idles: nat) {
    exists n: nat :: n <= bound && DownAfter(m, n, idles)
  }

  /** Shutdown is reached, within the measure's number of calls plus one. */
  lemma AlwaysPowersOff(m: Machine)
    requires Managed(m)
    ensures GoesDown(m, Measure(m.progs, TurnOf(m.s)) + 1, AllIdles(m.progs, TurnOf(m.s)))
  {
    var n := DownFrom(m, AllIdles(m.progs, TurnOf(m.s)));
    hide Inv, Apart, Programmed, Measure, AllIdles, DownAfter;
  }

  /** A process is left with the processor at power-off exactly when it yields with nobody ready.
      With an idle loop about that process is the idle one. */
  lemma CutOffIff(m: Machine)
    requires Managed(m)
    ensures (Proceed(m).s.status == PoweredOff && Proceed(m).s.running.Some?)
       <==> (m.s.ready == [] && NextCall(m.progs[m.s.running.value.addr]) == IDLE)
  {
    var a := m.s.running.value.addr;
    match NextCall(m.progs[a]) {
      case EXIT => if m.s.ready != [] { ExitShape(m.s); }
      case IDLE => if m.s.ready != [] { IdleShape(m.s); }
      case _ =>
    }
  }

  // ----- The machine after boot and `load` -----

  function Assign(q: seq<Proc>, gs: seq<Program>): map<int, Program>
    requires |q| == |gs|
  {
    if q == [] then map[] else Assign(q[1..], gs[1..])[q[0].addr := gs[0]]
  }

  ghost predicate Assigned(progs: map<int, Program>, q: seq<Proc>, gs: seq<Program>)
    requires |q| == |gs|
  {
    forall i :: 0 <= i < |q| ==> q[i].addr in progs && progs[q[i].addr] == gs[i]
  }

  lemma {:induction false} AssignWorks(q: seq<Proc>, gs: seq<Program>)
    requires |q| == |gs| && Distinct(q)
    ensures Assigned(Assign(q, gs), q, gs)
  {
    if q != [] {
      AssignWorks(q[1..], gs[1..]);
      forall i | 0 <= i < |q| ensures q[i].addr in Assign(q, gs) && Assign(q, gs)[q[i].addr] == gs[i] {
        if i > 0 { assert q[i] == q[1..][i - 1] && gs[i] == gs[1..][i - 1]; }
      }
    }
  }

  function ScriptWeights(gs: seq<Program>): nat {
    if gs == [] then 0 else (if gs[0].Script? then 3 * |gs[0].left| else 0) + ScriptWeights(gs[1..])
  }

  function IdleLoops(gs: seq<Program>): nat {
    if gs == [] then 0 else (if gs[0].IdleLoop? then 1 else 0) + IdleLoops(gs[1..])
  }

  lemma {:induction false} AssignedSums(progs: map<int, Program>, q: seq<Proc>, gs: seq<Program>)
    requires |q| == |gs| && Assigned(progs, q, gs)
    ensures TotalWeight(progs, q) == ScriptWeights(gs) && IdleCount(progs, q) == IdleLoops(gs)
  {
    if q != [] {
      forall i | 0 <= i < |q[1..]| ensures q[1..][i].addr in progs && progs[q[1..][i].addr] == gs[1..][i] {
        assert q[1..][i] == q[i + 1];
      }
      AssignedSums(progs, q[1..], gs[1..]);
    }
  }

  /** commhand about to leave, the five processes at their start and the idle loop. */
  function LoadedPrograms(runs: seq<seq<OpCode>>): seq<Program>
    requires |runs| == 5
  {
    [Script([EXIT]), Script(runs[0]), Script(runs[1]), Script(runs[2]), Script(runs[3]), Script(runs[4]),
     IdleLoop(false)]
  }

  function LoadedMachine(boot: Sys, runs: seq<seq<OpCode>>): Machine
    requires |runs| == 5 && LoadR3(boot).running.Some? && |LoadR3(boot).ready| == 6
  {
    var s := LoadR3(boot);
    Machine(s, Assign([s.running.value] + s.ready, LoadedPrograms(runs)))
  }

  lemma SumsCons(g: Program, gs: seq<Program>)
    ensures ScriptWeights([g] + gs) == ScriptWeights(gs) + if g.Script? then 3 * |g.left| else 0
    ensures IdleLoops([g] + gs) == IdleLoops(gs) + if g.IdleLoop? then 1 else 0
  {
    assert ([g] + gs)[1..] == gs;
  }

  lemma NoSums()
    ensures ScriptWeights([]) == 0 && IdleLoops([]) == 0
  {
  }

  lemma LoadedSums(runs: seq<seq<OpCode>>)
    requires |runs| == 5
    ensures ScriptWeights(LoadedPrograms(runs)[1..])
         == 3 * (|runs[0]| + |runs[1]| + |runs[2]| + |runs[3]| + |runs[4]|)
    ensures IdleLoops(LoadedPrograms(runs)[1..]) == 1
  {
    hide ScriptWeights, IdleLoops;
    var g5 := [IdleLoop(false)] + [];
    var g4 := [Script(runs[4])] + g5;
    var g3 := [Script(runs[3])] + g4;
    var g2 := [Script(runs[2])] + g3;
    var g1 := [Script(runs[1])] + g2;
    NoSums();
    SumsCons(IdleLoop(false), []);
    SumsCons(Script(runs[4]), g5);
    SumsCons(Script(runs[3]), g4);
    SumsCons(Script(runs[2]), g3);
    SumsCons(Script(runs[1]), g2);
    SumsCons(Script(runs[0]), g1);
    assert LoadedPrograms(runs)[1..] == [Script(runs[0])] + g1;
  }

  lemma ManagedWhen(m: Machine, gs: seq<Program>)
    requires Inv(m.s) && m.s.status == Live && m.s.running.Some? && |gs| == |m.s.ready| + 1
    requires m.progs == Assign([m.s.running.value] + m.s.ready, gs)
    requires forall i :: 0 <= i < |gs| ==> Ends(gs[i]) && gs[i] != IdleLoop(true)
    requires IdleLoops(gs[1..]) <= 1 && gs[0].Script?
    ensures Managed(m)
    ensures Measure(m.progs, TurnOf(m.s)) == ScriptWeights(gs[1..]) + 3 * |gs[0].left|
    ensures AllIdles(m.progs, TurnOf(m.s)) == IdleLoops(gs[1..])
  {
    hide Inv, Assign, ScriptWeights, IdleLoops, TotalWeight, IdleCount, Ends;
    var cur, q := m.s.running.value, m.s.ready;
    TurnApart(m.s);
    assert Distinct([cur] + q);
    AssignWorks([cur] + q, gs);
    assert ([cur] + q)[0] == cur;
    forall i | 0 <= i < |q| ensures q[i].addr in m.progs && m.progs[q[i].addr] == gs[1..][i] {
      assert ([cur] + q)[i + 1] == q[i];
    }
    AssignedSums(m.progs, q, gs[1..]);
  }

  lemma LoadedIsLive(boot: Sys)
    requires boot == Boot()
    ensures var s := LoadR3(boot); Inv(s) && s.status == Live && s.running.Some? && |s.ready| == 6
  {
    hide Inv, LoadR3;
    LoadedAll(boot);
    BootState();
  }

  lemma LoadedEnd(runs: seq<seq<OpCode>>, rounds: seq<nat>)
    requires |runs| == |rounds| == 5 && forall i :: 0 <= i < 5 ==> IsR3Run(runs[i], rounds[i])
    ensures forall i :: 0 <= i < 7 ==> Ends(LoadedPrograms(runs)[i]) && LoadedPrograms(runs)[i] != IdleLoop(true)
    ensures |runs[0]| + |runs[1]| + |runs[2]| + |runs[3]| + |runs[4]|
         == 2 * (rounds[0] + rounds[1] + rounds[2] + rounds[3] + rounds[4]) + 10
  {
    forall i | 0 <= i < 7 ensures Ends(LoadedPrograms(runs)[i]) && LoadedPrograms(runs)[i] != IdleLoop(true) {
      if 1 <= i <= 5 { assert IsR3Run(runs[i - 1], rounds[i - 1]); }
    }
  }

  /** From boot and `load`, when commhand leaves, whatever the numbers of rounds: the machine goes
      down, within a bound, with only the idle process left, so after every process has exited. */
  lemma LoadedGoesDown(boot: Sys, runs: seq<seq<OpCode>>, rounds: seq<nat>)
    requires boot == Boot() && |runs| == |rounds| == 5
    requires forall i :: 0 <= i < 5 ==> IsR3Run(runs[i], rounds[i])
    ensures LoadR3(boot).running.Some? && |LoadR3(boot).ready| == 6
    ensures var m := LoadedMachine(boot, runs);
      Managed(m) && GoesDown(m, 6 * (rounds[0] + rounds[1] + rounds[2] + rounds[3] + rounds[4]) + 34, 1)
  {
    hide Inv, Boot, LoadR3, Assign, Managed, GoesDown, ScriptWeights, IdleLoops, Measure, AllIdles, IsR3Run, Ends;
    LoadedIsLive(boot);
    var m, gs := LoadedMachine(boot, runs), LoadedPrograms(runs);
    LoadedSums(runs);
    LoadedEnd(runs, rounds);
    ManagedWhen(m, gs);
    AlwaysPowersOff(m);
  }

  // ----- A process that is cut off -----

  /** The operator blocks the idle process, loads a process and leaves; the process yields. */
  const CUTTING := [DoBlock("idle"), DoLoadProcess("proc1"), Call(EXIT), Call(IDLE)]

  /** Nothing stops `block` from taking the only waiting process out, of whatever class. */
  lemma BlockOnly(s: Sys, p: Proc)
    requires Inv(s) && s.ready == [p] && s.blocked == s.suspendedReady == s.suspendedBlocked == []
    requires p.name != ""
    ensures var t, p' := Block(s, p.name), p.(exec := Blocked);
      && Inv(t) && t == s.(ready := [], blocked := [p'], arrived := t.arrived)
  {
    hide Partition, Ordered, Spaced;
    assert p in s.ready;
    BlockKeeps(s, p.name);
    assert Queued(s) == [p];
    WithoutHead(p, []);
    assert [p] + [] == [p];
  }

  lemma LoadOnly(s: Sys, i: Proc)
    requires Inv(s) && s.status == Live && s.ready == s.suspendedReady == s.suspendedBlocked == [] && s.blocked == [i]
    requires i.name != "proc1" && s.heap + PCB_SIZE + STACK_SIZE <= KernelHeap.BASE + KernelHeap.SIZE
    ensures var t := LoadProcess(s, "proc1");
      && Inv(t) && t.status == Live && t.running == s.running
      && t.ready == [Proc(s.heap, "proc1", UserClass, 1, Ready, Active)]
  {
    hide Inv, Load, InsertByPriority;
    LoadKeeps(s, "proc1", UserClass, 1);
    assert Queued(s) == [i];
    assert FirstNamed([i][1..], "proc1") == None;
    LoadWorks(s, "proc1", UserClass, 1);
    InsertFirst([], Proc(s.heap, "proc1", UserClass, 1, Ready, Active));
  }

  lemma CuttingRuns(s0: Sys)
    ensures Run(s0, CUTTING) == Step(Step(Step(Step(s0, CUTTING[0]), CUTTING[1]), CUTTING[2]), CUTTING[3])
    ensures CommhandLoads(s0, CUTTING) <==> RunningIsNamed(Step(s0, CUTTING[0]), "commhand")
  {
    hide Step;
    var e1, e2, e3 := CUTTING[1..], CUTTING[2..], CUTTING[3..];
    assert e1[1..] == e2 && e2[1..] == e3 && e3[1..] == [];
    assert e1[0] == CUTTING[1] && e2[0] == CUTTING[2] && e3[0] == CUTTING[3];
  }

  /** A run from boot, with nothing but what the operator and the programs may do, that powers the
      machine off under a process in the middle of its work. */
  lemma CutOffFromBoot(boot: Sys)
    requires boot == Boot()
    ensures CommhandLoads(boot, CUTTING)
    ensures var end := Run(boot, CUTTING);
      end.status == PoweredOff && end.running.Some? && end.running.value.name == "proc1"
  {
    hide Inv, Boot, BeforeFirstTrap, Block, LoadProcess, Exit, InsertByPriority;
    BootState();
    var i := boot.ready[0];
    BlockOnly(boot, i);
    assert |i.name| != |"proc1"|;
    var s1 := Step(boot, CUTTING[0]);
    LoadOnly(s1, i.(exec := Blocked));
    var s2 := Step(s1, CUTTING[1]);
    ExitShape(s2);
    CuttingRuns(boot);
  }
}
