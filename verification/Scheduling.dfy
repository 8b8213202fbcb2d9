/** Who runs when, over runs of any length in which the processes only yield, read and write. */
module Scheduling {
  import opened Processes
  import opened SystemState
  import opened Invariants
  import KernelHeap

  /** The running process and the ready queue. */
  datatype Turn = Turn(cur: Proc, q: seq<Proc>)

  function Yield(t: Turn): Turn {
    if t.q == [] then t else Turn(t.q[0], InsertByPriority(t.q[1..], t.cur))
  }

  function Yields(t: Turn, n: nat): Turn
    decreases n
  {
    if n == 0 then t else Yields(Yield(t), n - 1)
  }

  lemma {:induction false} YieldsPlus(t: Turn, m: nat, n: nat)
    ensures Yields(t, m + n) == Yields(Yields(t, m), n)
    decreases m
  {
    if m > 0 { YieldsPlus(Yield(t), m - 1, n); }
  }

  /** A state that comes back keeps coming back. */
  lemma {:induction false} YieldsPeriodic(t: Turn, period: nat, times: nat, n: nat)
    requires Yields(t, period) == t
    ensures Yields(t, period * times + n) == Yields(t, n)
    decreases times
  {
    if times > 0 {
      var before := period * (times - 1) + n;
      assert period * times + n == period + before;
      YieldsPlus(t, period, before);
      YieldsPeriodic(t, period, times - 1, n);
    }
  }

  // ----- From the system to turns -----

  function TurnOf(s: Sys): Turn
    requires s.running.Some?
  {
    Turn(s.running.value, s.ready)
  }

  lemma ReadySorted(s: Sys)
    requires Ordered(s)
    ensures Sorted(s.ready)
  {
    BucketsSorted(s.arrived, 0);
  }

  /** Reading the head before reinserting the yielder amounts to inserting into the tail. */
  lemma IdleShape(s: Sys)
    requires Inv(s) && s.running.Some? && s.ready != []
    ensures Idle(s).running.Some? && TurnOf(Idle(s)) == Yield(TurnOf(s))
    ensures Idle(s).status == s.status && Idle(s).live == s.live
  {
    hide Partition, Ordered, Spaced, Sorted, Without, InsertByPriority;
    var cur, next := s.running.value, s.ready[0];
    ReadySorted(s);
    RunningElsewhere(s, ReadyQ, next);
    InsertFrame(s, cur);
    RemoveFrame(Insert(s, cur), next);
    assert next in s.ready;
    InsertThenTakeHead(s.ready, cur);
  }

  /** An exit leaves the rest of the queue in place. */
  lemma ExitShape(s: Sys)
    requires Inv(s) && s.running.Some? && s.ready != []
    ensures Exit(s).running.Some? && TurnOf(Exit(s)) == Turn(s.ready[0], s.ready[1..]) && Exit(s).status == s.status
  {
    assert s.ready[0] in s.ready;
    RemoveFrame(Free(s, s.running), s.ready[0]);
  }

  predicate OnlyTurns(es: seq<Event>) {
    forall e :: e in es ==> e.Call? && e.op != EXIT
  }

  function Idles(es: seq<Event>): nat {
    if es == [] then 0 else (if es[0] == Call(IDLE) then 1 else 0) + Idles(es[1..])
  }

  predicate Turning(s: Sys) {
    s.status == Live && s.running.Some? && s.ready != []
  }

  lemma StepTurn(s: Sys, e: Event)
    requires Inv(s) && Turning(s) && e.Call? && e.op != EXIT
    ensures Inv(Step(s, e)) && Turning(Step(s, e))
    ensures TurnOf(Step(s, e)) == if e == Call(IDLE) then Yield(TurnOf(s)) else TurnOf(s)
  {
    StepKeeps(s, e);
    IdleShape(s);
  }

  lemma {:induction false} RunTurns(s: Sys, es: seq<Event>)
    requires Inv(s) && Turning(s) && OnlyTurns(es)
    ensures Turning(Run(s, es)) && TurnOf(Run(s, es)) == Yields(TurnOf(s), Idles(es))
    decreases |es|
  {
    hide Inv, Step, Yield;
    if es != [] {
      assert es[0] in es;
      assert forall e :: e in es[1..] ==> e in es;
      StepTurn(s, es[0]);
      RunTurns(Step(s, es[0]), es[1..]);
    }
  }

  /** A run of n yields, for the converse directions. */
  function NIdles(n: nat): (es: seq<Event>)
    ensures OnlyTurns(es)
    ensures Idles(es) == n
  {
    if n == 0 then [] else
      var rest := NIdles(n - 1);
      assert ([Call(IDLE)] + rest)[1..] == rest;
      [Call(IDLE)] + rest
  }

  // ----- Counting the better ones -----

  function CountBelow(q: seq<Proc>, k: int): nat {
    if q == [] then 0 else (if q[0].priority < k then 1 else 0) + CountBelow(q[1..], k)
  }

  function Better(t: Turn, k: int): nat {
    (if t.cur.priority < k then 1 else 0) + CountBelow(t.q, k)
  }

  lemma {:induction false} CountInsert(q: seq<Proc>, p: Proc, k: int)
    ensures CountBelow(InsertByPriority(q, p), k) == CountBelow(q, k) + if p.priority < k then 1 else 0
  {
    if q != [] && q[0].priority <= p.priority {
      CountInsert(q[1..], p, k);
      var r := InsertByPriority(q[1..], p);
      assert ([q[0]] + r)[1..] == r;
    } else {
      assert ([p] + q)[1..] == q;
    }
  }

  lemma {:induction false} CountNone(q: seq<Proc>, k: int)
    ensures CountBelow(q, k) == 0 <==> forall j :: 0 <= j < |q| ==> q[j].priority >= k
  {
    if q != [] {
      CountNone(q[1..], k);
      assert forall j :: 0 < j < |q| ==> q[j] == q[1..][j - 1];
      assert forall j :: 0 <= j < |q| - 1 ==> q[1..][j] == q[j + 1];
    }
  }

  lemma SortedInsert(q: seq<Proc>, p: Proc)
    requires Sorted(q)
    ensures Sorted(InsertByPriority(q, p))
  {
    var i := InsertPosition(q, p);
  }

  lemma SortedTail(q: seq<Proc>)
    requires Sorted(q) && q != []
    ensures Sorted(q[1..])
  {
  }

  lemma YieldKeeps(t: Turn, k: int)
    requires Sorted(t.q)
    ensures Sorted(Yield(t).q) && Better(Yield(t), k) == Better(t, k)
  {
    if t.q != [] {
      SortedTail(t.q);
      SortedInsert(t.q[1..], t.cur);
      CountInsert(t.q[1..], t.cur, k);
    }
  }

  // ----- Starvation -----

  /** With two strictly better ones about, only better ones are ever dispatched. */
  lemma {:induction false} StarvedTurns(t: Turn, k: int, n: nat)
    requires Sorted(t.q) && Better(t, k) >= 2 && n > 0
    ensures Yields(t, n).cur.priority < k
    decreases n
  {
    YieldKeeps(t, k);
    CountNone(t.q, k);
    if n > 1 {
      StarvedTurns(Yield(t), k, n - 1);
    } else {
      assert Yields(t, 1) == Yields(Yield(t), 0) == Yield(t);
    }
  }

  // ----- Waiting times -----

  /** After how many yields the process at index i is dispatched, if it is at all. */
  function Wait(t: Turn, i: nat): nat
    requires i < |t.q|
  {
    var k := t.q[i].priority;
    if Better(t, k) == 0 then i + 1
    else if t.cur.priority < k then 2 * i + 1
    else 2 * i
  }

  /** The target keeps its place in the tail when the yielder is no better than it. */
  lemma YieldShifts(t: Turn, i: nat)
    requires Sorted(t.q) && 0 < i < |t.q| && t.cur.priority >= t.q[i].priority
    ensures |Yield(t).q| == |t.q| && forall j :: 0 <= j < i ==> Yield(t).q[j] == t.q[j + 1]
  {
    var tail := t.q[1..];
    var x := InsertPosition(tail, t.cur);
    assert x >= i by {
      assert x < |tail| ==> tail[x] == t.q[x + 1];
    }
  }

  /** No block twice, nor both running and waiting. */
  ghost predicate Apart(t: Turn) {
    Distinct(t.q) && forall j :: 0 <= j < |t.q| ==> t.q[j].addr != t.cur.addr
  }

  lemma YieldKeepsApart(t: Turn)
    requires Apart(t)
    ensures Apart(Yield(t))
  {
    hide InsertByPriority;
    if t.q != [] {
      var tail, r := t.q[1..], Yield(t).q;
      var x := InsertPosition(tail, t.cur);
      assert forall j :: 0 <= j < x ==> r[j] == t.q[j + 1];
      assert r[x] == t.cur;
      assert forall j :: x < j < |r| ==> r[j] == t.q[j];
    }
  }

  /** Exactly Wait(t, i) yields, and not one sooner. */
  lemma {:induction false} WaitExact(t: Turn, i: nat)
    requires Sorted(t.q) && Apart(t)
    requires i < |t.q| && Better(t, t.q[i].priority) <= 1
    ensures Wait(t, i) > 0 && Yields(t, Wait(t, i)).cur == t.q[i]
    ensures forall n :: 0 < n < Wait(t, i) ==> Yields(t, n).cur != t.q[i]
    decreases i, if t.cur.priority < t.q[i].priority then 1 else 0
  {
    var p, u := t.q[i], Yield(t);
    YieldKeeps(t, p.priority);
    YieldKeepsApart(t);
    WaitPositive(t, i);
    if i == 0 {
      assert Yields(t, 1) == Yields(u, 0) == u;
    } else {
      var j := WaitNext(t, i);
      WaitExact(u, j);
      forall n | 0 < n < Wait(t, i) ensures Yields(t, n).cur != p {
        assert Yields(t, n) == Yields(u, n - 1);
      }
    }
  }

  lemma WaitPositive(t: Turn, i: nat)
    requires Sorted(t.q) && i < |t.q| && Better(t, t.q[i].priority) <= 1
    ensures Wait(t, i) > 0
    ensures i == 0 ==> Wait(t, i) == 1
  {
    if i == 0 { CountNone(t.q, t.q[0].priority); }
  }

  /** One yield takes the target one dispatch closer. */
  lemma WaitNext(t: Turn, i: nat) returns (j: nat)
    requires Sorted(t.q) && 0 < i < |t.q| && Better(t, t.q[i].priority) <= 1
    ensures j < |Yield(t).q| && Yield(t).q[j] == t.q[i]
    ensures Better(Yield(t), t.q[i].priority) <= 1
    ensures Wait(t, i) == 1 + Wait(Yield(t), j)
    ensures j < i || (j == i && t.cur.priority < t.q[i].priority && Yield(t).cur.priority >= t.q[i].priority)
  {
    var p, u := t.q[i], Yield(t);
    YieldKeeps(t, p.priority);
    if t.cur.priority < p.priority {
      CountNone(t.q, p.priority);
      assert u.q == [t.cur] + t.q[1..];
      j := i;
    } else {
      YieldShifts(t, i);
      j := i - 1;
      CountNone(t.q, p.priority);
      CountNone(u.q, p.priority);
      if Better(t, p.priority) == 1 {
        assert t.q[0].priority < p.priority by {
          var x :| 0 <= x < |t.q| && t.q[x].priority < p.priority;
        }
      }
    }
  }

  // ----- The same on the whole system -----

  lemma TurnApart(s: Sys)
    requires Inv(s) && s.running.Some?
    ensures Apart(TurnOf(s))
  {
    QueueDistinct(s, {}, ReadyQ);
    forall j | 0 <= j < |s.ready| ensures s.ready[j].addr != s.running.value.addr {
      RunningElsewhere(s, ReadyQ, s.ready[j]);
    }
  }

  /** A waiting process is starved by every run of IDLE, READ and WRITE calls exactly when two
      processes, the running one included, are strictly better than it. */
  lemma StarvedIff(s: Sys, i: nat)
    requires Inv(s) && s.status == Live && s.running.Some? && i < |s.ready|
    ensures Better(TurnOf(s), s.ready[i].priority) >= 2
        <==> forall es :: OnlyTurns(es) ==> Run(s, es).running != Some(s.ready[i])
  {
    var t, p := TurnOf(s), s.ready[i];
    ReadySorted(s);
    TurnApart(s);
    if Better(t, p.priority) >= 2 {
      forall es | OnlyTurns(es) ensures Run(s, es).running != Some(p) {
        RunTurns(s, es);
        if Idles(es) > 0 {
          StarvedTurns(t, p.priority, Idles(es));
        }
      }
    } else {
      WaitExact(t, i);
      RunTurns(s, NIdles(Wait(t, i)));
    }
  }

  /** Otherwise it is dispatched, by the yield whose number Wait gives and by none before. */
  lemma ExactWait(s: Sys, i: nat, es: seq<Event>)
    requires Inv(s) && s.status == Live && s.running.Some? && i < |s.ready| && OnlyTurns(es)
    requires Better(TurnOf(s), s.ready[i].priority) <= 1 && Idles(es) <= Wait(TurnOf(s), i)
    ensures Run(s, es).running == Some(s.ready[i]) <==> Idles(es) == Wait(TurnOf(s), i)
  {
    var t := TurnOf(s);
    ReadySorted(s);
    TurnApart(s);
    WaitExact(t, i);
    RunTurns(s, es);
  }

  // ----- Waiting while others may also exit -----

  predicate OnlyCalls(es: seq<Event>) {
    forall e :: e in es ==> e.Call?
  }

  /** The calls that give the processor away. */
  predicate IsSwitch(e: Event) {
    e == Call(IDLE) || e == Call(EXIT)
  }

  function Switches(es: seq<Event>): nat {
    if es == [] then 0 else (if IsSwitch(es[0]) then 1 else 0) + Switches(es[1..])
  }

  function Switched(t: Turn, e: Event): Turn
    requires t.q != []
  {
    if e == Call(EXIT) then Turn(t.q[0], t.q[1..]) else Yield(t)
  }

  lemma SwitchTurn(s: Sys, e: Event)
    requires Inv(s) && Turning(s) && IsSwitch(e)
    ensures var s' := Step(s, e);
      Inv(s') && s'.status == Live && s'.running.Some? && TurnOf(s') == Switched(TurnOf(s), e)
  {
    hide Inv;
    StepKeeps(s, e);
    IdleShape(s);
    ExitShape(s);
  }

  /** One switch of either kind takes the target at least one dispatch closer, and at most one
      place. */
  lemma SwitchNext(t: Turn, i: nat, e: Event) returns (j: nat)
    requires Sorted(t.q) && 0 < i < |t.q| && Better(t, t.q[i].priority) <= 1 && IsSwitch(e)
    ensures var k, u := t.q[i].priority, Switched(t, e);
      && j < |u.q| && u.q[j] == t.q[i] && i - 1 <= j
      && Better(u, k) <= 1 && Wait(u, j) < Wait(t, i)
      && (Better(t, k) == 0 ==> Better(u, k) == 0 && j == i - 1)
  {
    var k := t.q[i].priority;
    if e == Call(IDLE) {
      j := WaitNext(t, i);
      YieldKeeps(t, k);
    } else {
      j := i - 1;
    }
  }

  ghost predicate RunsWithin(s: Sys, es: seq<Event>, p: Proc, switches: nat) {
    exists m :: 0 <= m <= |es| && Switches(es[..m]) <= switches && Run(s, es[..m]).running == Some(p)
  }

  lemma WithinAfterStep(s: Sys, es: seq<Event>, p: Proc, switches: nat)
    requires es != [] && RunsWithin(Step(s, es[0]), es[1..], p, switches)
    ensures RunsWithin(s, es, p, switches + if IsSwitch(es[0]) then 1 else 0)
  {
    hide Step;
    var m :| 0 <= m <= |es[1..]| && Switches(es[1..][..m]) <= switches
             && Run(Step(s, es[0]), es[1..][..m]).running == Some(p);
    assert es[..m + 1][1..] == es[1..][..m];
  }

  lemma WithinOneStep(s: Sys, es: seq<Event>, p: Proc)
    requires es != [] && Step(s, es[0]).running == Some(p)
    ensures RunsWithin(s, es, p, 1)
  {
    hide Step;
    assert es[..1][1..] == [];
    assert Switches(es[..1]) <= 1 && Run(s, es[..1]) == Step(s, es[0]);
  }

  lemma {:induction false} NoSwitches(s: Sys, es: seq<Event>)
    requires OnlyCalls(es) && Switches(es) == 0
    ensures Run(s, es) == s
    decreases |es|
  {
    if es != [] {
      assert es[0] in es && forall e :: e in es[1..] ==> e in es;
      NoSwitches(s, es[1..]);
    }
  }

  lemma NoSwitchStep(s: Sys, e: Event)
    requires e.Call? && !IsSwitch(e)
    ensures Step(s, e) == s
  {
  }

  lemma RunUnfolds(s: Sys, es: seq<Event>)
    ensures Run(s, es) == if es == [] then s else Run(Step(s, es[0]), es[1..])
    ensures Switches(es) == if es == [] then 0 else Switches(es[1..]) + if IsSwitch(es[0]) then 1 else 0
  {
    hide Step;
  }

  /** On, with the process still waiting. */
  predicate Awaits(s: Sys, p: Proc) {
    s.status == Live && s.running.Some? && s.running != Some(p) && p in s.ready
  }

  lemma AwaitsNow(s: Sys, i: nat)
    requires Inv(s) && s.status == Live && s.running.Some? && i < |s.ready|
    ensures Sorted(s.ready) && Awaits(s, s.ready[i])
  {
    hide Partition, Ordered, Spaced;
    ReadySorted(s);
    RunningElsewhere(s, ReadyQ, s.ready[i]);
  }

  lemma {:induction false} Approaches(s: Sys, i: nat, es: seq<Event>)
    requires Inv(s) && s.status == Live && s.running.Some? && i < |s.ready| && OnlyCalls(es)
    requires Better(TurnOf(s), s.ready[i].priority) <= 1
    ensures Switches(es) >= Wait(TurnOf(s), i) ==> RunsWithin(s, es, s.ready[i], Wait(TurnOf(s), i))
    decreases |es|
  {
    hide Inv, RunsWithin, Better, Wait, Switched, Sorted, Awaits, Run, Switches, Step;
    RunUnfolds(s, es);
    var t, p := TurnOf(s), s.ready[i];
    AwaitsNow(s, i);
    WaitPositive(t, i);
    if es != [] {
      var s', rest := Step(s, es[0]), es[1..];
      assert es[0] in es && forall e :: e in rest ==> e in es;
      if !IsSwitch(es[0]) {
        NoSwitchStep(s, es[0]);
        Approaches(s, i, rest);
        if Switches(rest) >= Wait(t, i) { WithinAfterStep(s, es, p, Wait(t, i)); }
      } else {
        SwitchTurn(s, es[0]);
        if i == 0 {
          SwitchFirst(t, es[0]);
          WithinOneStep(s, es, p);
        } else {
          var j := SwitchNext(t, i, es[0]);
          Approaches(s', j, rest);
          if Switches(rest) >= Wait(TurnOf(s'), j) {
            WithinAfterStep(s, es, p, Wait(TurnOf(s'), j));
            WithinMore(s, es, p, Wait(TurnOf(s'), j) + 1, Wait(t, i));
          }
        }
      }
    }
  }

  lemma SwitchFirst(t: Turn, e: Event)
    requires t.q != []
    ensures Switched(t, e).cur == t.q[0]
  {
  }

  lemma WithinMore(s: Sys, es: seq<Event>, p: Proc, m: nat, n: nat)
    requires RunsWithin(s, es, p, m) && m <= n
    ensures RunsWithin(s, es, p, n)
  {
  }

  // ----- The exact place, whoever is about -----

  /** A yield that does not bring the process nearer: the yielder is better and goes in front. */
  predicate Overtaken(s: Sys, e: Event, p: Proc) {
    && e == Call(IDLE) && s.running.Some? && s.running.value.priority < p.priority
    && s.ready != [] && s.ready[0] != p
  }

  /** How often that happens before the process runs. */
  function Overtakes(s: Sys, es: seq<Event>, p: Proc): nat
    decreases |es|
  {
    if es == [] || s.running == Some(p) then 0
    else (if Overtaken(s, es[0], p) then 1 else 0) + Overtakes(Step(s, es[0]), es[1..], p)
  }

  lemma OvertakesUnfold(s: Sys, es: seq<Event>, p: Proc)
    ensures Overtakes(s, es, p) == if es == [] || s.running == Some(p) then 0 else
      Overtakes(Step(s, es[0]), es[1..], p) + if Overtaken(s, es[0], p) then 1 else 0
  {
    hide Step, Overtaken;
  }

  /** On, with the process at a place of the ready queue; at place -1 it runs. */
  predicate IsAt(s: Sys, p: Proc, n: int) {
    s.status == Live && if n < 0 then n == -1 && s.running == Some(p) else n < |s.ready| && s.ready[n] == p
  }

  /** A switch brings the process forward by one place, unless it is overtaken. */
  lemma SwitchPlace(t: Turn, i: nat, e: Event)
    requires Sorted(t.q) && 0 < i < |t.q| && IsSwitch(e)
    ensures var u, j := Switched(t, e), if e == Call(IDLE) && t.cur.priority < t.q[i].priority then i else i - 1;
      j < |u.q| && u.q[j] == t.q[i]
  {
    if e == Call(IDLE) {
      if t.cur.priority >= t.q[i].priority {
        YieldShifts(t, i);
      } else {
        var x := InsertPosition(t.q[1..], t.cur);
        assert x <= i - 1;
      }
    }
  }

  lemma ReadyApart(s: Sys)
    requires Inv(s)
    ensures forall i :: 0 < i < |s.ready| ==> s.ready[0] != s.ready[i]
  {
    hide Homed, Ordered, Spaced;
    QueueDistinct(s, {}, ReadyQ);
  }

  /** Over runs of any calls, whoever is about and makes them: the process at index i comes forward
      by one place in each switch in which it is not overtaken, and runs when it has done so i + 1
      times. */
  lemma {:induction false} PlaceExact(s: Sys, i: nat, es: seq<Event>)
    requires Inv(s) && s.status == Live && s.running.Some? && i < |s.ready| && OnlyCalls(es)
    ensures var last := i + 1 + Overtakes(s, es, s.ready[i]);
      && (Switches(es) <= last ==> IsAt(Run(s, es), s.ready[i], last - Switches(es) - 1))
      && (Switches(es) >= last ==> RunsWithin(s, es, s.ready[i], last))
    decreases |es|
  {
    hide Inv, RunsWithin, Switched, Sorted, Awaits, Run, Switches, Step, Overtakes;
    RunUnfolds(s, es);
    OvertakesUnfold(s, es, s.ready[i]);
    AwaitsNow(s, i);
    WaitingApart(s, s.ready[i]);
    ReadyApart(s);
    if es != [] {
      var s', rest, p := Step(s, es[0]), es[1..], s.ready[i];
      assert es[0] in es && forall e :: e in rest ==> e in es;
      if !IsSwitch(es[0]) {
        NoSwitchStep(s, es[0]);
        PlaceExact(s, i, rest);
        if Switches(es) >= i + 1 + Overtakes(s, es, p) { WithinAfterStep(s, es, p, i + 1 + Overtakes(s, rest, p)); }
      } else {
        SwitchTurn(s, es[0]);
        if i == 0 {
          SwitchFirst(TurnOf(s), es[0]);
          OvertakesUnfold(s', rest, p);
          WithinOneStep(s, es, p);
          if Switches(rest) == 0 { NoSwitches(s', rest); }
        } else {
          SwitchPlace(TurnOf(s), i, es[0]);
          var j := if Overtaken(s, es[0], p) then i else i - 1;
          PlaceExact(s', j, rest);
          if Switches(es) >= i + 1 + Overtakes(s, es, p) { WithinAfterStep(s, es, p, j + 1 + Overtakes(s', rest, p)); }
        }
      }
    }
  }

  lemma WaitingApart(s: Sys, p: Proc)
    requires Awaits(s, p)
    ensures s.running != Some(p)
  {
  }

  /** Whoever yields is no better than k. */
  predicate Polite(s: Sys, es: seq<Event>, k: int)
    decreases |es|
  {
    es == [] ||
    ((es[0] == Call(IDLE) && s.running.Some? ==> s.running.value.priority >= k) && Polite(Step(s, es[0]), es[1..], k))
  }

  lemma {:induction false} PoliteNeverOvertake(s: Sys, es: seq<Event>, p: Proc)
    requires Polite(s, es, p.priority)
    ensures Overtakes(s, es, p) == 0
    decreases |es|
  {
    hide Step;
    if es != [] { PoliteNeverOvertake(Step(s, es[0]), es[1..], p); }
  }

  /** With none better about, nobody can be impolite. */
  lemma {:induction false} NoneBetterOvertakes(s: Sys, i: nat, es: seq<Event>)
    requires Inv(s) && s.status == Live && s.running.Some? && i < |s.ready| && OnlyCalls(es)
    requires Better(TurnOf(s), s.ready[i].priority) == 0
    ensures Overtakes(s, es, s.ready[i]) == 0
    decreases |es|
  {
    hide Inv, Switched, CountBelow, Sorted, Awaits, Overtakes, Step;
    OvertakesUnfold(s, es, s.ready[i]);
    AwaitsNow(s, i);
    if es != [] {
      var rest := es[1..];
      assert es[0] in es && forall e :: e in rest ==> e in es;
      if !IsSwitch(es[0]) {
        NoSwitchStep(s, es[0]);
        NoneBetterOvertakes(s, i, rest);
      } else {
        SwitchTurn(s, es[0]);
        if i == 0 {
          SwitchFirst(TurnOf(s), es[0]);
          OvertakesUnfold(Step(s, es[0]), rest, s.ready[i]);
        } else {
          var j := SwitchNext(TurnOf(s), i, es[0]);
          NoneBetterOvertakes(Step(s, es[0]), j, rest);
        }
      }
    }
  }

  /** Bounded waiting over runs of all system calls, exits included. Whoever is about: a process
      that nobody overtakes, as when all who yield are no better than it, is dispatched by exactly
      the switch after its index, and no process sooner. With at most one better one about it is
      dispatched no later than Wait tells for yields alone. */
  lemma BoundedWait(s: Sys, i: nat, es: seq<Event>)
    requires Inv(s) && s.status == Live && s.running.Some? && i < |s.ready| && OnlyCalls(es)
    ensures Polite(s, es, s.ready[i].priority) || Better(TurnOf(s), s.ready[i].priority) == 0 ==>
      Overtakes(s, es, s.ready[i]) == 0
    ensures Overtakes(s, es, s.ready[i]) == 0 && Switches(es) <= i + 1 ==>
      && Run(s, es).status == Live
      && (Run(s, es).running == Some(s.ready[i]) <==> Switches(es) == i + 1)
    ensures Switches(es) <= i ==> Run(s, es).status == Live && Run(s, es).running != Some(s.ready[i])
    ensures Better(TurnOf(s), s.ready[i].priority) <= 1 && Switches(es) >= Wait(TurnOf(s), i) ==>
      RunsWithin(s, es, s.ready[i], Wait(TurnOf(s), i))
  {
    hide Inv, Run, RunsWithin, Better, Wait, Polite, Overtakes, Switches;
    var p := s.ready[i];
    PlaceExact(s, i, es);
    RunKeeps(s, es);
    if Switches(es) <= i + Overtakes(s, es, p) { NotRunningAt(Run(s, es), p, i + Overtakes(s, es, p) - Switches(es)); }
    if Polite(s, es, p.priority) { PoliteNeverOvertake(s, es, p); }
    if Better(TurnOf(s), p.priority) == 0 { NoneBetterOvertakes(s, i, es); }
    if Better(TurnOf(s), p.priority) <= 1 { Approaches(s, i, es); }
  }

  lemma NotRunningAt(s: Sys, p: Proc, n: nat)
    requires Inv(s) && IsAt(s, p, n)
    ensures s.running != Some(p)
  {
    hide Homed, Ordered, Spaced;
    if s.running.Some? { RunningElsewhere(s, ReadyQ, s.ready[n]); }
  }

  // ----- Starvation while others may also exit -----

  function Exits(es: seq<Event>): nat {
    if es == [] then 0 else (if es[0] == Call(EXIT) then 1 else 0) + Exits(es[1..])
  }

  lemma ExitsUnfold(es: seq<Event>)
    ensures Exits(es) == if es == [] then 0 else Exits(es[1..]) + if es[0] == Call(EXIT) then 1 else 0
  {
  }

  /** A switch with two better ones about: one of them is dispatched, and at most one of them,
      if it exits, is no longer about. */
  lemma SwitchStarves(t: Turn, i: nat, e: Event) returns (j: nat)
    requires Sorted(t.q) && i < |t.q| && Better(t, t.q[i].priority) >= 2 && IsSwitch(e)
    ensures var k, u := t.q[i].priority, Switched(t, e);
      && j < |u.q| && u.q[j] == t.q[i]
      && Better(u, k) >= Better(t, k) - if e == Call(EXIT) then 1 else 0
  {
    var k := t.q[i].priority;
    CountNone(t.q, k);
    assert i > 0;
    if e == Call(IDLE) {
      YieldKeeps(t, k);
      var x := InsertPosition(t.q[1..], t.cur);
      j := if i - 1 < x then i - 1 else i;
    } else {
      j := i - 1;
    }
  }

  lemma {:induction false} StillWaits(s: Sys, i: nat, es: seq<Event>)
    requires Inv(s) && s.status == Live && s.running.Some? && i < |s.ready| && OnlyCalls(es)
    requires Better(TurnOf(s), s.ready[i].priority) >= Exits(es) + 2
    ensures Awaits(Run(s, es), s.ready[i])
    decreases |es|
  {
    hide Inv, Better, Switched, Sorted, Awaits, Run, Switches, Exits, Step;
    RunUnfolds(s, es);
    ExitsUnfold(es);
    AwaitsNow(s, i);
    if es != [] {
      var rest := es[1..];
      assert es[0] in es && forall e :: e in rest ==> e in es;
      if !IsSwitch(es[0]) {
        NoSwitchStep(s, es[0]);
        StillWaits(s, i, rest);
      } else {
        SwitchTurn(s, es[0]);
        var j := SwitchStarves(TurnOf(s), i, es[0]);
        StillWaits(Step(s, es[0]), j, rest);
      }
    }
  }

  /** Calls by which the process at index i comes to run with no more exits than it must await:
      the better ones leave one after the other until one is left. */
  lemma {:induction false} CallsToRun(s: Sys, i: nat) returns (es: seq<Event>)
    requires Inv(s) && s.status == Live && s.running.Some? && i < |s.ready|
    ensures OnlyCalls(es) && Run(s, es).running == Some(s.ready[i])
    ensures var b := Better(TurnOf(s), s.ready[i].priority); Exits(es) == if b <= 1 then 0 else b - 1
    decreases Better(TurnOf(s), s.ready[i].priority), if s.running.value.priority < s.ready[i].priority then 0 else 1
  {
    hide Inv, Better, Sorted, Run, Step, OnlyTurns, Yields;
    var t, k := TurnOf(s), s.ready[i].priority;
    AwaitsNow(s, i);
    TurnApart(s);
    if Better(t, k) <= 1 {
      WaitExact(t, i);
      es := NIdles(Wait(t, i));
      RunTurns(s, es);
      NoExits(es);
    } else {
      var e := if t.cur.priority < k then Call(EXIT) else Call(IDLE);
      SwitchTurn(s, e);
      var j := SwitchStarves(t, i, e);
      SwitchToBetter(t, i, e);
      var rest := CallsToRun(Step(s, e), j);
      es := [e] + rest;
      assert es[1..] == rest;
      RunUnfolds(s, es);
    }
  }

  /** The best one leaves, or makes way for a better one. */
  lemma SwitchToBetter(t: Turn, i: nat, e: Event)
    requires Sorted(t.q) && i < |t.q| && Better(t, t.q[i].priority) >= 2
    requires e == if t.cur.priority < t.q[i].priority then Call(EXIT) else Call(IDLE)
    ensures var k, u := t.q[i].priority, Switched(t, e);
      && u.cur.priority < k && Better(u, k) == Better(t, k) - if e == Call(EXIT) then 1 else 0
  {
    var k := t.q[i].priority;
    CountNone(t.q, k);
    if e == Call(IDLE) { YieldKeeps(t, k); }
  }

  lemma {:induction false} NoExits(es: seq<Event>)
    requires OnlyTurns(es)
    ensures Exits(es) == 0 && OnlyCalls(es)
  {
    if es != [] {
      assert es[0] in es && forall e :: e in es[1..] ==> e in es;
      NoExits(es[1..]);
    }
  }

  /** Over runs of all system calls, and for any k: k exits are not enough to bring the process at
      index i to run, whatever else is called, exactly when at least k + 2 are better than it. */
  lemma StarvedUntilExits(s: Sys, i: nat, k: nat)
    requires Inv(s) && s.status == Live && s.running.Some? && i < |s.ready|
    ensures Better(TurnOf(s), s.ready[i].priority) >= k + 2
        <==> forall es :: OnlyCalls(es) && Exits(es) <= k ==> Run(s, es).running != Some(s.ready[i])
  {
    hide Inv, Better, Run, Exits;
    if Better(TurnOf(s), s.ready[i].priority) >= k + 2 {
      forall es | OnlyCalls(es) && Exits(es) <= k ensures Run(s, es).running != Some(s.ready[i]) {
        StillWaits(s, i, es);
      }
    } else {
      var es := CallsToRun(s, i);
    }
  }

  predicate OldestBest(l: seq<Proc>, i: nat)
    requires i < |l|
  {
    && (forall j :: 0 <= j < |l| ==> l[i].priority <= l[j].priority)
    && (forall j :: 0 <= j < i ==> l[i].priority < l[j].priority)
  }

  ghost predicate DispatchedOldestBest(s: Sys, t: Sys) {
    exists i :: 0 <= i < |s.arrived| && t.running == Some(s.arrived[i]) && OldestBest(s.arrived, i)
  }

  lemma DispatchesHead(s: Sys)
    requires s.ready != []
    ensures Idle(s).running == Some(s.ready[0]) == Exit(s).running
  {
  }

  lemma HeadIsOldestBest(s: Sys)
    requires Inv(s) && s.ready != []
    ensures s.running != Some(s.ready[0])
    ensures exists i :: 0 <= i < |s.arrived| && s.ready[0] == s.arrived[i] && OldestBest(s.arrived, i)
  {
    hide Homed, Spaced;
    if s.running.Some? { RunningElsewhere(s, ReadyQ, s.ready[0]); }
    StableSortHead(s.arrived, 0);
  }

  /** The dispatched process is the oldest of the best of those waiting, at a yield and at an exit;
      never the one that yields or leaves. */
  lemma DispatchesOldestBest(s: Sys)
    requires Inv(s) && s.ready != []
    ensures Idle(s).running != s.running && DispatchedOldestBest(s, Idle(s))
    ensures Exit(s).running != s.running && DispatchedOldestBest(s, Exit(s))
  {
    hide Inv, Idle, Exit, OldestBest, StableSort;
    HeadIsOldestBest(s);
    DispatchesHead(s);
  }

  // ----- Round robin and alternation -----

  predicate AllPriority(e: seq<Proc>, k: int) {
    forall p :: p in e ==> p.priority == k
  }

  predicate AllWorse(lo: seq<Proc>, k: int) {
    forall p :: p in lo ==> p.priority > k
  }

  function Rotate(e: seq<Proc>, n: nat): (r: seq<Proc>)
    requires n <= |e|
    ensures |r| == |e|
  {
    e[n..] + e[..n]
  }

  lemma InsertAmong(e: seq<Proc>, lo: seq<Proc>, p: Proc)
    requires AllPriority(e, p.priority) && AllWorse(lo, p.priority)
    ensures InsertByPriority(e + lo, p) == e + [p] + lo
  {
    InsertSkips(e, lo, p);
    if lo != [] { assert lo[0] in lo; }
    assert e + ([p] + lo) == e + [p] + lo;
  }

  lemma RotateMembers(e: seq<Proc>, n: nat, k: int)
    requires n <= |e| && AllPriority(e, k)
    ensures AllPriority(Rotate(e, n), k)
  {
    assert forall p :: p in e[n..] ==> p in e;
    assert forall p :: p in e[..n] ==> p in e;
  }

  lemma RotateNext(e: seq<Proc>, n: nat)
    requires n < |e|
    ensures Rotate(e, n + 1) == Rotate(e, n)[1..] + [Rotate(e, n)[0]]
  {
  }

  lemma EqualsStep(r: seq<Proc>, lo: seq<Proc>, k: int)
    requires AllPriority(r, k) && AllWorse(lo, k) && |r| >= 2
    ensures Yield(Turn(r[0], r[1..] + lo)) == Turn(r[1], r[2..] + [r[0]] + lo)
  {
    assert (r[1..] + lo)[1..] == r[2..] + lo;
    assert r[0] in r;
    assert forall p :: p in r[2..] ==> p in r;
    InsertAmong(r[2..], lo, r[0]);
  }

  /** Two or more equals take turns in exact order, whoever waits below them. */
  lemma {:induction false} EqualsTakeTurns(e: seq<Proc>, lo: seq<Proc>, k: int, n: nat)
    requires |e| >= 2 && AllPriority(e, k) && AllWorse(lo, k) && n <= |e|
    ensures Yields(Turn(e[0], e[1..] + lo), n) == Turn(Rotate(e, n)[0], Rotate(e, n)[1..] + lo)
  {
    var t := Turn(e[0], e[1..] + lo);
    if n == 0 {
      assert Rotate(e, 0) == e;
    } else {
      EqualsTakeTurns(e, lo, k, n - 1);
      YieldsPlus(t, n - 1, 1);
      var r := Rotate(e, n - 1);
      RotateMembers(e, n - 1, k);
      EqualsStep(r, lo, k);
      RotateNext(e, n - 1);
      assert Yields(Turn(r[0], r[1..] + lo), 1) == Yields(Yield(Turn(r[0], r[1..] + lo)), 0);
      assert r[2..] + [r[0]] == Rotate(e, n)[1..];
    }
  }

  lemma EqualsPeriod(e: seq<Proc>, lo: seq<Proc>, k: int, times: nat, r: nat)
    requires |e| >= 2 && AllPriority(e, k) && AllWorse(lo, k) && r < |e|
    requires Apart(Turn(e[0], e[1..] + lo))
    ensures var t := Turn(e[0], e[1..] + lo);
      Yields(t, |e| * times + r).cur == e[r] && (Yields(t, |e| * times + r) == t <==> r == 0)
  {
    EqualsTakeTurns(e, lo, k, |e|);
    assert Rotate(e, |e|) == e;
    YieldsPeriodic(Turn(e[0], e[1..] + lo), |e|, times, r);
    EqualsTakeTurns(e, lo, k, r);
    if r > 0 {
      assert (e[1..] + lo)[r - 1] == e[r];
    }
  }

  /** Exact round robin on the system, on runs of any length: the yield number |e| * times + r
      runs the r-th equal, and the state is back at the multiples of |e| only. */
  lemma RoundRobin(s: Sys, e: seq<Proc>, lo: seq<Proc>, k: int, es: seq<Event>, times: nat, r: nat)
    requires Inv(s) && Turning(s) && OnlyTurns(es)
    requires |e| >= 2 && AllPriority(e, k) && AllWorse(lo, k)
    requires TurnOf(s) == Turn(e[0], e[1..] + lo)
    requires Idles(es) == |e| * times + r && r < |e|
    ensures Run(s, es).running == Some(e[r])
    ensures TurnOf(Run(s, es)) == TurnOf(s) <==> r == 0
  {
    hide Inv, Run, Apart, Yields, OnlyTurns, AllPriority, AllWorse;
    RunTurns(s, es);
    TurnApart(s);
    EqualsPeriod(e, lo, k, times, r);
  }

  lemma AlternatesStep(b: Proc, r: seq<Proc>, lo: seq<Proc>, k: int)
    requires AllPriority(r, k) && AllWorse(lo, k) && r != [] && b.priority < k
    ensures Yields(Turn(b, r + lo), 1) == Turn(r[0], [b] + r[1..] + lo)
    ensures Yields(Turn(b, r + lo), 2) == Turn(b, r[1..] + [r[0]] + lo)
  {
    var q := r + lo;
    assert q[1..] == r[1..] + lo;
    assert forall p :: p in r[1..] ==> p in r;
    if q[1..] != [] {
      assert q[1..][0] in r[1..] || q[1..][0] in lo;
    }
    var u := Yield(Turn(b, q));
    assert u == Turn(r[0], [b] + (r[1..] + lo));
    assert [b] + (r[1..] + lo) == [b] + r[1..] + lo;
    assert Yields(Turn(b, q), 1) == Yields(u, 0) == u;
    assert u.q[1..] == r[1..] + lo;
    assert r[0] in r;
    InsertAmong(r[1..], lo, r[0]);
    assert Yields(Turn(b, q), 2) == Yields(u, 1) == Yields(Yield(u), 0) == Yield(u);
  }

  /** A strictly best process gets every second dispatch, the next group takes turns in the
      others, and the lower ones wait: after 2j yields the group has rotated by j. */
  lemma {:induction false} Alternates(b: Proc, e: seq<Proc>, lo: seq<Proc>, k: int, j: nat)
    requires e != [] && AllPriority(e, k) && AllWorse(lo, k) && b.priority < k && j <= |e|
    ensures Yields(Turn(b, e + lo), 2 * j) == Turn(b, Rotate(e, j) + lo)
    ensures j < |e| ==> Yields(Turn(b, e + lo), 2 * j + 1) == Turn(e[j], [b] + Rotate(e, j)[1..] + lo)
  {
    var t := Turn(b, e + lo);
    if j == 0 {
      assert Rotate(e, 0) == e;
    } else {
      Alternates(b, e, lo, k, j - 1);
      RotateMembers(e, j - 1, k);
      AlternatesStep(b, Rotate(e, j - 1), lo, k);
      YieldsPlus(t, 2 * (j - 1), 2);
      RotateNext(e, j - 1);
    }
    if j < |e| {
      RotateMembers(e, j, k);
      AlternatesStep(b, Rotate(e, j), lo, k);
      YieldsPlus(t, 2 * j, 1);
    }
  }

  lemma AlternatesPeriod(b: Proc, e: seq<Proc>, lo: seq<Proc>, k: int, times: nat, r: nat)
    requires e != [] && AllPriority(e, k) && AllWorse(lo, k) && b.priority < k && r < 2 * |e|
    requires Apart(Turn(b, e + lo))
    ensures var t, n := Turn(b, e + lo), 2 * |e| * times + r;
      Yields(t, n).cur == (if r % 2 == 0 then b else e[r / 2]) && (Yields(t, n) == t <==> r == 0)
  {
    var t := Turn(b, e + lo);
    Alternates(b, e, lo, k, |e|);
    assert Rotate(e, |e|) == e;
    YieldsPeriodic(t, 2 * |e|, times, r);
    Alternates(b, e, lo, k, r / 2);
    assert t.q[r / 2] == e[r / 2];
    if r % 2 == 0 {
      assert (Rotate(e, r / 2) + lo)[0] == e[r / 2];
      assert t.q[0] == e[0];
      assert r == 0 ==> Rotate(e, 0) == e;
    }
  }

  /** Alternation on the system, on runs of any length: every second dispatch is the best one's,
      the others take turns in the rest, and the state is back every 2|e| yields only. */
  lemma Alternation(s: Sys, b: Proc, e: seq<Proc>, lo: seq<Proc>, k: int, es: seq<Event>, times: nat, r: nat)
    requires Inv(s) && Turning(s) && OnlyTurns(es)
    requires e != [] && AllPriority(e, k) && AllWorse(lo, k) && b.priority < k
    requires TurnOf(s) == Turn(b, e + lo)
    requires Idles(es) == 2 * |e| * times + r && r < 2 * |e|
    ensures Run(s, es).running == Some(if r % 2 == 0 then b else e[r / 2])
    ensures TurnOf(Run(s, es)) == TurnOf(s) <==> r == 0
  {
    hide Inv, Run, Apart, Yields, OnlyTurns, Idles, AllPriority, AllWorse;
    RunTurns(s, es);
    TurnApart(s);
    AlternatesPeriod(b, e, lo, k, times, r);
  }

  // ----- The mix after `load` at the first prompt -----

  lemma LoadGoesLast(s: Sys, name: string, e: seq<Proc>, lo: seq<Proc>)
    requires Inv(s) && s.status == Live && 0 < |name| < NAME_MAX
    requires forall p :: p in Queued(s) ==> p.name != name
    requires s.heap + PCB_SIZE + STACK_SIZE <= KernelHeap.BASE + KernelHeap.SIZE
    requires s.ready == e + lo && AllPriority(e, 1) && AllWorse(lo, 1)
    ensures var p, t := Proc(s.heap, name, UserClass, 1, Ready, Active), Load(s, name, UserClass, 1);
      && Inv(t) && t.ready == e + [p] + lo
      && t == s.(ready := t.ready, heap := t.heap, live := t.live, arrived := t.arrived)
      && t.heap == s.heap + PCB_SIZE + STACK_SIZE
  {
    hide Inv, InsertByPriority, FirstNamed, AllPriority, AllWorse;
    LoadKeeps(s, name, UserClass, 1);
    FirstNamedFound(Queued(s), name);
    InsertAmong(e, lo, Proc(s.heap, name, UserClass, 1, Ready, Active));
  }

  const PROC_NAMES := ["proc1", "proc2", "proc3", "proc4", "proc5"]

  predicate Loaded(s: Sys, boot: Sys, n: nat)
    requires n <= 5
  {
    && s == boot.(ready := s.ready, heap := s.heap, live := s.live, arrived := s.arrived)
    && s.heap == boot.heap + n * (PCB_SIZE + STACK_SIZE)
    && |s.ready| == n + 1 && s.ready[n..] == boot.ready
    && forall i :: 0 <= i < n ==>
         s.ready[i].name == PROC_NAMES[i] && s.ready[i].priority == 1 && s.ready[i].class_ == UserClass
  }

  /** Only the idle process waits, and nothing is blocked or suspended. */
  predicate JustBooted(boot: Sys) {
    && boot.status == Live && boot.heap == KernelHeap.BASE + 2152
    && boot.running.Some? && boot.running.value.priority == 0
    && |boot.ready| == 1 && boot.ready[0].name == "idle" && boot.ready[0].priority == LOWEST
    && boot.blocked == boot.suspendedReady == boot.suspendedBlocked == []
  }

  lemma LoadNext(boot: Sys, s: Sys, n: nat)
    requires n < 5 && Inv(s) && Loaded(s, boot, n) && JustBooted(boot)
    ensures var t := Load(s, PROC_NAMES[n], UserClass, 1); Inv(t) && Loaded(t, boot, n + 1)
  {
    hide Inv, Load, JustBooted, WellFormed, AllPriority, AllWorse, Queued;
    var e, lo, name := s.ready[..n], s.ready[n..], PROC_NAMES[n];
    assert s.ready == e + lo;
    LoadedShape(boot, s, n);
    NameIsNew(boot, s, n);
    LoadGoesLast(s, name, e, lo);
    var t := Load(s, name, UserClass, 1);
    assert t.ready[n + 1..] == lo;
  }

  lemma LoadedShape(boot: Sys, s: Sys, n: nat)
    requires n <= 5 && Loaded(s, boot, n) && JustBooted(boot)
    ensures AllPriority(s.ready[..n], 1) && AllWorse(s.ready[n..], 1) && s.status == Live
    ensures n < 5 ==> s.heap + PCB_SIZE + STACK_SIZE <= KernelHeap.BASE + KernelHeap.SIZE
  {
  }

  lemma NameIsNew(boot: Sys, s: Sys, n: nat)
    requires n < 5 && Loaded(s, boot, n) && JustBooted(boot)
    ensures 0 < |PROC_NAMES[n]| < NAME_MAX
    ensures forall p :: p in Queued(s) ==> p.name != PROC_NAMES[n]
  {
    ProcNamesApart();
    assert Queued(s) == s.ready;
    forall p | p in Queued(s) ensures p.name != PROC_NAMES[n] {
      var i :| 0 <= i <= n && s.ready[i] == p;
      if i == n { assert p == s.ready[n..][0]; }
    }
  }

  lemma ProcNamesApart()
    ensures forall i, j :: 0 <= i < j < 5 ==> PROC_NAMES[i] != PROC_NAMES[j]
    ensures forall i :: 0 <= i < 5 ==> |PROC_NAMES[i]| == 5 && PROC_NAMES[i] != "idle"
  {
    assert forall i :: 0 <= i < 5 ==> |PROC_NAMES[i]| == 5 && PROC_NAMES[i][4] == ['1', '2', '3', '4', '5'][i];
  }

  /** The state `load` leaves at the first prompt. */
  lemma LoadedAll(boot: Sys)
    requires boot == Boot()
    ensures Inv(LoadR3(boot)) && Loaded(LoadR3(boot), boot, 5)
  {
    BootState();
    assert JustBooted(boot);
    LoadFive(boot);
  }

  lemma LoadFive(boot: Sys)
    requires Inv(boot) && JustBooted(boot)
    ensures Inv(LoadR3(boot)) && Loaded(LoadR3(boot), boot, 5)
  {
    LoadNext(boot, boot, 0);
    var s1 := Load(boot, PROC_NAMES[0], UserClass, 1);
    LoadNext(boot, s1, 1);
    var s2 := Load(s1, PROC_NAMES[1], UserClass, 1);
    LoadNext(boot, s2, 2);
    var s3 := Load(s2, PROC_NAMES[2], UserClass, 1);
    LoadNext(boot, s3, 3);
    var s4 := Load(s3, PROC_NAMES[3], UserClass, 1);
    LoadNext(boot, s4, 4);
  }

  /** As long as nothing exits, commhand runs at every even dispatch and the five processes take
      the odd ones in order; idle never runs. */
  lemma BootMix(boot: Sys, es: seq<Event>)
    requires boot == Boot() && OnlyTurns(es)
    ensures var r := Run(LoadR3(boot), es).running;
      r.Some? && r.value.name == if Idles(es) % 2 == 0 then "commhand" else PROC_NAMES[Idles(es) / 2 % 5]
  {
    hide Inv, Boot, LoadR3, Loaded, Run, OnlyTurns, Idles;
    LoadedAll(boot);
    BootState();
    MixOf(LoadR3(boot), boot, es);
  }

  lemma TenTurns(n: nat)
    ensures n == 10 * (n / 10) + n % 10 && n % 10 % 2 == n % 2 && n % 10 / 2 == n / 2 % 5
  {
  }

  lemma MixOf(s: Sys, boot: Sys, es: seq<Event>)
    requires Inv(s) && Loaded(s, boot, 5) && JustBooted(boot) && OnlyTurns(es)
    ensures var r := Run(s, es).running;
      r.Some? && r.value.name == if Idles(es) % 2 == 0 then boot.running.value.name else PROC_NAMES[Idles(es) / 2 % 5]
  {
    hide Inv, Run;
    var e, lo := s.ready[..5], s.ready[5..];
    assert s.ready == e + lo && |e| == 5;
    assert lo == boot.ready;
    var n := Idles(es);
    var r := n % 10;
    TenTurns(n);
    assert AllPriority(e, 1) && AllWorse(lo, 1);
    Alternation(s, s.running.value, e, lo, 1, es, n / 10, r);
    assert e[r / 2] == s.ready[r / 2];
  }
}
