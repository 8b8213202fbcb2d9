/** What each command achieves, said of the queues it leaves and not of the steps it takes. */
module Outcomes {
  import opened Processes
  import opened SystemState
  import opened Invariants
  import opened Scheduling
  import opened Commands
  import opened ResumingAll
  import KernelHeap

  // ----- One block changed, and all others as they were -----

  /** The four queues, in their order, but for the block at an address. */
  function Others(s: Sys, a: int): seq<seq<Proc>> {
    [Without(s.ready, a), Without(s.blocked, a), Without(s.suspendedReady, a), Without(s.suspendedBlocked, a)]
  }

  /** The queue where a block of these flags waits. */
  function Belongs(s: Sys, p: Proc): seq<Proc> {
    match p.dispatch
    case Active => if p.exec == Blocked then s.blocked else s.ready
    case Suspended => if p.exec == Blocked then s.suspendedBlocked else s.suspendedReady
  }

  /** Block p is now p', last of its new queue or, if that is ready, behind its equals. Nothing else
      has changed. */
  ghost predicate Became(s: Sys, t: Sys, p: Proc, p': Proc) {
    && Inv(t) && t.running == s.running && t.heap == s.heap && t.status == s.status && t.live == s.live
    && p' in Belongs(t, p') && Others(t, p.addr) == Others(s, p.addr)
    && (if p'.exec == Ready && p'.dispatch == Active
        then t.ready == StableSort(Without(s.arrived, p.addr) + [p'])
        else Belongs(t, p')[|Belongs(t, p')| - 1] == p')
    && (OnlyNamed(s, p) ==> Find(t, p.name) == Some(p'))
  }

  lemma BelongsHome(s: Sys, p: Proc)
    ensures Belongs(s, p) == Queue(s, Home(p))
  {
  }

  /** All four queues, by their identifiers. */
  lemma OthersByQueue(s: Sys, t: Sys, a: int)
    requires forall k :: Without(Queue(s, k), a) == Without(Queue(t, k), a)
    ensures Others(s, a) == Others(t, a)
  {
    assert Queue(s, ReadyQ) == s.ready && Queue(t, ReadyQ) == t.ready;
    assert Queue(s, BlockedQ) == s.blocked && Queue(t, BlockedQ) == t.blocked;
    assert Queue(s, SuspendedReadyQ) == s.suspendedReady && Queue(t, SuspendedReadyQ) == t.suspendedReady;
    assert Queue(s, SuspendedBlockedQ) == s.suspendedBlocked && Queue(t, SuspendedBlockedQ) == t.suspendedBlocked;
  }

  /** A removal leaves the others. */
  lemma RemovedOthers(s: Sys, p: Proc)
    requires Inv(s) && p in Queue(s, Home(p))
    ensures forall k :: Queue(Remove(s, p), k) == Without(Queue(s, k), p.addr)
    ensures Remove(s, p).arrived == Without(s.arrived, p.addr)
  {
    hide Homed, Spaced, Without;
    forall k ensures Queue(Remove(s, p), k) == Without(Queue(s, k), p.addr) {
      RemovedQueue(s, p, k);
      if k != Home(p) {
        forall q | q in Queue(s, k) ensures q.addr != p.addr {
          if q.addr == p.addr { OneQueue(s, k, Home(p), q, p); }
        }
        WithoutAbsent(Queue(s, k), p.addr);
      }
    }
    RemovedArrived(s, p);
  }

  lemma RemovedQueue(s: Sys, p: Proc, k: QueueId)
    ensures Queue(Remove(s, p), k) == if k == Home(p) then Without(Queue(s, k), p.addr) else Queue(s, k)
  {
    hide Without;
  }

  lemma RemovedArrived(s: Sys, p: Proc)
    requires Inv(s) && p in Queue(s, Home(p))
    ensures Remove(s, p).arrived == Without(s.arrived, p.addr)
  {
    hide Homed, Spaced, Without;
    if Home(p) != ReadyQ {
      BucketsMembers(s.arrived, 0);
      forall q | q in s.arrived ensures q.addr != p.addr {
        assert q in Queue(s, ReadyQ);
        if q.addr == p.addr { OneQueue(s, ReadyQ, Home(p), q, p); }
      }
      WithoutAbsent(s.arrived, p.addr);
    }
  }

  lemma InsertedOthers(s: Sys, r: Sys, p: Proc)
    requires forall k :: Queue(r, k) == Without(Queue(s, k), p.addr)
    requires forall q :: q in Queue(r, Home(p)) || q in r.arrived ==> q.addr != p.addr
    requires forall k, q :: q in Queue(r, k) ==> q.addr != p.addr
    ensures forall k :: Without(Queue(Insert(r, p), k), p.addr) == Without(Queue(s, k), p.addr)
  {
    hide Without, InsertByPriority;
    var t := Insert(r, p);
    UndoInsert(r, p);
    forall k ensures Without(Queue(t, k), p.addr) == Queue(r, k) {
      RemovedQueue(t, p, k);
      if k != Home(p) {
        InsertedElsewhere(r, p, k);
        WithoutAbsent(Queue(r, k), p.addr);
      }
    }
  }

  lemma InsertedElsewhere(r: Sys, p: Proc, k: QueueId)
    requires k != Home(p)
    ensures Queue(Insert(r, p), k) == Queue(r, k)
  {
  }

  lemma Landed(r: Sys, p: Proc)
    requires Ordered(Insert(r, p)) && !p.exec.Running?
    ensures p in Belongs(Insert(r, p), p)
    ensures if p.exec == Ready && p.dispatch == Active then Insert(r, p).ready == StableSort(r.arrived + [p])
      else Belongs(Insert(r, p), p)[|Belongs(Insert(r, p), p)| - 1] == p
  {
    hide StableSort;
    InsertMembers(r.ready, p);
  }

  lemma MoveBecomes(s: Sys, p: Proc, p': Proc)
    requires Inv(s) && p in Queue(s, Home(p)) && p'.addr == p.addr && p'.name == p.name && WellFormed(p')
    ensures Became(s, Move(s, p, p'), p, p')
  {
    hide Partition, Homed, Spaced, Without, InsertByPriority, OnlyNamed, StableSort, Find, Home;
    var r, t := Remove(s, p), Move(s, p, p');
    MoveKeeps(s, p, p');
    MoveFrame(s, p, p');
    RemovedOthers(s, p);
    AbsentAfterRemove(s, p, p');
    OrderedIn(t);
    forall k, q | q in Queue(r, k) ensures q.addr != p.addr { RemoveMembers(s, p, k, q); }
    InsertedOthers(s, r, p');
    OthersByQueue(s, t, p.addr);
    Landed(r, p');
    BelongsHome(t, p');
    if OnlyNamed(s, p) { FoundMoved(s, p, p'); }
  }

  lemma OrderedIn(s: Sys)
    requires Inv(s)
    ensures Ordered(s)
  {
  }

  // ----- What the search says of a name -----

  lemma Known(s: Sys, name: string)
    requires Inv(s) && Find(s, name).Some?
    ensures var p := Find(s, name).value;
      p in Queue(s, Home(p)) && WellFormed(p) && p.name == name && |name| < 16 && p.addr in s.live
  {
    hide Partition, Ordered, Spaced;
    Found(s, name);
    assert Recorded(s.live, Find(s, name).value);
  }

  // ----- Flags and priorities -----

  /** A user process is suspended, whatever else is about it; a system process never is. */
  lemma SuspendOutcome(s: Sys, name: string)
    requires Inv(s) && s.status == Live
    ensures var t, result, f := Step(s, DoSuspend(name)), Suspend(s, name).1, Find(s, name);
      if f == None || name == "" then t == s && result == -1
      else if f.value.class_ == SystemClass then t == s && result == -2
      else if f.value.dispatch == Suspended then t == s && result == 1
      else Became(s, t, f.value, f.value.(dispatch := Suspended)) && result == 0
  {
    hide Inv, Find, Move, Became, Home;
    if Find(s, name).Some? {
      Known(s, name);
      var p := Find(s, name).value;
      if name != "" { MoveBecomes(s, p, p.(dispatch := Suspended)); }
    }
  }

  lemma ResumeOutcome(s: Sys, name: string)
    requires Inv(s) && s.status == Live
    ensures var t, result, f := Step(s, DoResume(name)), Resume(s, name).1, Find(s, name);
      if f == None || name == "" then t == s && result == -1
      else if f.value.dispatch == Active then t == s && result == 1
      else Became(s, t, f.value, f.value.(dispatch := Active)) && result == 0
  {
    hide Inv, Find, Move, Became, Home;
    if Find(s, name).Some? {
      Known(s, name);
      var p := Find(s, name).value;
      MoveBecomes(s, p, p.(dispatch := Active));
    }
  }

  /** Block and unblock look at no class. A name that is not found is a panic, and nothing else. */
  lemma BlockOutcome(s: Sys, name: string)
    requires Inv(s) && s.status == Live
    ensures var t, f := Step(s, DoBlock(name)), Find(s, name);
      if f == None then t == s.(status := Panicked)
      else if f.value.exec == Blocked || name == "" then t == s
      else Became(s, t, f.value, f.value.(exec := Blocked))
  {
    hide Inv, Find, Move, Became, Home;
    if Find(s, name).Some? {
      Known(s, name);
      var p := Find(s, name).value;
      MoveBecomes(s, p, p.(exec := Blocked));
    }
  }

  lemma UnblockOutcome(s: Sys, name: string)
    requires Inv(s) && s.status == Live
    ensures var t, f := Step(s, DoUnblock(name)), Find(s, name);
      if f == None then t == s.(status := Panicked)
      else if f.value.exec == Ready || name == "" then t == s
      else Became(s, t, f.value, f.value.(exec := Ready))
  {
    hide Inv, Find, Move, Became, Home;
    if Find(s, name).Some? {
      Known(s, name);
      var p := Find(s, name).value;
      MoveBecomes(s, p, p.(exec := Ready));
    }
  }

  /** A user process has the new priority, in its queue, and is found with it. */
  lemma SetPriorityOutcome(s: Sys, name: string, k: int)
    requires Inv(s) && s.status == Live
    ensures var t, f := Step(s, DoSetPriority(name, k)), Find(s, name);
      if f == None || f.value.class_ == SystemClass || k < 0 || k > 9 then t == s
      else Became(s, t, f.value, f.value.(priority := k))
  {
    hide Inv, Find, Move, Became, Home;
    if Find(s, name).Some? && 0 <= k <= 9 {
      Known(s, name);
      var p := Find(s, name).value;
      MoveBecomes(s, p, p.(priority := k));
    }
  }

  // ----- Deletion -----

  /** Block p is nowhere any more, and nothing else has changed. */
  ghost predicate IsGone(s: Sys, t: Sys, p: Proc) {
    && Inv(t) && t.running == s.running && t.heap == s.heap && t.status == s.status && t.live == s.live - {p.addr}
    && Others(t, p.addr) == Others(s, p.addr) && (forall k, q :: q in Queue(t, k) ==> q.addr != p.addr)
    && (OnlyNamed(s, p) ==> Find(t, p.name) == None)
  }

  /** A user process is deleted; a system process never is. */
  lemma DeleteOutcome(s: Sys, name: string)
    requires Inv(s) && s.status == Live
    ensures var t, f := Step(s, DoDelete(name)), Find(s, name);
      if f == None || f.value.class_ == SystemClass || name == "" then t == s
      else IsGone(s, t, f.value)
  {
    hide Inv, Find, Remove, Free, IsGone, Home;
    if Find(s, name).Some? {
      Known(s, name);
      DeleteKeeps(s, name);
      var p := Find(s, name).value;
      if p.class_ == UserClass && name != "" { FreedIsGone(s, p); }
    }
  }

  /** Every queue has no more than it had, and p is in none. */
  ghost predicate Fewer(s: Sys, t: Sys, p: Proc) {
    forall k, q :: q in Queue(t, k) ==> q in Queue(s, k) && q.addr != p.addr
  }

  lemma RemovedFewer(s: Sys, t: Sys, p: Proc)
    requires Inv(s) && p in Queue(s, Home(p)) && forall k :: Queue(t, k) == Queue(Remove(s, p), k)
    ensures Fewer(s, t, p)
  {
    hide Homed, Ordered, Spaced, Remove, Home;
    forall k, q | q in Queue(t, k) ensures q in Queue(s, k) && q.addr != p.addr {
      assert q in Queue(Remove(s, p), k);
      RemoveMembers(s, p, k, q);
    }
  }

  lemma FreedIsGone(s: Sys, p: Proc)
    requires Inv(s) && p in Queue(s, Home(p)) && Inv(Free(Remove(s, p), Some(p)))
    ensures IsGone(s, Free(Remove(s, p), Some(p)), p)
  {
    hide Homed, Ordered, Spaced, Remove, Without, Find, Home;
    var r, t := Remove(s, p), Free(Remove(s, p), Some(p));
    RemoveFrame(s, p);
    RemovedOthers(s, p);
    forall k ensures Queue(t, k) == Queue(r, k) { SameQueues(r, p, k); }
    RemovedFewer(s, t, p);
    forall k ensures Without(Queue(s, k), p.addr) == Without(Queue(t, k), p.addr) {
      WithoutAbsent(Queue(t, k), p.addr);
    }
    OthersByQueue(s, t, p.addr);
    if OnlyNamed(s, p) { NameGone(s, t, p); }
  }

  lemma SameQueues(r: Sys, p: Proc, k: QueueId)
    ensures Queue(Free(r, Some(p)), k) == Queue(r, k)
  {
  }

  lemma NameGone(s: Sys, t: Sys, p: Proc)
    requires Inv(t) && OnlyNamed(s, p) && Fewer(s, t, p)
    ensures Find(t, p.name) == None
  {
    hide Partition, Ordered, Spaced, Find;
    Found(t, p.name);
    assert forall k, q :: q in Queue(t, k) ==> q.name != p.name;
  }

  // ----- System processes are protected -----

  predicate SparesSystem(e: Event) {
    e.DoSuspend? || e.DoSetPriority? || e.DoDelete?
  }

  lemma WithoutKeeps(q: seq<Proc>, r: seq<Proc>, a: int, p: Proc)
    requires Without(q, a) == Without(r, a) && p in q && p.addr != a
    ensures p in r
  {
    hide Without;
    WithoutOnly(q, a, p);
    WithoutSubset(r, a);
  }

  lemma {:induction false} WithoutOnly(q: seq<Proc>, a: int, p: Proc)
    requires p in q && p.addr != a
    ensures p in Without(q, a)
  {
    if q[0].addr != a && q[0] != p { WithoutOnly(q[1..], a, p); }
  }

  lemma OthersKeepPlace(s: Sys, t: Sys, a: int, k: QueueId, p: Proc)
    requires Others(t, a) == Others(s, a) && p in Queue(s, k) && p.addr != a
    ensures p in Queue(t, k)
  {
    hide Without;
    var x, y := Others(s, a), Others(t, a);
    assert x[0] == y[0] && x[1] == y[1] && x[2] == y[2] && x[3] == y[3];
    WithoutKeeps(Queue(s, k), Queue(t, k), a, p);
  }

  /** Suspending, setting a priority and deleting leave every system process where and as it is,
      under whatever name they are asked. */
  lemma SystemProtected(s: Sys, e: Event, k: QueueId, p: Proc)
    requires Inv(s) && s.status == Live && SparesSystem(e) && p in Queue(s, k) && p.class_ == SystemClass
    ensures p in Queue(Step(s, e), k)
  {
    hide Step, Find, Others, OnlyNamed, StableSort;
    var name := match e case DoSuspend(n) => n case DoSetPriority(n, _) => n case DoDelete(n) => n;
    match e {
      case DoSuspend(n) => SuspendOutcome(s, n);
      case DoSetPriority(n, j) => SetPriorityOutcome(s, n, j);
      case DoDelete(n) => DeleteOutcome(s, n);
    }
    if Step(s, e) != s {
      var f := Find(s, name).value;
      Known(s, name);
      if f.addr == p.addr { OneQueue(s, k, Home(f), p, f); }
      OthersKeepPlace(s, Step(s, e), f.addr, k, p);
    }
  }

  // ----- Loading and the heap -----

  /** The next block and its stack fit. */
  predicate Room(s: Sys, n: nat) {
    s.heap + 1076 * n <= 0xD000000 + 0x10000
  }

  predicate NameInUse(s: Sys, name: string) {
    Find(s, name) != None
  }

  /** A name of 16 characters or more, a priority out of range or a name in use is refused; a full
      heap is a panic; else the block waits behind its equals, under the next address. */
  lemma LoadOutcome(s: Sys, name: string, class_: ProcessClass, k: int)
    requires Inv(s) && s.status == Live
    ensures var t, p := Step(s, DoLoad(name, class_, k)), Proc(s.heap, name, class_, k, Ready, Active);
      if |name| >= 16 || k < 0 || k > 9 || NameInUse(s, name) then t == s
      else if !Room(s, 1) then t == s.(status := Panicked)
      else
        && Inv(t) && t.ready == StableSort(s.arrived + [p])
        && t == s.(ready := t.ready, arrived := s.arrived + [p], heap := s.heap + 1076, live := s.live[s.heap := name])
  {
    hide Inv, Find, InsertByPriority, StableSort;
    LoadKeeps(s, name, class_, k);
    if |name| < 16 && 0 <= k <= 9 && !NameInUse(s, name) && Room(s, 1) {
      LoadWorks(s, name, class_, k);
      OrderedIn(Load(s, name, class_, k));
    }
  }

  /** Just the five names are known to `load`, all for user processes of priority 1. */
  lemma LoadProcessOutcome(s: Sys, name: string)
    requires s.status == Live
    ensures Step(s, DoLoadProcess(name)) ==
      if name in ["proc1", "proc2", "proc3", "proc4", "proc5"] then Step(s, DoLoad(name, UserClass, 1)) else s
  {
    hide Load;
  }

  lemma AllocOutcome(s: Sys, size: nat)
    requires s.status == Live
    ensures Step(s, DoAlloc(size)) ==
      if s.heap + size <= 0xD000000 + 0x10000 then s.(heap := s.heap + size) else s.(status := Panicked)
  {
  }

  /** After a panic or power-off nothing happens any more. */
  lemma {:induction false} StoppedStays(s: Sys, es: seq<Event>)
    requires s.status != Live
    ensures Run(s, es) == s
    decreases |es|
  {
    if es != [] { StoppedStays(s, es[1..]); }
  }

  /** What the walk of `resume all` achieves, as a step of the system. */
  lemma ResumeAllOutcome(s: Sys)
    requires Inv(s) && UniqueNames(s) && s.status == Live
    ensures var t := Step(s, DoResumeAll);
      && t.suspendedReady == [] && t.blocked == s.blocked && t.suspendedBlocked == s.suspendedBlocked
      && t.ready == StableSort(s.ready + Activated(s.suspendedReady))
      && t.running == s.running && t.live == s.live && t.heap == s.heap && t.status == Live
  {
    hide Inv, UniqueNames, ResumeEach, StableSort, Activated;
    ResumeAllSorts(s);
    ResumeEachFrame(s, s.suspendedReady);
  }

  // ----- `load` and `load suspended` -----

  /** The five blocks, at consecutive places of the heap. */
  function Five(h: int, d: DispatchState): (r: seq<Proc>)
    ensures |r| == 5
  {
    [Proc(h, "proc1", UserClass, 1, Ready, d), Proc(h + 1076, "proc2", UserClass, 1, Ready, d),
     Proc(h + 2152, "proc3", UserClass, 1, Ready, d), Proc(h + 3228, "proc4", UserClass, 1, Ready, d),
     Proc(h + 4304, "proc5", UserClass, 1, Ready, d)]
  }

  /** The first of them among the live blocks. */
  function WithFive(live: map<int, string>, h: int, n: nat): map<int, string>
    requires n <= 5
  {
    if n == 0 then live else WithFive(live, h, n - 1)[Five(h, Active)[n - 1].addr := Five(h, Active)[n - 1].name]
  }

  ghost predicate NamesFree(s: Sys) {
    forall p :: p in Queued(s) ==> p.name !in ["proc1", "proc2", "proc3", "proc4", "proc5"]
  }

  /** The ready queue, split where processes of priority 1 join it. */
  ghost predicate Split(s: Sys, lo: seq<Proc>, hi: seq<Proc>) {
    s.ready == lo + hi && (forall p :: p in lo ==> p.priority <= 1) && (forall p :: p in hi ==> p.priority > 1)
  }

  /** The first j are loaded, and the first m of them suspended. */
  ghost predicate Stage(s: Sys, t: Sys, lo: seq<Proc>, hi: seq<Proc>, j: nat, m: nat)
    requires m <= j <= 5
  {
    && Inv(t)
    && t == s.(ready := lo + Five(s.heap, Active)[m..j] + hi, arrived := s.arrived + Five(s.heap, Active)[m..j],
               suspendedReady := s.suspendedReady + Five(s.heap, Suspended)[..m],
               heap := s.heap + 1076 * j, live := WithFive(s.live, s.heap, j))
  }

  /** What the system must be for the first n of the five to load. */
  ghost predicate CanLoad(s: Sys, n: nat) {
    Inv(s) && s.status == Live && Room(s, n) && NamesFree(s)
  }

  lemma FiveDiffer(h: int, d: DispatchState)
    ensures forall i :: 0 <= i < 5 ==> Five(h, d)[i].name == PROC_NAMES[i] && Five(h, d)[i].addr == h + 1076 * i
    ensures forall i, j :: 0 <= i < j < 5 ==> Five(h, d)[i].name != Five(h, d)[j].name
    ensures forall i :: 0 <= i < 5 ==> PROC_NAMES[i] in ["proc1", "proc2", "proc3", "proc4", "proc5"]
  {
    ProcNamesApart();
  }

  lemma SplitThere(s: Sys) returns (lo: seq<Proc>, hi: seq<Proc>)
    requires Inv(s)
    ensures Split(s, lo, hi)
  {
    hide Partition, Homed, Ordered, Spaced, Sorted;
    ReadySorted(s);
    var n := SplitAfter(s.ready);
    lo, hi := s.ready[..n], s.ready[n..];
    assert s.ready == lo + hi;
  }

  lemma SplitAfter(q: seq<Proc>) returns (n: nat)
    requires Sorted(q)
    ensures n <= |q|
    ensures forall p :: p in q[..n] ==> p.priority <= 1
    ensures forall p :: p in q[n..] ==> p.priority > 1
  {
    n := 0;
    while n < |q| && q[n].priority <= 1
      invariant n <= |q| && forall i :: 0 <= i < n ==> q[i].priority <= 1
    {
      n := n + 1;
    }
  }

  lemma NoneFound(s: Sys, t: Sys, lo: seq<Proc>, hi: seq<Proc>, j: nat)
    requires NamesFree(s) && Split(s, lo, hi) && j < 5 && Stage(s, t, lo, hi, j, 0)
    ensures Find(t, PROC_NAMES[j]) == None
  {
    hide Inv;
    var five := Five(s.heap, Active);
    FiveDiffer(s.heap, Active);
    FirstNamedFound(Queued(t), PROC_NAMES[j]);
    forall p | p in Queued(t) ensures p.name != PROC_NAMES[j] {
      if p in five[..j] {
      } else {
        assert p in lo + hi || p in s.blocked || p in s.suspendedReady || p in s.suspendedBlocked;
        assert p in Queued(s);
      }
    }
  }

  lemma JoinsReady(lo: seq<Proc>, x: seq<Proc>, p: Proc, hi: seq<Proc>)
    requires forall r :: r in lo || r in x || r == p ==> r.priority <= 1
    requires p.priority == 1 && forall r :: r in hi ==> r.priority > 1
    ensures InsertByPriority(lo + x + hi, p) == lo + (x + [p]) + hi
  {
    hide InsertByPriority;
    InsertSkips(lo + x, hi, p);
    InsertFirst(hi, p);
    assert (lo + x) + ([p] + hi) == lo + (x + [p]) + hi;
  }

  lemma SliceGrows<T>(q: seq<T>, m: nat, j: nat)
    requires m <= j < |q|
    ensures q[m..j + 1] == q[m..j] + [q[j]]
  {
  }

  lemma StageShows(s: Sys, t: Sys, lo: seq<Proc>, hi: seq<Proc>, j: nat)
    requires CanLoad(s, j + 1) && j < 5 && Stage(s, t, lo, hi, j, 0)
    ensures Inv(t) && t.status == Live && t.heap == s.heap + 1076 * j && t.ready == lo + Five(s.heap, Active)[0..j] + hi
    ensures t.heap + 1076 <= KernelHeap.BASE + KernelHeap.SIZE
  {
    hide Inv, NamesFree, Five, WithFive;
  }

  lemma StageLoaded(s: Sys, t: Sys, u: Sys, lo: seq<Proc>, hi: seq<Proc>, j: nat)
    requires j < 5 && Stage(s, t, lo, hi, j, 0) && Inv(u)
    requires var five := Five(s.heap, Active);
      && t.heap == five[j].addr
      && u == t.(ready := lo + (five[0..j] + [five[j]]) + hi, arrived := t.arrived + [five[j]],
                 heap := t.heap + 1076, live := t.live[t.heap := five[j].name])
    ensures Stage(s, u, lo, hi, j + 1, 0)
  {
    hide Inv, Five;
    var five := Five(s.heap, Active);
    SliceGrows(five, 0, j);
    assert s.arrived + five[0..j] + [five[j]] == s.arrived + (five[0..j] + [five[j]]);
  }

  lemma LoadStage(s: Sys, t: Sys, lo: seq<Proc>, hi: seq<Proc>, j: nat)
    requires CanLoad(s, j + 1) && Split(s, lo, hi) && j < 5 && Stage(s, t, lo, hi, j, 0)
    ensures Stage(s, Load(t, PROC_NAMES[j], UserClass, 1), lo, hi, j + 1, 0)
  {
    hide Inv, Find, Load, InsertByPriority, NamesFree, Stage, WithFive, Room;
    var five := Five(s.heap, Active);
    FiveDiffer(s.heap, Active);
    FiveAre(s.heap, j);
    ProcNamesApart();
    StageShows(s, t, lo, hi, j);
    NoneFound(s, t, lo, hi, j);
    LoadKeeps(t, PROC_NAMES[j], UserClass, 1);
    LoadWorks(t, PROC_NAMES[j], UserClass, 1);
    JoinsReady(lo, five[0..j], five[j], hi);
    StageLoaded(s, t, Load(t, PROC_NAMES[j], UserClass, 1), lo, hi, j);
  }

  lemma FiveAre(h: int, j: nat)
    requires j < 5
    ensures Five(h, Active)[j] == Proc(h + 1076 * j, PROC_NAMES[j], UserClass, 1, Ready, Active)
    ensures forall p :: p in Five(h, Active)[0..j] ==> p.priority == 1
  {
  }

  lemma WithoutMiddle(x: seq<Proc>, p: Proc, y: seq<Proc>)
    requires forall r :: r in x ==> r.addr != p.addr
    ensures Without(x + [p] + y, p.addr) == x + y
  {
    WithoutConcat(x + [p], y, p.addr);
    assert p in x + [p];
    WithoutEnd(x, p);
  }

  lemma OldBelow(s: Sys)
    requires Inv(s)
    ensures forall p :: p in s.ready || p in s.arrived ==> p.addr < s.heap
  {
    hide Partition;
    BucketsMembers(s.arrived, 0);
  }

  lemma FirstHere(x: seq<Proc>, p: Proc, y: seq<Proc>)
    requires forall r :: r in x ==> r.name != p.name
    ensures FirstNamed(x + ([p] + y), p.name) == Some(p)
  {
    FirstNamedConcat(x, [p] + y, p.name);
    FirstNamedFound(x, p.name);
  }

  lemma FindsNext(s: Sys, t: Sys, lo: seq<Proc>, hi: seq<Proc>, m: nat)
    requires NamesFree(s) && Split(s, lo, hi) && m < 5 && Stage(s, t, lo, hi, 5, m)
    ensures Find(t, PROC_NAMES[m]) == Some(Five(s.heap, Active)[m])
  {
    hide Inv, FirstNamed;
    var five := Five(s.heap, Active);
    var rest := five[m + 1..5] + hi + t.blocked + t.suspendedReady + t.suspendedBlocked;
    FiveDiffer(s.heap, Active);
    assert five[m..5] == [five[m]] + five[m + 1..5];
    assert Queued(t) == lo + ([five[m]] + rest);
    forall r | r in lo ensures r.name != five[m].name { assert r in Queued(s); }
    FirstHere(lo, five[m], rest);
  }

  /** A suspension takes the block out of ready, and of the history, and puts it last. */
  lemma SuspendedFirst(t: Sys, x: seq<Proc>, p: Proc, y: seq<Proc>, a: seq<Proc>, b: seq<Proc>)
    requires Find(t, p.name) == Some(p) && p.name != "" && p.class_ == UserClass && Home(p) == ReadyQ
    requires t.ready == x + [p] + y && t.arrived == a + [p] + b
    requires forall r :: r in x || r in a ==> r.addr != p.addr
    ensures Suspend(t, p.name).0 == t.(ready := x + y, arrived := a + b,
                                       suspendedReady := t.suspendedReady + [p.(dispatch := Suspended)])
  {
    hide Find, Without;
    WithoutMiddle(x, p, y);
    WithoutMiddle(a, p, b);
  }

  lemma StageReady(s: Sys, t: Sys, lo: seq<Proc>, hi: seq<Proc>, m: nat)
    requires m < 5 && Stage(s, t, lo, hi, 5, m)
    ensures var p, rest := Five(s.heap, Active)[m], Five(s.heap, Active)[m + 1..5];
      Inv(t) && t.ready == lo + [p] + (rest + hi) && t.arrived == s.arrived + [p] + rest
  {
    hide Inv, Five, WithFive;
    var five := Five(s.heap, Active);
    assert five[m..5] == [five[m]] + five[m + 1..5];
  }

  lemma StageSuspended(s: Sys, t: Sys, u: Sys, lo: seq<Proc>, hi: seq<Proc>, m: nat)
    requires m < 5 && Stage(s, t, lo, hi, 5, m) && Inv(u)
    requires var rest := Five(s.heap, Active)[m + 1..5];
      u == t.(ready := lo + (rest + hi), arrived := s.arrived + rest,
              suspendedReady := t.suspendedReady + [Five(s.heap, Suspended)[m]])
    ensures Stage(s, u, lo, hi, 5, m + 1)
  {
    hide Inv, Five, WithFive;
    var five, sus := Five(s.heap, Active), Five(s.heap, Suspended);
    assert lo + (five[m + 1..5] + hi) == lo + five[m + 1..5] + hi;
    assert sus[..m + 1] == sus[..m] + [sus[m]];
    assert s.suspendedReady + sus[..m] + [sus[m]] == s.suspendedReady + sus[..m + 1];
  }

  lemma SuspendStage(s: Sys, t: Sys, lo: seq<Proc>, hi: seq<Proc>, m: nat)
    requires CanLoad(s, 5) && Split(s, lo, hi) && m < 5 && Stage(s, t, lo, hi, 5, m)
    ensures Stage(s, Suspend(t, PROC_NAMES[m]).0, lo, hi, 5, m + 1)
  {
    hide Inv, Find, Suspend, NamesFree, Stage, Room;
    FiveDiffer(s.heap, Active);
    FindsNext(s, t, lo, hi, m);
    StageReady(s, t, lo, hi, m);
    SuspendKeeps(t, PROC_NAMES[m]);
    OldBelow(s);
    assert forall r :: r in lo ==> r in s.ready;
    var p, rest := Five(s.heap, Active)[m], Five(s.heap, Active)[m + 1..5];
    SuspendedFirst(t, lo, p, rest + hi, s.arrived, rest);
    StageSuspended(s, t, Suspend(t, PROC_NAMES[m]).0, lo, hi, m);
  }

  lemma StageNone(s: Sys, lo: seq<Proc>, hi: seq<Proc>)
    requires Inv(s) && Split(s, lo, hi)
    ensures Stage(s, s, lo, hi, 0, 0)
  {
    hide Inv;
    assert lo + [] + hi == lo + hi && s.arrived + [] == s.arrived && s.suspendedReady + [] == s.suspendedReady;
  }

  /** The loads of `load`, one after the other. */
  function LoadFirst(s: Sys, j: nat): Sys
    requires j <= 5
  {
    if j == 0 then s else Load(LoadFirst(s, j - 1), PROC_NAMES[j - 1], UserClass, 1)
  }

  lemma AllLoaded(s: Sys)
    ensures LoadR3(s) == LoadFirst(s, 5)
  {
    hide Load;
    assert LoadFirst(s, 0) == s;
    assert LoadFirst(s, 1) == Load(LoadFirst(s, 0), "proc1", UserClass, 1);
    assert LoadFirst(s, 2) == Load(LoadFirst(s, 1), "proc2", UserClass, 1);
    assert LoadFirst(s, 3) == Load(LoadFirst(s, 2), "proc3", UserClass, 1);
    assert LoadFirst(s, 4) == Load(LoadFirst(s, 3), "proc4", UserClass, 1);
  }

  lemma {:induction false} LoadStages(s: Sys, lo: seq<Proc>, hi: seq<Proc>, j: nat)
    requires j <= 5 && CanLoad(s, j) && Split(s, lo, hi)
    ensures Stage(s, LoadFirst(s, j), lo, hi, j, 0)
  {
    hide Inv, NamesFree, Split, Load, Stage;
    if j == 0 {
      StageNone(s, lo, hi);
    } else {
      LoadStages(s, lo, hi, j - 1);
      LoadStage(s, LoadFirst(s, j - 1), lo, hi, j - 1);
    }
  }

  /** The load that finds no room panics, and those after it do nothing. */
  lemma {:induction false} LoadsPanic(s: Sys, lo: seq<Proc>, hi: seq<Proc>, n: nat, j: nat)
    requires n < j <= 5 && CanLoad(s, n) && Split(s, lo, hi) && !Room(s, n + 1)
    ensures LoadFirst(s, j) == LoadFirst(s, n).(status := Panicked)
  {
    hide Inv, NamesFree, Split, Load, Stage, Find;
    if j == n + 1 {
      var t := LoadFirst(s, n);
      LoadStages(s, lo, hi, n);
      StageStands(s, t, lo, hi, n);
      NoneFound(s, t, lo, hi, n);
      ProcNamesApart();
      LoadOutcome(t, PROC_NAMES[n], UserClass, 1);
      LoadIsStep(t, PROC_NAMES[n]);
    } else {
      LoadsPanic(s, lo, hi, n, j - 1);
      LoadStopped(LoadFirst(s, j - 1), PROC_NAMES[j - 1]);
    }
  }

  lemma StageStands(s: Sys, t: Sys, lo: seq<Proc>, hi: seq<Proc>, n: nat)
    requires n <= 5 && Stage(s, t, lo, hi, n, 0)
    ensures Inv(t) && t.status == s.status && t.heap == s.heap + 1076 * n
  {
    hide Inv, Five, WithFive;
  }

  lemma LoadIsStep(s: Sys, name: string)
    requires s.status == Live
    ensures Step(s, DoLoad(name, UserClass, 1)) == Load(s, name, UserClass, 1)
  {
    hide Load;
  }

  lemma LoadStopped(s: Sys, name: string)
    requires s.status != Live
    ensures Load(s, name, UserClass, 1) == s
  {
  }

  /** What is there when the first n are loaded. */
  lemma StageReached(s: Sys, lo: seq<Proc>, hi: seq<Proc>, n: nat)
    requires n <= 5 && CanLoad(s, n) && Split(s, lo, hi)
    ensures var t, five := LoadFirst(s, n), Five(s.heap, Active)[..n];
      && Inv(t) && t.ready == StableSort(s.arrived + five)
      && t == s.(ready := t.ready, arrived := s.arrived + five, heap := s.heap + 1076 * n,
                 live := WithFive(s.live, s.heap, n))
  {
    hide Load, Partition, Homed, Spaced, StableSort, NamesFree, Split, WithFive, Five, LoadFirst;
    LoadStages(s, lo, hi, n);
    assert Five(s.heap, Active)[0..n] == Five(s.heap, Active)[..n];
    assert s.suspendedReady + [] == s.suspendedReady;
  }

  /** From any system with room for the five and none of their names in a queue: `load` adds them to
      the ready queue behind all of priority 1, in order, and changes nothing else. */
  lemma LoadR3Outcome(s: Sys)
    requires CanLoad(s, 5)
    ensures var t, five := Step(s, DoLoadR3), Five(s.heap, Active);
      && Inv(t) && t.ready == StableSort(s.arrived + five)
      && t == s.(ready := t.ready, arrived := s.arrived + five, heap := s.heap + 5380,
                 live := WithFive(s.live, s.heap, 5))
  {
    hide LoadR3, LoadFirst, Inv, StableSort, NamesFree, Split, WithFive, Five;
    var lo, hi := SplitThere(s);
    AllLoaded(s);
    StageReached(s, lo, hi, 5);
    assert Five(s.heap, Active)[..5] == Five(s.heap, Active);
  }

  /** With room for only n of them, those n are loaded and then the machine panics, before any is
      suspended. */
  lemma LoadR3NoRoom(s: Sys, n: nat)
    requires n < 5 && CanLoad(s, n) && !Room(s, n + 1)
    ensures var t, five := Step(s, DoLoadR3), Five(s.heap, Active)[..n];
      && t.ready == StableSort(s.arrived + five)
      && t == s.(ready := t.ready, arrived := s.arrived + five, heap := s.heap + 1076 * n,
                 live := WithFive(s.live, s.heap, n), status := Panicked)
      && Step(s, DoLoadR3Suspended) == t
  {
    hide LoadR3, LoadFirst, Inv, StableSort, NamesFree, Split, WithFive, Five, Suspend;
    var lo, hi := SplitThere(s);
    AllLoaded(s);
    StageReached(s, lo, hi, n);
    LoadsPanic(s, lo, hi, n, 5);
  }

  /** And `load suspended` adds them to the suspended-ready queue, all five, in order, and changes
      nothing else: the ready queue is the old one. */
  lemma LoadR3SuspendedOutcome(s: Sys)
    requires CanLoad(s, 5)
    ensures var t := Step(s, DoLoadR3Suspended);
      && Inv(t) && t == s.(suspendedReady := s.suspendedReady + Five(s.heap, Suspended), heap := s.heap + 5380,
                           live := WithFive(s.live, s.heap, 5))
  {
    hide LoadR3, LoadFirst, Inv, Suspend, NamesFree, Split, WithFive;
    var lo, hi := SplitThere(s);
    AllLoaded(s);
    LoadStages(s, lo, hi, 5);
    var t := LoadR3(s);
    SuspendStage(s, t, lo, hi, 0);
    var t1 := Suspend(t, PROC_NAMES[0]).0;
    SuspendStage(s, t1, lo, hi, 1);
    var t2 := Suspend(t1, PROC_NAMES[1]).0;
    SuspendStage(s, t2, lo, hi, 2);
    var t3 := Suspend(t2, PROC_NAMES[2]).0;
    SuspendStage(s, t3, lo, hi, 3);
    var t4 := Suspend(t3, PROC_NAMES[3]).0;
    SuspendStage(s, t4, lo, hi, 4);
    SplitBack(s, lo, hi);
  }

  lemma SplitBack(s: Sys, lo: seq<Proc>, hi: seq<Proc>)
    requires Split(s, lo, hi)
    ensures lo + Five(s.heap, Active)[5..5] + hi == s.ready && s.arrived + Five(s.heap, Active)[5..5] == s.arrived
    ensures Five(s.heap, Suspended)[..5] == Five(s.heap, Suspended)
  {
  }

  /** At the first prompt, then, only idle is ready and the five are suspended. */
  lemma LoadSuspendedFromBoot(boot: Sys)
    requires boot == Boot()
    ensures CanLoad(boot, 5)
    ensures var t := Step(boot, DoLoadR3Suspended);
      && t.ready == boot.ready && t.blocked == t.suspendedBlocked == []
      && t.suspendedReady == Five(0xD000000 + 2152, Suspended)
  {
    hide Inv, Boot, BeforeFirstTrap, Step;
    BootState();
    assert Queued(boot) == boot.ready;
    assert |"idle"| == 4;
    LoadR3SuspendedOutcome(boot);
  }
}
