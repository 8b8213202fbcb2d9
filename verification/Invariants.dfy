/** What every system call and command keeps, and hence what holds on every run. */
module Invariants {
  import opened Processes
  import opened SystemState
  import KernelHeap

  /** In how many places a block is: queue positions, or running. */
  function Places(s: Sys, a: int): nat {
    Occurs(s.ready, a) + Occurs(s.blocked, a) + Occurs(s.suspendedReady, a) + Occurs(s.suspendedBlocked, a)
    + if s.running.Some? && s.running.value.addr == a then 1 else 0
  }

  /** Every live block is in exactly one queue or is the running one, except those in hand,
      which a command has taken out and not yet put back. */
  ghost predicate Partition(s: Sys, hand: set<int>) {
    forall a :: Places(s, a) == if a in s.live && a !in hand then 1 else 0
  }

  /** Within what `pcb_setup` allows, and still the block its address was set up as. */
  predicate Recorded(live: map<int, string>, p: Proc) {
    WellFormed(p) && p.addr in live && live[p.addr] == p.name
  }

  ghost predicate AllAt(live: map<int, string>, q: seq<Proc>, k: QueueId) {
    forall p :: p in q ==> Home(p) == k && Recorded(live, p)
  }

  /** Each queued block is in the queue its flags name; the running one would go to ready. */
  ghost predicate Homed(s: Sys) {
    && AllAt(s.live, s.ready, ReadyQ)
    && AllAt(s.live, s.blocked, BlockedQ)
    && AllAt(s.live, s.suspendedReady, SuspendedReadyQ)
    && AllAt(s.live, s.suspendedBlocked, SuspendedBlockedQ)
    && (s.running.Some? ==> Home(s.running.value) == ReadyQ && Recorded(s.live, s.running.value))
  }

  /** The ready queue is the stable sort by priority of its members by latest insertion. */
  ghost predicate Ordered(s: Sys) {
    && s.ready == StableSort(s.arrived)
    && forall p :: p in s.arrived ==> 0 <= p.priority <= LOWEST
  }

  /** No two live blocks, stacks included, overlap, and all lie in the used part of the heap. */
  ghost predicate Spaced(s: Sys) {
    && KernelHeap.BASE <= s.heap <= KernelHeap.BASE + KernelHeap.SIZE
    && (forall a :: a in s.live ==> KernelHeap.BASE <= a && a + PCB_SIZE + STACK_SIZE <= s.heap)
    && (forall a, b :: a in s.live && b in s.live && a < b ==> a + PCB_SIZE + STACK_SIZE <= b)
  }

  ghost predicate Holding(s: Sys, hand: set<int>) {
    Partition(s, hand) && Homed(s) && Ordered(s) && Spaced(s)
  }

  ghost predicate Inv(s: Sys) {
    Holding(s, {})
  }

  // ----- Consequences -----

  lemma QueueDistinct(s: Sys, hand: set<int>, k: QueueId)
    requires Partition(s, hand)
    ensures Distinct(Queue(s, k))
  {
    forall a ensures Occurs(Queue(s, k), a) <= 1 {
      assert Places(s, a) <= 1;
    }
    OccursDistinct(Queue(s, k));
  }

  lemma ArrivedDistinct(s: Sys, hand: set<int>)
    requires Partition(s, hand) && Ordered(s)
    ensures Distinct(s.arrived)
  {
    forall a ensures Occurs(s.arrived, a) <= 1 {
      BucketsOccurs(s.arrived, a);
      assert Places(s, a) <= 1;
    }
    OccursDistinct(s.arrived);
  }

  lemma MembersOfQueue(s: Sys, k: QueueId, p: Proc)
    requires p in Queue(s, k)
    ensures Occurs(Queue(s, k), p.addr) > 0
  {
    OccursMember(Queue(s, k), p.addr);
  }

  lemma InSomeQueue(s: Sys, a: int)
    ensures (exists k, p :: p in Queue(s, k) && p.addr == a) <==>
      Occurs(s.ready, a) + Occurs(s.blocked, a) + Occurs(s.suspendedReady, a) + Occurs(s.suspendedBlocked, a) > 0
  {
    forall k ensures Occurs(Queue(s, k), a) > 0 <==> exists p :: p in Queue(s, k) && p.addr == a {
      OccursMember(Queue(s, k), a);
    }
    assert Queue(s, ReadyQ) == s.ready && Queue(s, BlockedQ) == s.blocked;
    assert Queue(s, SuspendedReadyQ) == s.suspendedReady && Queue(s, SuspendedBlockedQ) == s.suspendedBlocked;
  }

  lemma OneQueue(s: Sys, j: QueueId, k: QueueId, p: Proc, q: Proc)
    requires Partition(s, {})
    requires p in Queue(s, j) && q in Queue(s, k) && p.addr == q.addr
    ensures j == k && p == q
  {
    MembersOfQueue(s, j, p);
    MembersOfQueue(s, k, q);
    assert Places(s, p.addr) <= 1;
    QueueDistinct(s, {}, k);
    var x :| 0 <= x < |Queue(s, k)| && Queue(s, k)[x] == q;
    var y :| 0 <= y < |Queue(s, j)| && Queue(s, j)[y] == p;
  }

  lemma RunningElsewhere(s: Sys, k: QueueId, p: Proc)
    requires Partition(s, {}) && s.running.Some? && p in Queue(s, k)
    ensures p.addr != s.running.value.addr
  {
    MembersOfQueue(s, k, p);
    assert Places(s, p.addr) <= 1;
  }

  /** The disjoint union spelt out: a live address is in one queue only, once, or is running. */
  lemma OnePlace(s: Sys, a: int)
    requires Inv(s)
    ensures a in s.live <==>
      (exists k, p :: p in Queue(s, k) && p.addr == a) || (s.running.Some? && s.running.value.addr == a)
    ensures forall j, k, p, q ::
      p in Queue(s, j) && q in Queue(s, k) && p.addr == a == q.addr ==> j == k && p == q
    ensures s.running.Some? ==> forall k, p :: p in Queue(s, k) ==> p.addr != s.running.value.addr
  {
    assert Places(s, a) == if a in s.live then 1 else 0;
    InSomeQueue(s, a);
    forall j, k, p, q | p in Queue(s, j) && q in Queue(s, k) && p.addr == a == q.addr
      ensures j == k && p == q
    {
      OneQueue(s, j, k, p, q);
    }
    forall k, p | s.running.Some? && p in Queue(s, k) ensures p.addr != s.running.value.addr {
      RunningElsewhere(s, k, p);
    }
  }

  // ----- The primitives keep the invariant -----

  lemma InsertMembers(q: seq<Proc>, p: Proc)
    ensures forall r :: r in InsertByPriority(q, p) <==> r in q || r == p
  {
    var i := InsertPosition(q, p);
    assert q == q[..i] + q[i..];
  }

  lemma {:induction false} WithoutSubset(q: seq<Proc>, a: int)
    ensures forall p :: p in Without(q, a) ==> p in q
  {
    if q != [] {
      WithoutSubset(q[1..], a);
      assert q == [q[0]] + q[1..];
    }
  }

  lemma RemoveKeepsPartition(s: Sys, hand: set<int>, p: Proc)
    requires Partition(s, hand) && p in Queue(s, Home(p))
    ensures Partition(Remove(s, p), hand + {p.addr})
  {
    MembersOfQueue(s, Home(p), p);
    var r := Remove(s, p);
    forall a ensures Places(r, a) == if a in r.live && a !in hand + {p.addr} then 1 else 0 {
      assert Places(s, a) == if a in s.live && a !in hand then 1 else 0;
      match Home(p) {
        case ReadyQ => OccursWithout(s.ready, p.addr, a);
        case BlockedQ => OccursWithout(s.blocked, p.addr, a);
        case SuspendedReadyQ => OccursWithout(s.suspendedReady, p.addr, a);
        case SuspendedBlockedQ => OccursWithout(s.suspendedBlocked, p.addr, a);
      }
    }
  }

  lemma RemoveKeepsHomed(s: Sys, p: Proc)
    requires Homed(s)
    ensures Homed(Remove(s, p))
  {
    match Home(p) {
      case ReadyQ => WithoutSubset(s.ready, p.addr);
      case BlockedQ => WithoutSubset(s.blocked, p.addr);
      case SuspendedReadyQ => WithoutSubset(s.suspendedReady, p.addr);
      case SuspendedBlockedQ => WithoutSubset(s.suspendedBlocked, p.addr);
    }
  }

  lemma RemoveKeepsOrdered(s: Sys, hand: set<int>, p: Proc)
    requires Partition(s, hand) && Ordered(s)
    ensures Ordered(Remove(s, p))
  {
    if Home(p) == ReadyQ {
      ArrivedDistinct(s, hand);
      BucketsWithout(s.arrived, p.addr, 0);
      WithoutSubset(s.arrived, p.addr);
    }
  }

  lemma RemoveKeeps(s: Sys, hand: set<int>, p: Proc)
    requires Holding(s, hand) && p in Queue(s, Home(p))
    ensures Holding(Remove(s, p), hand + {p.addr})
  {
    RemoveKeepsPartition(s, hand, p);
    RemoveKeepsHomed(s, p);
    RemoveKeepsOrdered(s, hand, p);
    assert Spaced(Remove(s, p)) by { RemoveFrame(s, p); }
  }

  lemma RemoveFrame(s: Sys, p: Proc)
    ensures var r := Remove(s, p);
      r.heap == s.heap && r.live == s.live && r.running == s.running && r.status == s.status
  {
  }

  lemma InsertKeepsPartition(s: Sys, hand: set<int>, p: Proc)
    requires Partition(s, hand) && p.addr in hand && p.addr in s.live
    ensures Partition(Insert(s, p), hand - {p.addr})
  {
    var r := Insert(s, p);
    forall a ensures Places(r, a) == if a in r.live && a !in hand - {p.addr} then 1 else 0 {
      assert Places(s, a) == if a in s.live && a !in hand then 1 else 0;
      match Home(p) {
        case ReadyQ => OccursInsert(s.ready, p, a);
        case BlockedQ => OccursAppend(s.blocked, p, a);
        case SuspendedReadyQ => OccursAppend(s.suspendedReady, p, a);
        case SuspendedBlockedQ => OccursAppend(s.suspendedBlocked, p, a);
      }
    }
  }

  lemma InsertKeepsHomed(s: Sys, p: Proc)
    requires Homed(s) && Recorded(s.live, p)
    ensures Homed(Insert(s, p))
  {
    match Home(p) {
      case ReadyQ => InsertMembers(s.ready, p);
      case BlockedQ =>
      case SuspendedReadyQ =>
      case SuspendedBlockedQ =>
    }
  }

  lemma InsertKeepsOrdered(s: Sys, p: Proc)
    requires Ordered(s) && WellFormed(p)
    ensures Ordered(Insert(s, p))
  {
    if Home(p) == ReadyQ {
      BucketsAppend(s.arrived, p, 0);
    }
  }

  lemma InsertFrame(s: Sys, p: Proc)
    ensures var r := Insert(s, p);
      r.heap == s.heap && r.live == s.live && r.running == s.running && r.status == s.status
  {
  }

  lemma InsertKeeps(s: Sys, hand: set<int>, p: Proc)
    requires Holding(s, hand) && p.addr in hand && Recorded(s.live, p)
    ensures Holding(Insert(s, p), hand - {p.addr})
  {
    InsertKeepsPartition(s, hand, p);
    InsertKeepsHomed(s, p);
    InsertKeepsOrdered(s, p);
    assert Spaced(Insert(s, p)) by { InsertFrame(s, p); }
  }

  lemma MoveKeeps(s: Sys, p: Proc, p': Proc)
    requires Inv(s) && p in Queue(s, Home(p))
    requires p'.addr == p.addr && p'.name == p.name && WellFormed(p')
    ensures Inv(Move(s, p, p'))
  {
    RemoveKeeps(s, {}, p);
    assert {} + {p.addr} == {p.addr};
    assert Recorded(Remove(s, p).live, p') by { RemoveFrame(s, p); }
    InsertKeeps(Remove(s, p), {p.addr}, p');
    assert {p.addr} - {p.addr} == {};
  }

  /** What the search returns is queued where its flags say. */
  lemma Found(s: Sys, name: string)
    requires Homed(s)
    ensures var r := Find(s, name);
      if r.Some? then r.value in Queue(s, Home(r.value)) && r.value.name == name
      else forall k, p :: p in Queue(s, k) ==> p.name != name
  {
    FirstNamedFound(Queued(s), name);
    if Find(s, name).Some? {
      var p := Find(s, name).value;
      assert p in Queue(s, ReadyQ) || p in Queue(s, BlockedQ)
          || p in Queue(s, SuspendedReadyQ) || p in Queue(s, SuspendedBlockedQ);
    } else {
      forall k, p | p in Queue(s, k) ensures p.name != name {
        assert p in Queued(s);
      }
    }
  }

  // ----- System calls keep it -----

  /** Putting the running block in hand. */
  lemma InHand(s: Sys)
    requires Inv(s) && s.running.Some?
    ensures Holding(s.(running := None), {s.running.value.addr})
  {
    forall a ensures Places(s.(running := None), a)
                  == if a in s.live && a !in {s.running.value.addr} then 1 else 0
    {
      assert Places(s, a) == if a in s.live then 1 else 0;
    }
  }

  /** Taking the only block in hand as the running one. */
  lemma Dispatched(s: Sys, p: Proc)
    requires Holding(s, {p.addr}) && s.running.None? && Home(p) == ReadyQ && Recorded(s.live, p)
    ensures Inv(s.(running := Some(p)))
  {
    forall a ensures Places(s.(running := Some(p)), a) == if a in s.live && a !in {} then 1 else 0 {
      assert Places(s, a) == if a in s.live && a !in {p.addr} then 1 else 0;
    }
  }

  /** Remove a ready block and run it. */
  lemma DispatchKeeps(s: Sys, next: Proc)
    requires Inv(s) && s.running.None? && next in s.ready
    ensures Inv(Remove(s, next).(running := Some(next)))
  {
    assert next in Queue(s, Home(next));
    RemoveKeeps(s, {}, next);
    RemoveFrame(s, next);
    assert {} + {next.addr} == {next.addr};
    Dispatched(Remove(s, next), next);
  }

  lemma IdleKeeps(s: Sys)
    requires Inv(s)
    ensures Inv(Idle(s))
  {
    if s.ready != [] {
      var next := s.ready[0];
      match s.running {
        case None => DispatchKeeps(s, next);
        case Some(cur) =>
          var s0 := s.(running := None);
          var s1 := Insert(s0, cur);
          InHand(s);
          InsertKeeps(s0, {cur.addr}, cur);
          assert {cur.addr} - {cur.addr} == {};
          InsertFrame(s0, cur);
          assert next in s1.ready by { InsertMembers(s.ready, cur); }
          DispatchKeeps(s1, next);
          assert Idle(s) == Remove(s1, next).(running := Some(next));
      }
    }
  }

  lemma FreeKeeps(s: Sys, p: Proc)
    requires Holding(s, {p.addr})
    ensures Inv(Free(s, Some(p)))
  {
    var f := Free(s, Some(p));
    forall a ensures Places(f, a) == if a in f.live && a !in {} then 1 else 0 {
      assert Places(s, a) == if a in s.live && a !in {p.addr} then 1 else 0;
    }
    FreeKeepsAll(s, p, s.ready, ReadyQ);
    FreeKeepsAll(s, p, s.blocked, BlockedQ);
    FreeKeepsAll(s, p, s.suspendedReady, SuspendedReadyQ);
    FreeKeepsAll(s, p, s.suspendedBlocked, SuspendedBlockedQ);
    assert s.running.Some? ==> s.running.value.addr != p.addr by {
      assert Places(s, p.addr) == 0;
    }
  }

  lemma FreeKeepsAll(s: Sys, p: Proc, q: seq<Proc>, k: QueueId)
    requires Partition(s, {p.addr}) && AllAt(s.live, q, k) && q == Queue(s, k)
    ensures AllAt(Free(s, Some(p)).live, q, k)
  {
    forall x | x in q ensures x.addr != p.addr {
      MembersOfQueue(s, k, x);
      assert Places(s, p.addr) == 0;
    }
  }

  lemma ExitKeeps(s: Sys)
    requires Inv(s)
    ensures Inv(Exit(s))
  {
    match s.running {
      case None =>
        if s.ready != [] { DispatchKeeps(s, s.ready[0]); }
      case Some(cur) =>
        InHand(s);
        var f := Free(s.(running := None), Some(cur));
        FreeKeeps(s.(running := None), cur);
        if s.ready != [] {
          DispatchKeeps(f, f.ready[0]);
          assert Exit(s) == Remove(f, f.ready[0]).(running := Some(f.ready[0]));
        } else {
          assert Exit(s) == f.(status := PoweredOff);
        }
    }
  }

  // ----- Commands keep it -----

  lemma SuspendKeeps(s: Sys, name: string)
    requires Inv(s)
    ensures Inv(Suspend(s, name).0)
  {
    hide Partition, Ordered, Spaced, Find, Move;
    Found(s, name);
    var r := Find(s, name);
    if |name| != 0 && r.Some? && r.value.class_.UserClass? && r.value.dispatch.Active? {
      MoveKeeps(s, r.value, r.value.(dispatch := Suspended));
    }
  }

  lemma ResumeKeeps(s: Sys, name: string)
    requires Inv(s)
    ensures Inv(Resume(s, name).0)
  {
    hide Partition, Ordered, Spaced, Find, Move;
    Found(s, name);
    var r := Find(s, name);
    if r.Some? { MoveKeeps(s, r.value, r.value.(dispatch := Active)); }
  }

  lemma {:induction false} ResumeEachKeeps(s: Sys, todo: seq<Proc>)
    requires Inv(s)
    ensures Inv(ResumeEach(s, todo))
    decreases |todo|
  {
    if todo != [] {
      ResumeKeeps(s, todo[0].name);
      ResumeEachKeeps(Resume(s, todo[0].name).0, todo[1..]);
    }
  }

  lemma PanicKeeps(s: Sys)
    requires Inv(s)
    ensures Inv(s.(status := Panicked))
  {
  }

  lemma BlockKeeps(s: Sys, name: string)
    requires Inv(s)
    ensures Inv(Block(s, name))
  {
    hide Partition, Ordered, Spaced, Find, Move;
    Found(s, name);
    var r := Find(s, name);
    if r.None? {
      PanicKeeps(s);
    } else if !r.value.exec.Blocked? {
      MoveKeeps(s, r.value, r.value.(exec := Blocked));
    }
  }

  lemma UnblockKeeps(s: Sys, name: string)
    requires Inv(s)
    ensures Inv(Unblock(s, name))
  {
    hide Partition, Ordered, Spaced, Find, Move;
    Found(s, name);
    var r := Find(s, name);
    if r.None? {
      PanicKeeps(s);
    } else if !r.value.exec.Ready? {
      MoveKeeps(s, r.value, r.value.(exec := Ready));
    }
  }

  lemma SetPriorityKeeps(s: Sys, name: string, priority: int)
    requires Inv(s)
    ensures Inv(SetPriority(s, name, priority))
  {
    hide Partition, Ordered, Spaced, Find, Move;
    Found(s, name);
    var r := Find(s, name);
    if r.Some? && 0 <= priority <= LOWEST { MoveKeeps(s, r.value, r.value.(priority := priority)); }
  }

  lemma DeleteKeeps(s: Sys, name: string)
    requires Inv(s)
    ensures Inv(Delete(s, name))
  {
    hide Partition, Ordered, Spaced, Find, Remove, Free;
    Found(s, name);
    var r := Find(s, name);
    if r.Some? {
      RemoveKeeps(s, {}, r.value);
      assert {} + {r.value.addr} == {r.value.addr};
      FreeKeeps(Remove(s, r.value), r.value);
    }
  }

  lemma SetupKeeps(s: Sys, name: string, class_: ProcessClass, priority: int)
    requires Inv(s)
    ensures var (s', p) := Setup(s, name, class_, priority);
      if p.Some? then
        Holding(s', {p.value.addr}) && Recorded(s'.live, p.value) && Home(p.value) == ReadyQ
        && p.value.addr !in s.live
      else Inv(s')
  {
    var (s', p) := Setup(s, name, class_, priority);
    if p.Some? {
      forall a ensures Places(s', a) == if a in s'.live && a !in {p.value.addr} then 1 else 0 {
        assert Places(s, a) == if a in s.live then 1 else 0;
      }
      SetupKeepsHomed(s, name, class_, priority);
    }
  }

  lemma SetupKeepsHomed(s: Sys, name: string, class_: ProcessClass, priority: int)
    requires Homed(s) && Spaced(s)
    ensures Homed(Setup(s, name, class_, priority).0)
  {
    var live, live' := s.live, Setup(s, name, class_, priority).0.live;
    forall p | Recorded(live, p) ensures Recorded(live', p) {
    }
  }

  lemma LoadKeeps(s: Sys, name: string, class_: ProcessClass, priority: int)
    requires Inv(s)
    ensures Inv(Load(s, name, class_, priority))
  {
    SetupKeeps(s, name, class_, priority);
    var (s', p) := Setup(s, name, class_, priority);
    if p.Some? {
      InsertKeeps(s', {p.value.addr}, p.value);
      assert {p.value.addr} - {p.value.addr} == {};
    }
  }

  lemma LoadR3Keeps(s: Sys)
    requires Inv(s)
    ensures Inv(LoadR3(s))
  {
    LoadKeeps(s, "proc1", UserClass, 1);
    var s1 := Load(s, "proc1", UserClass, 1);
    LoadKeeps(s1, "proc2", UserClass, 1);
    var s2 := Load(s1, "proc2", UserClass, 1);
    LoadKeeps(s2, "proc3", UserClass, 1);
    var s3 := Load(s2, "proc3", UserClass, 1);
    LoadKeeps(s3, "proc4", UserClass, 1);
    var s4 := Load(s3, "proc4", UserClass, 1);
    LoadKeeps(s4, "proc5", UserClass, 1);
  }

  lemma LoadR3SuspendedKeeps(s: Sys)
    requires Inv(s)
    ensures Inv(LoadR3Suspended(s))
  {
    LoadR3Keeps(s);
    var t := LoadR3(s);
    SuspendKeeps(t, "proc1");
    var t1 := Suspend(t, "proc1").0;
    SuspendKeeps(t1, "proc2");
    var t2 := Suspend(t1, "proc2").0;
    SuspendKeeps(t2, "proc3");
    var t3 := Suspend(t2, "proc3").0;
    SuspendKeeps(t3, "proc4");
    var t4 := Suspend(t3, "proc4").0;
    SuspendKeeps(t4, "proc5");
  }

  lemma StepKeeps(s: Sys, e: Event)
    requires Inv(s)
    ensures Inv(Step(s, e))
  {
    if e.Call? {
      IdleKeeps(s);
      ExitKeeps(s);
    } else {
      CommandKeeps(s, e);
    }
  }

  lemma CommandKeeps(s: Sys, e: Event)
    requires Inv(s) && !e.Call?
    ensures Inv(Step(s, e))
  {
    hide Inv, Suspend, Resume, ResumeEach, Block, Unblock, SetPriority, Delete, LoadR3, LoadR3Suspended, Load, AllocMem;
    if s.status == Live {
      match e
      case DoSuspend(n) => SuspendKeeps(s, n);
      case DoResume(n) => ResumeKeeps(s, n);
      case DoResumeAll => ResumeEachKeeps(s, s.suspendedReady);
      case DoBlock(n) => BlockKeeps(s, n);
      case DoUnblock(n) => UnblockKeeps(s, n);
      case DoSetPriority(n, p) => SetPriorityKeeps(s, n, p);
      case DoDelete(n) => DeleteKeeps(s, n);
      case DoLoadR3 => LoadR3Keeps(s);
      case DoLoadR3Suspended => LoadR3SuspendedKeeps(s);
      case DoLoadProcess(n) => LoadKeeps(s, n, UserClass, 1);
      case DoLoad(n, c, p) => LoadKeeps(s, n, c, p);
      case DoAlloc(size) => AllocKeeps(s, size);
    }
  }

  lemma AllocKeeps(s: Sys, size: nat)
    requires Inv(s)
    ensures Inv(AllocMem(s, size))
  {
  }

  /** On every run, from any state that satisfies the invariant. */
  lemma {:induction false} RunKeeps(s: Sys, es: seq<Event>)
    requires Inv(s)
    ensures Inv(Run(s, es))
    decreases |es|
  {
    if es != [] {
      StepKeeps(s, es[0]);
      RunKeeps(Step(s, es[0]), es[1..]);
    }
  }

  lemma EmptyInv()
    ensures Inv(EMPTY)
  {
    BucketsNil(0);
  }

  /** Before the first trap commhand and idle wait, and nothing runs. */
  lemma FirstTrapState()
    ensures var s := BeforeFirstTrap();
      && Inv(s) && s.status == Live && s.running == None
      && s.ready == [Proc(KernelHeap.BASE, "commhand", SystemClass, 0, Ready, Active),
                     Proc(KernelHeap.BASE + PCB_SIZE + STACK_SIZE, "idle", SystemClass, 9, Ready, Active)]
      && s.blocked == s.suspendedReady == s.suspendedBlocked == []
      && s.heap == KernelHeap.BASE + 2 * (PCB_SIZE + STACK_SIZE)
      && s.live == map[KernelHeap.BASE := "commhand", KernelHeap.BASE + PCB_SIZE + STACK_SIZE := "idle"]
  {
    hide Inv, Load, Find, InsertByPriority, Without;
    var c := Proc(KernelHeap.BASE, "commhand", SystemClass, 0, Ready, Active);
    var i := Proc(KernelHeap.BASE + PCB_SIZE + STACK_SIZE, "idle", SystemClass, 9, Ready, Active);
    EmptyInv();
    LoadKeeps(EMPTY, c.name, SystemClass, 0);
    NoneNamed(EMPTY, c.name);
    LoadWorks(EMPTY, c.name, SystemClass, 0);
    var s1 := Load(EMPTY, c.name, SystemClass, 0);
    InsertTwo(c, i);
    LoadKeeps(s1, i.name, SystemClass, 9);
    assert |c.name| != |i.name|;
    OneOther(s1, c, i.name);
    LoadWorks(s1, i.name, SystemClass, 9);
  }

  /** kmain ends up running commhand with only the idle process waiting. */
  lemma BootState()
    ensures Inv(Boot())
    ensures Boot().status == Live
    ensures Boot().running == Some(Proc(KernelHeap.BASE, "commhand", SystemClass, 0, Ready, Active))
    ensures Boot().ready == [Proc(KernelHeap.BASE + PCB_SIZE + STACK_SIZE, "idle", SystemClass, 9, Ready, Active)]
    ensures Boot().blocked == Boot().suspendedReady == Boot().suspendedBlocked == []
    ensures Boot().heap == KernelHeap.BASE + 2 * (PCB_SIZE + STACK_SIZE)
    ensures Boot().live == BeforeFirstTrap().live
  {
    hide Inv, BeforeFirstTrap, Without;
    FirstTrapState();
    IdleKeeps(BeforeFirstTrap());
    InsertTwo(BeforeFirstTrap().ready[0], BeforeFirstTrap().ready[1]);
  }

  lemma NoneNamed(s: Sys, name: string)
    requires s.ready == s.blocked == s.suspendedReady == s.suspendedBlocked == []
    ensures Find(s, name) == None
  {
  }

  lemma OneOther(s: Sys, c: Proc, name: string)
    requires s.ready == [c] && s.blocked == s.suspendedReady == s.suspendedBlocked == [] && c.name != name
    ensures Find(s, name) == None
  {
    assert Queued(s) == [c];
    assert FirstNamed([c][1..], name) == None;
  }

  lemma InsertTwo(c: Proc, i: Proc)
    requires c.priority < i.priority && c.addr != i.addr
    ensures InsertByPriority([], c) == [c] && InsertByPriority([c], i) == [c, i] && Without([c, i], c.addr) == [i]
  {
    assert InsertByPriority([c][1..], i) == [i];
    assert [c, i][1..] == [i];
  }

  /** A load that nothing stands in the way of. */
  lemma LoadWorks(s: Sys, name: string, class_: ProcessClass, priority: int)
    requires s.status == Live && |name| < NAME_MAX && 0 <= priority <= LOWEST && Find(s, name) == None
    requires s.heap + PCB_SIZE + STACK_SIZE <= KernelHeap.BASE + KernelHeap.SIZE
    ensures var p := Proc(s.heap, name, class_, priority, Ready, Active);
      Load(s, name, class_, priority) == s.(heap := s.heap + PCB_SIZE + STACK_SIZE, live := s.live[s.heap := name],
                                            ready := InsertByPriority(s.ready, p), arrived := s.arrived + [p])
  {
    hide Find, InsertByPriority;
  }

  /** The partition, the flags and the order hold whenever the machine boots and runs. */
  lemma EveryRunFromBoot(es: seq<Event>)
    ensures Inv(Run(Boot(), es))
  {
    BootState();
    RunKeeps(Boot(), es);
  }
}
