/** Unique names, and the algebra of the commands on whole states. */
module Commands {
  import opened Processes
  import opened SystemState
  import opened Invariants
  import opened Scheduling

  // ----- Unique names -----

  ghost predicate UniqueNames(s: Sys) {
    forall a, b :: a in s.live && b in s.live && a != b ==> s.live[a] != s.live[b]
  }

  /** The one name `pcb_setup` does not look at: that of the running process. */
  predicate RunningIsNamed(s: Sys, name: string) {
    s.running.Some? && s.running.value.name == name
  }

  /** A load keeps names unique unless it succeeds under the running process's name. */
  lemma LoadNames(s: Sys, name: string, class_: ProcessClass, priority: int)
    requires Inv(s) && s.status == Live && UniqueNames(s)
    ensures UniqueNames(Load(s, name, class_, priority))
       <==> !(RunningIsNamed(s, name) && Setup(s, name, class_, priority).1.Some?)
  {
    var (s', p) := Setup(s, name, class_, priority);
    if p.Some? {
      var t := Load(s, name, class_, priority);
      InsertFrame(s', p.value);
      assert t.live == s.live[p.value.addr := name];
      SetupKeeps(s, name, class_, priority);
      if RunningIsNamed(s, name) {
        var r := s.running.value.addr;
        assert r in t.live && p.value.addr in t.live && t.live[r] == t.live[p.value.addr];
      } else {
        forall a | a in s.live ensures s.live[a] != name {
          NameTaken(s, a, name);
        }
      }
    }
  }

  lemma NameTaken(s: Sys, a: int, name: string)
    requires Inv(s) && a in s.live && Find(s, name).None? && !RunningIsNamed(s, name)
    ensures s.live[a] != name
  {
    OnePlace(s, a);
    Found(s, name);
    if k, p :| p in Queue(s, k) && p.addr == a {
      assert Recorded(s.live, p) && p.name != name;
    }
  }

  predicate FreshFor(s: Sys, e: Event) {
    match e
    case DoLoad(n, _, _) => !RunningIsNamed(s, n)
    case DoLoadProcess(n) => n in PROC_NAMES ==> !RunningIsNamed(s, n)
    case DoLoadR3 => forall n :: n in PROC_NAMES ==> !RunningIsNamed(s, n)
    case DoLoadR3Suspended => forall n :: n in PROC_NAMES ==> !RunningIsNamed(s, n)
    case _ => true
  }

  predicate FreshRun(s: Sys, es: seq<Event>)
    decreases |es|
  {
    es == [] || (FreshFor(s, es[0]) && FreshRun(Step(s, es[0]), es[1..]))
  }

  lemma LoadR3Names(s: Sys)
    requires Inv(s) && s.status == Live && UniqueNames(s) && FreshFor(s, DoLoadR3)
    ensures UniqueNames(LoadR3(s)) && LoadR3(s).running == s.running
  {
    hide Inv, UniqueNames, Load;
    forall i | 0 <= i < 5 ensures !RunningIsNamed(s, PROC_NAMES[i]) {
      assert PROC_NAMES[i] in PROC_NAMES;
    }
    LoadNameStep(s, PROC_NAMES[0]);
    var s1 := Load(s, PROC_NAMES[0], UserClass, 1);
    LoadNameStep(s1, PROC_NAMES[1]);
    var s2 := Load(s1, PROC_NAMES[1], UserClass, 1);
    LoadNameStep(s2, PROC_NAMES[2]);
    var s3 := Load(s2, PROC_NAMES[2], UserClass, 1);
    LoadNameStep(s3, PROC_NAMES[3]);
    var s4 := Load(s3, PROC_NAMES[3], UserClass, 1);
    LoadNameStep(s4, PROC_NAMES[4]);
  }

  lemma LoadNameStep(s: Sys, name: string)
    requires Inv(s) && UniqueNames(s) && !RunningIsNamed(s, name)
    ensures var t := Load(s, name, UserClass, 1); Inv(t) && UniqueNames(t) && t.running == s.running
  {
    LoadKeeps(s, name, UserClass, 1);
    if s.status == Live {
      LoadNames(s, name, UserClass, 1);
      var (s', p) := Setup(s, name, UserClass, 1);
      if p.Some? { InsertFrame(s', p.value); }
    }
  }

  lemma MoveFrame(s: Sys, p: Proc, p': Proc)
    ensures var r := Move(s, p, p');
      r.heap == s.heap && r.live == s.live && r.running == s.running && r.status == s.status
  {
    RemoveFrame(s, p);
    InsertFrame(Remove(s, p), p');
  }

  lemma {:induction false} ResumeEachFrame(s: Sys, todo: seq<Proc>)
    ensures var r := ResumeEach(s, todo);
      r.live == s.live && r.running == s.running && r.status == s.status && r.heap == s.heap
    decreases |todo|
  {
    if todo != [] {
      ResumeFrame(s, todo[0].name);
      ResumeEachFrame(Resume(s, todo[0].name).0, todo[1..]);
    }
  }

  lemma ResumeFrame(s: Sys, name: string)
    ensures var r := Resume(s, name).0;
      r.live == s.live && r.running == s.running && r.status == s.status && r.heap == s.heap
  {
    var f := Find(s, name);
    if f.Some? { MoveFrame(s, f.value, f.value.(dispatch := Active)); }
  }

  lemma SuspendFrame(s: Sys, name: string)
    ensures var r := Suspend(s, name).0;
      r.live == s.live && r.running == s.running && r.status == s.status && r.heap == s.heap
  {
    var f := Find(s, name);
    if f.Some? { MoveFrame(s, f.value, f.value.(dispatch := Suspended)); }
  }

  lemma LoadR3SuspendedFrame(s: Sys)
    ensures var r, t := LoadR3Suspended(s), LoadR3(s);
      r.live == t.live && r.running == t.running && r.heap == t.heap && r.status == t.status
  {
    hide LoadR3, Suspend;
    var t := LoadR3(s);
    SuspendFrame(t, "proc1");
    var t1 := Suspend(t, "proc1").0;
    SuspendFrame(t1, "proc2");
    var t2 := Suspend(t1, "proc2").0;
    SuspendFrame(t2, "proc3");
    var t3 := Suspend(t2, "proc3").0;
    SuspendFrame(t3, "proc4");
    var t4 := Suspend(t3, "proc4").0;
    SuspendFrame(t4, "proc5");
  }

  /** Nothing but a load adds a name, and nothing at all changes one. */
  lemma OtherStepNames(s: Sys, e: Event)
    requires !e.DoLoad? && !e.DoLoadProcess? && !e.DoLoadR3? && !e.DoLoadR3Suspended?
    ensures forall a :: a in Step(s, e).live ==> a in s.live && Step(s, e).live[a] == s.live[a]
    ensures !e.Call? ==> Step(s, e).running == s.running && Step(s, e).heap >= s.heap
    ensures !e.Call? ==> Step(s, e).status == s.status || Step(s, e).status == Panicked
  {
    match e
    case Call(op) =>
      IdleFrame(s);
      ExitFrame(s);
    case DoSuspend(n) => SuspendFrame(s, n);
    case DoResume(n) => ResumeFrame(s, n);
    case DoResumeAll => ResumeEachFrame(s, s.suspendedReady);
    case DoBlock(n) => if Find(s, n).Some? { var p := Find(s, n).value; MoveFrame(s, p, p.(exec := Blocked)); }
    case DoUnblock(n) => if Find(s, n).Some? { var p := Find(s, n).value; MoveFrame(s, p, p.(exec := Ready)); }
    case DoSetPriority(n, k) =>
      if Find(s, n).Some? { var p := Find(s, n).value; MoveFrame(s, p, p.(priority := k)); }
    case DoDelete(n) => if Find(s, n).Some? { RemoveFrame(s, Find(s, n).value); }
    case DoAlloc(size) =>
  }

  /** A yield leaves the other queues alone. */
  lemma IdleQueues(s: Sys)
    requires s.ready != [] && Home(s.ready[0]) == ReadyQ && (s.running.Some? ==> Home(s.running.value) == ReadyQ)
    ensures Idle(s).blocked == s.blocked && Idle(s).suspendedReady == s.suspendedReady
    ensures Idle(s).suspendedBlocked == s.suspendedBlocked
  {
  }

  lemma IdleFrame(s: Sys)
    ensures Idle(s).live == s.live && Idle(s).heap == s.heap
  {
    if s.ready != [] {
      RemoveFrame(s, s.ready[0]);
      if s.running.Some? {
        InsertFrame(s, s.running.value);
        RemoveFrame(Insert(s, s.running.value), s.ready[0]);
      }
    }
  }

  lemma ExitFrame(s: Sys)
    ensures Exit(s).live == Free(s, s.running).live
  {
    if s.ready != [] { RemoveFrame(Free(s, s.running), s.ready[0]); }
  }

  // ----- What commands leave alone -----

  /** The same process runs, the machine is still on unless it panicked, and new blocks come from
      beyond the old end of the heap. */
  ghost predicate Grows(s: Sys, t: Sys) {
    && t.running == s.running && s.heap <= t.heap && (t.status == s.status || t.status == Panicked)
    && forall a :: a in t.live ==> a in s.live || s.heap <= a
  }

  lemma NothingGrows(s: Sys)
    ensures Grows(s, s)
  {
  }

  lemma LoadGrows(s: Sys, name: string, class_: ProcessClass, priority: int)
    ensures Grows(s, Load(s, name, class_, priority))
  {
    var (s', p) := Setup(s, name, class_, priority);
    if p.Some? { InsertFrame(s', p.value); }
  }

  lemma LoadR3Grows(s: Sys)
    ensures Grows(s, LoadR3(s))
  {
    hide Load;
    LoadGrows(s, "proc1", UserClass, 1);
    var s1 := Load(s, "proc1", UserClass, 1);
    LoadGrows(s1, "proc2", UserClass, 1);
    var s2 := Load(s1, "proc2", UserClass, 1);
    LoadGrows(s2, "proc3", UserClass, 1);
    var s3 := Load(s2, "proc3", UserClass, 1);
    LoadGrows(s3, "proc4", UserClass, 1);
    var s4 := Load(s3, "proc4", UserClass, 1);
    LoadGrows(s4, "proc5", UserClass, 1);
  }

  lemma CommandGrows(s: Sys, e: Event)
    requires !e.Call?
    ensures Grows(s, Step(s, e))
  {
    hide Suspend, Resume, ResumeAll, Block, Unblock, SetPriority, Delete, AllocMem;
    hide Load, LoadR3, LoadR3Suspended, Grows;
    if s.status != Live {
      NothingGrows(s);
    } else {
      match e
      case DoLoad(n, c, k) => LoadGrows(s, n, c, k);
      case DoLoadProcess(n) =>
        NothingGrows(s);
        LoadGrows(s, n, UserClass, 1);
      case DoLoadR3 => LoadR3Grows(s);
      case DoLoadR3Suspended => LoadR3SuspendedGrows(s);
      case _ => OtherGrows(s, e);
    }
  }

  lemma LoadR3SuspendedGrows(s: Sys)
    ensures Grows(s, LoadR3Suspended(s))
  {
    hide LoadR3, LoadR3Suspended;
    LoadR3Grows(s);
    LoadR3SuspendedFrame(s);
  }

  lemma OtherGrows(s: Sys, e: Event)
    requires !e.Call? && !IsLoad(e)
    ensures Grows(s, Step(s, e))
  {
    hide Step;
    OtherStepNames(s, e);
  }

  lemma StepNames(s: Sys, e: Event)
    requires Inv(s) && UniqueNames(s) && FreshFor(s, e)
    ensures UniqueNames(Step(s, e))
  {
    if s.status == Live {
      match e
      case DoLoad(n, c, k) => LoadNames(s, n, c, k);
      case DoLoadProcess(n) => if n in PROC_NAMES { LoadNames(s, n, UserClass, 1); }
      case DoLoadR3 => LoadR3Names(s);
      case DoLoadR3Suspended =>
        LoadR3Names(s);
        LoadR3SuspendedFrame(s);
      case _ => OtherStepNames(s, e);
    }
  }

  /** Names stay unique on every run whose loads avoid the running process's name. */
  lemma {:induction false} RunNames(s: Sys, es: seq<Event>)
    requires Inv(s) && UniqueNames(s) && FreshRun(s, es)
    ensures UniqueNames(Run(s, es))
    decreases |es|
  {
    if es != [] {
      StepKeeps(s, es[0]);
      StepNames(s, es[0]);
      RunNames(Step(s, es[0]), es[1..]);
    }
  }

  // ----- The runs of the program itself -----

  predicate IsLoad(e: Event) {
    e.DoLoad? || e.DoLoadProcess? || e.DoLoadR3? || e.DoLoadR3Suspended?
  }

  /** Only commhand loads, and nothing under its own name. */
  predicate CommhandLoads(s: Sys, es: seq<Event>)
    decreases |es|
  {
    es == [] ||
    ((IsLoad(es[0]) ==> RunningIsNamed(s, "commhand")) && (es[0].DoLoad? ==> es[0].name != "commhand")
     && CommhandLoads(Step(s, es[0]), es[1..]))
  }

  lemma {:induction false} CommhandLoadsFresh(s: Sys, es: seq<Event>)
    requires CommhandLoads(s, es)
    ensures FreshRun(s, es)
    decreases |es|
  {
    hide Step;
    if es != [] {
      ProcNamesApart();
      CommhandLoadsFresh(Step(s, es[0]), es[1..]);
    }
  }

  lemma BootNames()
    ensures Inv(Boot()) && UniqueNames(Boot())
  {
    hide Inv, Boot, BeforeFirstTrap;
    FirstTrapState();
    BootState();
    assert |"commhand"| != |"idle"|;
  }

  /** So names are unique on every run of the program. */
  lemma NamesFromBoot(es: seq<Event>)
    requires CommhandLoads(Boot(), es)
    ensures Inv(Run(Boot(), es)) && UniqueNames(Run(Boot(), es))
  {
    hide Inv, Boot, UniqueNames, Run;
    BootNames();
    CommhandLoadsFresh(Boot(), es);
    RunKeeps(Boot(), es);
    RunNames(Boot(), es);
  }

  // ----- While the machine is on, some process runs -----

  predicate SomeRuns(s: Sys) {
    s.status == Live ==> s.running.Some?
  }

  lemma StepRuns(s: Sys, e: Event)
    requires SomeRuns(s)
    ensures SomeRuns(Step(s, e))
  {
    if e.Call? {
    } else {
      CommandGrows(s, e);
    }
  }

  lemma {:induction false} RunRuns(s: Sys, es: seq<Event>)
    requires SomeRuns(s)
    ensures SomeRuns(Run(s, es))
    decreases |es|
  {
    hide SomeRuns, Step;
    if es != [] {
      StepRuns(s, es[0]);
      RunRuns(Step(s, es[0]), es[1..]);
    }
  }

  /** On every run from boot there is a running process for as long as the machine is on: what
      the results on scheduling ask of a state holds there. */
  lemma SomeRunsFromBoot(es: seq<Event>)
    ensures var s := Run(Boot(), es); Inv(s) && (s.status == Live ==> s.running.Some?)
  {
    hide Inv, Boot, BeforeFirstTrap;
    BootState();
    RunRuns(Boot(), es);
    RunKeeps(Boot(), es);
  }

  // ----- Finding a process again -----

  /** No other queued process has this one's name. */
  ghost predicate OnlyNamed(s: Sys, p: Proc) {
    forall k, q :: p != q && q in Queue(s, k) ==> q.name != p.name
  }

  lemma UniqueMeansOnly(s: Sys, k: QueueId, p: Proc)
    requires Inv(s) && UniqueNames(s) && p in Queue(s, k)
    ensures OnlyNamed(s, p) && Find(s, p.name) == Some(p)
  {
    hide Partition, Ordered, Spaced, Find;
    forall j, q | p != q && q in Queue(s, j) ensures q.name != p.name {
      assert Recorded(s.live, p) && Recorded(s.live, q);
      if q.addr == p.addr { OneQueue(s, j, k, q, p); }
    }
    Found(s, p.name);
  }

  lemma RemoveMembers(s: Sys, p: Proc, k: QueueId, q: Proc)
    requires Partition(s, {}) && q in Queue(Remove(s, p), k) && p in Queue(s, Home(p))
    ensures q in Queue(s, k) && q.addr != p.addr
  {
    QueueDistinct(s, {}, Home(p));
    WithoutMembers(Queue(s, Home(p)), p.addr);
    if k != Home(p) && q.addr == p.addr {
      OneQueue(s, k, Home(p), q, p);
    }
  }

  lemma InsertedMembers(s: Sys, p: Proc, k: QueueId, q: Proc)
    ensures q in Queue(Insert(s, p), k) <==> q in Queue(s, k) || (k == Home(p) && q == p)
  {
    InsertMembers(s.ready, p);
  }

  /** A moved process is found again, and is still the only one of its name. */
  lemma FoundMoved(s: Sys, p: Proc, p': Proc)
    requires Inv(s) && p in Queue(s, Home(p)) && OnlyNamed(s, p)
    requires p'.addr == p.addr && p'.name == p.name && WellFormed(p')
    ensures Inv(Move(s, p, p')) && p' in Queue(Move(s, p, p'), Home(p'))
    ensures OnlyNamed(Move(s, p, p'), p') && Find(Move(s, p, p'), p.name) == Some(p')
  {
    var m := Move(s, p, p');
    MoveKeeps(s, p, p');
    InsertedMembers(Remove(s, p), p', Home(p'), p');
    forall k, q | p' != q && q in Queue(m, k) ensures q.name != p'.name {
      InsertedMembers(Remove(s, p), p', k, q);
      RemoveMembers(s, p, k, q);
    }
    Found(m, p.name);
  }

  // ----- Moving twice is moving once -----

  lemma UndoInsert(s: Sys, p: Proc)
    requires forall q :: q in Queue(s, Home(p)) || q in s.arrived ==> q.addr != p.addr
    ensures Remove(Insert(s, p), p) == s
  {
    var q := Queue(s, Home(p));
    if Home(p) == ReadyQ {
      var i := InsertPosition(s.ready, p);
      var a, b := s.ready[..i], s.ready[i..];
      assert s.ready == a + b;
      WithoutEnd(a, p);
      WithoutConcat(a + [p], b, p.addr);
      assert p in a + [p];
      WithoutEnd(s.arrived, p);
    } else {
      WithoutEnd(q, p);
    }
  }

  lemma WithoutEnd(q: seq<Proc>, p: Proc)
    requires forall r :: r in q ==> r.addr != p.addr
    ensures Without(q + [p], p.addr) == q
  {
    WithoutConcat(q, [p], p.addr);
    assert [p][1..] == [];
    assert Without([p], p.addr) == [];
  }

  lemma AbsentAfterRemove(s: Sys, p: Proc, p': Proc)
    requires Inv(s) && p in Queue(s, Home(p)) && p'.addr == p.addr
    ensures var r := Remove(s, p); forall q :: q in Queue(r, Home(p')) || q in r.arrived ==> q.addr != p'.addr
  {
    var r := Remove(s, p);
    RemoveKeeps(s, {}, p);
    BucketsMembers(r.arrived, 0);
    forall q | q in Queue(r, Home(p')) || q in r.arrived ensures q.addr != p.addr {
      if q in r.arrived {
        assert q in Queue(r, ReadyQ);
        RemoveMembers(s, p, ReadyQ, q);
      } else {
        RemoveMembers(s, p, Home(p'), q);
      }
    }
  }

  lemma MoveTwice(s: Sys, p: Proc, p1: Proc, p2: Proc)
    requires Inv(s) && p in Queue(s, Home(p)) && p1.addr == p.addr
    ensures Move(Move(s, p, p1), p1, p2) == Move(s, p, p2)
  {
    AbsentAfterRemove(s, p, p1);
    UndoInsert(Remove(s, p), p1);
  }

  // ----- The algebra -----

  /** A user process the operator can name. */
  ghost predicate Target(s: Sys, p: Proc) {
    Inv(s) && p in Queue(s, Home(p)) && OnlyNamed(s, p) && p.name != "" && p.class_.UserClass?
  }

  lemma TargetFound(s: Sys, p: Proc)
    requires Target(s, p)
    ensures Find(s, p.name) == Some(p) && WellFormed(p) && |p.name| < NAME_MAX
  {
    Found(s, p.name);
    assert Recorded(s.live, p);
  }

  /** The commands on a process found under its own name are single moves. */
  lemma AsMoves(s: Sys, p: Proc)
    requires Find(s, p.name) == Some(p) && 0 < |p.name| < NAME_MAX && p.class_.UserClass?
    ensures p.dispatch.Active? ==> Suspend(s, p.name).0 == Move(s, p, p.(dispatch := Suspended))
    ensures p.dispatch.Suspended? ==> Resume(s, p.name).0 == Move(s, p, p.(dispatch := Active))
    ensures p.exec.Ready? ==> Block(s, p.name) == Move(s, p, p.(exec := Blocked))
    ensures p.exec.Blocked? ==> Unblock(s, p.name) == Move(s, p, p.(exec := Ready))
    ensures 0 <= p.priority <= LOWEST ==> SetPriority(s, p.name, p.priority) == Move(s, p, p)
  {
  }

  /** A target that has moved can be moved again by its name. */
  lemma TwoMoves(s: Sys, p: Proc, p': Proc, p'': Proc)
    requires Target(s, p) && WellFormed(p')
    requires p'.addr == p.addr && p'.name == p.name && p'.class_ == p.class_
    ensures Find(Move(s, p, p'), p.name) == Some(p') && 0 < |p'.name| < NAME_MAX
    ensures Move(Move(s, p, p'), p', p'') == Move(s, p, p'')
  {
    FoundMoved(s, p, p');
    MoveTwice(s, p, p', p'');
  }

  /** Blocking and suspending commute, and land the process at the end of suspended-blocked. */
  lemma BlockSuspendCommute(s: Sys, p: Proc)
    requires Target(s, p) && Home(p) == ReadyQ
    ensures Suspend(Block(s, p.name), p.name).0 == Block(Suspend(s, p.name).0, p.name)
         == Move(s, p, p.(exec := Blocked, dispatch := Suspended))
  {
    var b, d, both := p.(exec := Blocked), p.(dispatch := Suspended), p.(exec := Blocked, dispatch := Suspended);
    TargetFound(s, p);
    TwoMoves(s, p, b, both);
    TwoMoves(s, p, d, both);
    hide Target, Move, Block, Suspend, Find;
    AsMoves(s, p);
    AsMoves(Move(s, p, b), b);
    AsMoves(Move(s, p, d), d);
  }

  lemma UnblockResumeCommute(s: Sys, p: Proc)
    requires Target(s, p) && Home(p) == SuspendedBlockedQ
    ensures Resume(Unblock(s, p.name), p.name).0 == Unblock(Resume(s, p.name).0, p.name)
         == Move(s, p, p.(exec := Ready, dispatch := Active))
  {
    var b, d, both := p.(exec := Ready), p.(dispatch := Active), p.(exec := Ready, dispatch := Active);
    TargetFound(s, p);
    TwoMoves(s, p, b, both);
    TwoMoves(s, p, d, both);
    hide Target, Move, Unblock, Resume, Find;
    AsMoves(s, p);
    AsMoves(Move(s, p, b), b);
    AsMoves(Move(s, p, d), d);
  }

  /** Three ways to send a ready process to the back of its priority, with one result. */
  lemma ThreeRequeues(s: Sys, p: Proc)
    requires Target(s, p) && Home(p) == ReadyQ
    ensures Resume(Suspend(s, p.name).0, p.name).0 == Move(s, p, p)
    ensures Unblock(Block(s, p.name), p.name) == Move(s, p, p)
    ensures SetPriority(s, p.name, p.priority) == Move(s, p, p)
  {
    var b, d := p.(exec := Blocked), p.(dispatch := Suspended);
    TargetFound(s, p);
    TwoMoves(s, p, b, p);
    TwoMoves(s, p, d, p);
    ReadyAgain(p);
    hide Target, Move, Block, Unblock, Suspend, Resume, SetPriority, Find;
    AsMoves(s, p);
    AsMoves(Move(s, p, b), b);
    AsMoves(Move(s, p, d), d);
  }

  lemma ReadyAgain(p: Proc)
    requires Home(p) == ReadyQ && WellFormed(p)
    ensures p.(exec := Blocked).(exec := Ready) == p == p.(dispatch := Suspended).(dispatch := Active)
  {
  }

  /** And the result is the old ready queue exactly when no equal waited behind the process. */
  lemma RequeueChanges(s: Sys, i: nat)
    requires Inv(s) && i < |s.ready|
    ensures Move(s, s.ready[i], s.ready[i]).ready == s.ready
       <==> (i + 1 < |s.ready| ==> s.ready[i].priority < s.ready[i + 1].priority)
  {
    assert s.ready[i] in Queue(s, ReadyQ);
    ReadySorted(s);
    QueueDistinct(s, {}, ReadyQ);
    WithoutAt(s.ready, i);
    hide Inv;
    Reinserted(s.ready, i);
  }

  lemma LoadedNames(boot: Sys)
    requires boot == Boot()
    ensures UniqueNames(LoadR3(boot))
  {
    hide Inv, Boot, BeforeFirstTrap, LoadR3, UniqueNames;
    BootState();
    var es: seq<Event> := [DoLoadR3];
    assert es[1..] == [];
    assert CommhandLoads(Step(boot, es[0]), es[1..]);
    NamesFromBoot(es);
    assert Run(boot, es) == Run(Step(boot, es[0]), es[1..]) == Step(boot, es[0]) == LoadR3(boot);
  }

  lemma FirstGoesLast(q: seq<Proc>)
    requires |q| == 6 && Distinct(q) && q[5].priority > 1 && forall i :: 0 <= i < 5 ==> q[i].priority == 1
    ensures InsertByPriority(Without(q, q[0].addr), q[0]) == q[1..5] + [q[0], q[5]]
  {
    WithoutAt(q, 0);
    hide Without, InsertByPriority;
    assert q[..0] + q[1..] == q[1..5] + [q[5]];
    InsertAmong(q[1..5], [q[5]], q[0]);
    assert q[1..5] + [q[0]] + [q[5]] == q[1..5] + [q[0], q[5]];
  }

  /** Already after `load` at the first prompt: suspending and resuming proc1 makes it the last of
      the five. */
  lemma SuspendResumeMoves(boot: Sys)
    requires boot == Boot()
    ensures var s := LoadR3(boot);
      && |s.ready| == 6 && s.ready[0].name == "proc1"
      && Resume(Suspend(s, "proc1").0, "proc1").0.ready == s.ready[1..5] + [s.ready[0], s.ready[5]] != s.ready
  {
    hide Partition, Homed, Ordered, Spaced, Boot, BeforeFirstTrap, LoadR3, Suspend, Resume, UniqueNames, OnlyNamed;
    hide InsertByPriority, Without, Find;
    var s := LoadR3(boot);
    BootState();
    LoadedAll(boot);
    LoadedNames(boot);
    assert s.ready[5..][0] == s.ready[5];
    var p := s.ready[0];
    assert s.ready[0] in Queue(s, ReadyQ);
    HomeIs(s, ReadyQ, p);
    UniqueMeansOnly(s, ReadyQ, p);
    ThreeRequeues(s, p);
    QueueDistinct(s, {}, ReadyQ);
    FirstGoesLast(s.ready);
    ProcNamesApart();
    assert (s.ready[1..5] + [s.ready[0], s.ready[5]])[0] == s.ready[1];
  }

  lemma HomeIs(s: Sys, k: QueueId, p: Proc)
    requires Inv(s) && p in Queue(s, k)
    ensures Home(p) == k
  {
    hide Partition, Ordered, Spaced;
  }

  lemma Reinserted(q: seq<Proc>, i: nat)
    requires i < |q| && Sorted(q) && Distinct(q)
    ensures InsertByPriority(q[..i] + q[i + 1..], q[i]) == q <==> (i + 1 < |q| ==> q[i].priority < q[i + 1].priority)
  {
    hide Sorted;
    var p, x, y := q[i], q[..i], q[i + 1..];
    BeforeAndAfter(q, i);
    InsertSkips(x, y, p);
    InsertedFirst(y, p);
    hide InsertByPriority;
    SameTail(x, InsertByPriority(y, p), [p] + y);
    assert q == x + ([p] + y);
  }

  lemma BeforeAndAfter(q: seq<Proc>, i: nat)
    requires i < |q| && Sorted(q) && Distinct(q)
    ensures forall r :: r in q[..i] ==> r.priority <= q[i].priority
    ensures i + 1 < |q| ==> q[i + 1..][0] == q[i + 1] != q[i]
  {
  }

  lemma InsertedFirst(y: seq<Proc>, p: Proc)
    requires y != [] ==> y[0] != p
    ensures InsertByPriority(y, p) == [p] + y <==> (y != [] ==> p.priority < y[0].priority)
  {
    if y != [] && y[0].priority <= p.priority {
      assert InsertByPriority(y, p)[0] == y[0] && ([p] + y)[0] == p;
    }
  }

  lemma SameTail(x: seq<Proc>, y: seq<Proc>, z: seq<Proc>)
    ensures x + y == x + z <==> y == z
  {
    assert (x + y)[|x|..] == y && (x + z)[|x|..] == z;
  }
}
