/** What the `resume all` command achieves, and exactly when it achieves all of it. */
module ResumingAll {
  import opened Processes
  import opened SystemState
  import opened Invariants
  import opened Commands
  import opened Scheduling
  import KernelHeap

  /** Some block the search looks at before the suspended-ready queue bears this name. */
  ghost predicate Shadowed(s: Sys, name: string) {
    exists p :: p in s.ready + s.blocked && p.name == name
  }

  /** What a caller can check beforehand: each name to be resumed is found where it waits. */
  ghost predicate Resumable(s: Sys) {
    && (forall p :: p in s.suspendedReady ==> !Shadowed(s, p.name))
    && (forall i, j :: 0 <= i < j < |s.suspendedReady| ==> s.suspendedReady[i].name != s.suspendedReady[j].name)
  }

  /** The ready queue after inserting a list one by one. */
  function InsertAll(q: seq<Proc>, l: seq<Proc>): seq<Proc>
    decreases |l|
  {
    if l == [] then q else InsertAll(InsertByPriority(q, l[0]), l[1..])
  }

  function Activated(l: seq<Proc>): (r: seq<Proc>)
    ensures |r| == |l| && forall i :: 0 <= i < |l| ==> r[i] == l[i].(dispatch := Active)
  {
    if l == [] then [] else [l[0].(dispatch := Active)] + Activated(l[1..])
  }

  // ----- Inserting one by one is sorting stably -----

  lemma {:induction false} StableSortSorted(q: seq<Proc>)
    requires Sorted(q) && forall p :: p in q ==> 0 <= p.priority <= LOWEST
    ensures StableSort(q) == q
  {
    if q == [] {
      BucketsNil(0);
    } else {
      hide StableSort, InsertByPriority, Sorted;
      var h, t := q[..|q| - 1], q[|q| - 1];
      assert q == h + [t];
      SortedFront(q);
      StableSortSorted(h);
      StableSortAppend(h, t);
      InsertSkips(h, [], t);
      InsertFirst([], t);
      assert h + [] == h;
    }
  }

  lemma SortedFront(q: seq<Proc>)
    requires q != [] && Sorted(q)
    ensures Sorted(q[..|q| - 1]) && forall r :: r in q[..|q| - 1] ==> r.priority <= q[|q| - 1].priority
  {
  }

  lemma StableSortAppend(l: seq<Proc>, p: Proc)
    requires 0 <= p.priority <= LOWEST
    ensures StableSort(l + [p]) == InsertByPriority(StableSort(l), p)
  {
    BucketsAppend(l, p, 0);
  }

  lemma {:induction false} InsertAllSorts(l: seq<Proc>, more: seq<Proc>)
    requires forall p :: p in more ==> 0 <= p.priority <= LOWEST
    ensures InsertAll(StableSort(l), more) == StableSort(l + more)
    decreases |more|
  {
    hide StableSort;
    if more == [] {
      assert l + more == l;
    } else {
      assert more[0] in more;
      StableSortAppend(l, more[0]);
      InsertAllSorts(l + [more[0]], more[1..]);
      assert l + [more[0]] + more[1..] == l + more;
    }
  }

  // ----- One step of the walk -----

  lemma FindsHead(s: Sys)
    requires s.suspendedReady != [] && !Shadowed(s, s.suspendedReady[0].name)
    ensures Find(s, s.suspendedReady[0].name) == Some(s.suspendedReady[0])
  {
    var h := s.suspendedReady[0];
    var rest := s.suspendedReady + s.suspendedBlocked;
    FirstNamedConcat(s.ready + s.blocked, rest, h.name);
    FirstNamedFound(s.ready + s.blocked, h.name);
    assert Queued(s) == s.ready + s.blocked + rest;
    assert rest[0] == h;
  }

  lemma ResumesHead(s: Sys)
    requires Inv(s) && s.suspendedReady != [] && Resumable(s)
    ensures var h, t := s.suspendedReady[0], Resume(s, s.suspendedReady[0].name).0;
      && t == s.(suspendedReady := s.suspendedReady[1..], ready := InsertByPriority(s.ready, h.(dispatch := Active)),
                 arrived := s.arrived + [h.(dispatch := Active)])
      && Inv(t) && Resumable(t)
  {
    hide Partition, Ordered, Spaced, Resumable, InsertByPriority, Find, Shadowed;
    var h, t := s.suspendedReady[0], Resume(s, s.suspendedReady[0].name).0;
    assert h in s.suspendedReady;
    assert Recorded(s.live, h) && Home(h) == SuspendedReadyQ;
    HeadNotShadowed(s);
    FindsHead(s);
    ResumeKeeps(s, h.name);
    assert Without(s.suspendedReady, h.addr) == s.suspendedReady[1..];
    StillResumable(s, t, h.(dispatch := Active));
  }

  lemma HeadNotShadowed(s: Sys)
    requires Resumable(s) && s.suspendedReady != []
    ensures !Shadowed(s, s.suspendedReady[0].name)
  {
    assert s.suspendedReady[0] in s.suspendedReady;
  }

  lemma StillResumable(s: Sys, t: Sys, h': Proc)
    requires Resumable(s) && s.suspendedReady != [] && h'.name == s.suspendedReady[0].name
    requires t.suspendedReady == s.suspendedReady[1..] && t.blocked == s.blocked
    requires t.ready == InsertByPriority(s.ready, h')
    ensures Resumable(t)
  {
    hide InsertByPriority;
    InsertMembers(s.ready, h');
    forall p | p in t.suspendedReady ensures !Shadowed(t, p.name) {
      var j :| 0 <= j < |t.suspendedReady| && t.suspendedReady[j] == p;
      assert s.suspendedReady[j + 1] == p && p in s.suspendedReady;
      assert !Shadowed(s, p.name);
      forall r | r in t.ready + t.blocked ensures r.name != p.name {
        if r != h' { assert r in s.ready + s.blocked; }
      }
    }
  }

  /** One step of the walk in general, when the blocks before `h` could not be resumed. */
  lemma WalkStep(s: Sys, kept: seq<Proc>, h: Proc, rest: seq<Proc>)
    requires Inv(s) && s.suspendedReady == kept + [h] + rest
    requires forall p :: p in kept ==> Shadowed(s, p.name)
    ensures h.name != "" && Home(h) == SuspendedReadyQ && h.dispatch == Suspended && Find(s, h.name).Some?
    ensures var t := Resume(s, h.name).0;
      if Shadowed(s, h.name) then t == s && Find(s, h.name).value.dispatch == Active
      else Find(s, h.name) == Some(h) && forall p :: p in kept ==> Shadowed(t, p.name)
  {
    hide Partition, Ordered, Spaced, StableSort;
    var front, back := s.ready + s.blocked, s.suspendedReady + s.suspendedBlocked;
    assert h in s.suspendedReady;
    assert Recorded(s.live, h) && Home(h) == SuspendedReadyQ;
    assert Queued(s) == front + back;
    FirstNamedConcat(front, back, h.name);
    FirstNamedFound(front, h.name);
    if Shadowed(s, h.name) {
      var p := FirstNamed(front, h.name).value;
      assert p in s.ready || p in s.blocked;
    } else {
      assert back[|kept|] == h;
      forall j | 0 <= j < |kept| ensures back[j].name != h.name { assert back[j] == kept[j] && kept[j] in kept; }
      FirstNamedAt(back, |kept|, h.name);
      var h' := h.(dispatch := Active);
      InsertMembers(s.ready, h');
      forall p | p in kept ensures Shadowed(Resume(s, h.name).0, p.name) {
        var q :| q in front && q.name == p.name;
        assert q in s.ready || q in s.blocked;
        var t := Resume(s, h.name).0;
        assert q in t.ready + t.blocked;
      }
    }
  }

  lemma AppendAssociates(a: seq<Proc>, p: Proc, b: seq<Proc>)
    ensures a + [p] + b == a + ([p] + b)
  {
  }

  /** When nothing stands in the way, everything suspended-ready becomes ready, in its order. */
  lemma {:induction false} ClearsWhenResumable(s: Sys)
    requires Inv(s) && Resumable(s)
    ensures ResumeAll(s) == s.(suspendedReady := [], ready := InsertAll(s.ready, Activated(s.suspendedReady)),
                               arrived := s.arrived + Activated(s.suspendedReady))
    decreases |s.suspendedReady|
  {
    hide Inv, Resumable, Resume, StableSort, InsertByPriority;
    var q := s.suspendedReady;
    if q == [] {
      assert s.arrived + Activated(q) == s.arrived;
    } else {
      var t := Resume(s, q[0].name).0;
      ResumesHead(s);
      ClearsWhenResumable(t);
      assert Activated(q) == [q[0].(dispatch := Active)] + Activated(q[1..]);
      AppendAssociates(s.arrived, q[0].(dispatch := Active), Activated(q[1..]));
    }
  }

  // ----- Why it fails otherwise -----

  /** A name that will keep a block in the suspended-ready queue. */
  ghost predicate Clogged(s: Sys, name: string) {
    && (exists p :: p in s.suspendedReady && p.name == name)
    && (Shadowed(s, name)
        || exists i, j :: 0 <= i < j < |s.suspendedReady|
                       && s.suspendedReady[i].name == name == s.suspendedReady[j].name)
  }

  lemma CloggedIff(s: Sys)
    ensures Resumable(s) <==> forall name :: !Clogged(s, name)
  {
    if !Resumable(s) {
      if p :| p in s.suspendedReady && Shadowed(s, p.name) {
        assert Clogged(s, p.name);
      } else {
        var i, j :| 0 <= i < j < |s.suspendedReady| && s.suspendedReady[i].name == s.suspendedReady[j].name;
        assert s.suspendedReady[i] in s.suspendedReady;
        assert Clogged(s, s.suspendedReady[i].name);
      }
    }
  }

  lemma StaysClogged(s: Sys, name: string, other: string)
    requires Inv(s) && Clogged(s, name)
    ensures Clogged(Resume(s, other).0, name)
  {
    Found(s, other);
    var f := Find(s, other);
    if f.Some? && f.value.dispatch.Suspended? {
      StaysCloggedMoving(s, name, f.value);
    }
  }

  lemma LeavesSuspendedReady(s: Sys, p: Proc) returns (x: nat)
    requires Partition(s, {}) && p in s.suspendedReady && Home(p) == SuspendedReadyQ
    ensures var q, t := s.suspendedReady, Move(s, p, p.(dispatch := Active));
      x < |q| && q[x] == p && t.suspendedReady == q[..x] + q[x + 1..] && p.(dispatch := Active) in t.ready
  {
    var q := s.suspendedReady;
    x :| 0 <= x < |q| && q[x] == p;
    QueueDistinct(s, {}, SuspendedReadyQ);
    WithoutAt(q, x);
    InsertMembers(s.ready, p.(dispatch := Active));
  }

  lemma CloggedAfter(s: Sys, t: Sys, x: nat, p': Proc, name: string)
    requires Clogged(s, name) && x < |s.suspendedReady|
    requires t.suspendedReady == s.suspendedReady[..x] + s.suspendedReady[x + 1..]
    requires p' in t.ready && p'.name == s.suspendedReady[x].name && !Shadowed(s, p'.name)
    requires Shadowed(s, name) ==> Shadowed(t, name)
    ensures Clogged(t, name)
  {
    var q := s.suspendedReady;
    if p'.name == name {
      assert p' in t.ready + t.blocked;
      OneOfTwoStays(q, x, name);
    } else {
      OthersStay(q, x, name);
    }
  }

  lemma StaysCloggedMoving(s: Sys, name: string, p: Proc)
    requires Inv(s) && Clogged(s, name)
    requires p in Queue(s, Home(p)) && Find(s, p.name) == Some(p) && p.dispatch.Suspended?
    ensures Clogged(Move(s, p, p.(dispatch := Active)), name)
  {
    var t := Move(s, p, p.(dispatch := Active));
    StillShadowed(s, p);
    if Home(p) == SuspendedReadyQ {
      var x := LeavesSuspendedReady(s, p);
      if Shadowed(s, p.name) { ShadowedFound(s, p.name); }
      hide Inv, Move, Find, Clogged, Shadowed;
      CloggedAfter(s, t, x, p.(dispatch := Active), name);
    } else {
      hide Inv, Find, Shadowed;
    }
  }

  lemma StillShadowed(s: Sys, p: Proc)
    requires p in Queue(s, Home(p)) && p.dispatch.Suspended?
    ensures forall name :: Shadowed(s, name) ==> Shadowed(Move(s, p, p.(dispatch := Active)), name)
  {
    var p' := p.(dispatch := Active);
    var t := Move(s, p, p');
    InsertMembers(s.ready, p');
    forall name | Shadowed(s, name) ensures Shadowed(t, name) {
      var r :| r in s.ready + s.blocked && r.name == name;
      assert r in t.ready + t.blocked;
    }
  }

  lemma ShadowedFound(s: Sys, name: string)
    requires Homed(s) && Shadowed(s, name)
    ensures Find(s, name).Some? && Find(s, name).value.dispatch.Active?
  {
    var x := s.ready + s.blocked;
    FirstNamedFound(x, name);
    FirstNamedConcat(x, s.suspendedReady + s.suspendedBlocked, name);
    assert Queued(s) == x + (s.suspendedReady + s.suspendedBlocked);
    var r := FirstNamed(x, name).value;
    assert r in s.ready || r in s.blocked;
  }

  lemma OneOfTwoStays(q: seq<Proc>, x: nat, name: string)
    requires x < |q| && exists i, j :: 0 <= i < j < |q| && q[i].name == name == q[j].name
    ensures exists p :: p in q[..x] + q[x + 1..] && p.name == name
  {
    var i, j :| 0 <= i < j < |q| && q[i].name == name == q[j].name;
    var r := q[..x] + q[x + 1..];
    if i < x { assert r[i] == q[i]; } else { assert r[j - 1] == q[j]; }
  }

  lemma OthersStay(q: seq<Proc>, x: nat, name: string)
    requires x < |q| && q[x].name != name
    ensures var r := q[..x] + q[x + 1..];
      && ((exists p :: p in q && p.name == name) ==> (exists p :: p in r && p.name == name))
      && ((exists i, j :: 0 <= i < j < |q| && q[i].name == name == q[j].name) ==>
          (exists i, j :: 0 <= i < j < |r| && r[i].name == name == r[j].name))
  {
    var r := q[..x] + q[x + 1..];
    if p :| p in q && p.name == name {
      var i :| 0 <= i < |q| && q[i] == p;
      assert r[if i < x then i else i - 1] == p;
    }
    if i, j :| 0 <= i < j < |q| && q[i].name == name == q[j].name {
      var i', j' := if i < x then i else i - 1, if j < x then j else j - 1;
      assert r[i'] == q[i] && r[j'] == q[j];
    }
  }

  lemma {:induction false} CloggedThroughout(s: Sys, todo: seq<Proc>, name: string)
    requires Inv(s) && Clogged(s, name)
    ensures Clogged(ResumeEach(s, todo), name)
    decreases |todo|
  {
    if todo != [] {
      StaysClogged(s, name, todo[0].name);
      ResumeKeeps(s, todo[0].name);
      CloggedThroughout(Resume(s, todo[0].name).0, todo[1..], name);
    }
  }

  /** `resume all` empties the suspended-ready queue exactly when its names are found there. */
  lemma ResumeAllClearsIff(s: Sys)
    requires Inv(s)
    ensures ResumeAll(s).suspendedReady == [] <==> Resumable(s)
  {
    if Resumable(s) {
      ClearsWhenResumable(s);
    } else {
      CloggedIff(s);
      var name :| Clogged(s, name);
      CloggedThroughout(s, s.suspendedReady, name);
    }
  }

  /** Names that are unique are always found. */
  lemma UniqueNamesResumable(s: Sys)
    requires Inv(s) && UniqueNames(s)
    ensures Resumable(s)
  {
    forall p | p in s.suspendedReady ensures !Shadowed(s, p.name) {
      assert p in Queue(s, SuspendedReadyQ);
      UniqueMeansOnly(s, SuspendedReadyQ, p);
      forall r | r in s.ready + s.blocked ensures r.name != p.name {
        assert r in Queue(s, ReadyQ) || r in Queue(s, BlockedQ);
        assert Home(r) != Home(p);
      }
    }
    QueueDistinct(s, {}, SuspendedReadyQ);
    var q := s.suspendedReady;
    forall i, j | 0 <= i < j < |q| ensures q[i].name != q[j].name {
      assert q[i] in Queue(s, SuspendedReadyQ) && q[j] in Queue(s, SuspendedReadyQ);
      UniqueMeansOnly(s, SuspendedReadyQ, q[i]);
    }
  }

  /** With unique names: both blocked queues are left alone and the ready queue is the stable
      sort of the old ready queue followed by the old suspended-ready queue. */
  lemma ResumeAllSorts(s: Sys)
    requires Inv(s) && UniqueNames(s)
    ensures var t := ResumeAll(s);
      && t == s.(suspendedReady := [], ready := t.ready, arrived := t.arrived)
      && t.ready == StableSort(s.ready + Activated(s.suspendedReady))
  {
    hide Inv, UniqueNames, Resumable, ResumeAll, StableSort, Sorted, InsertAll, Activated;
    UniqueNamesResumable(s);
    ClearsWhenResumable(s);
    PrioritiesInRange(s);
    StableSortSorted(s.ready);
    InsertAllSorts(s.ready, Activated(s.suspendedReady));
  }

  lemma PrioritiesInRange(s: Sys)
    requires Inv(s)
    ensures Sorted(s.ready) && forall p :: p in s.ready ==> 0 <= p.priority <= LOWEST
    ensures forall p :: p in Activated(s.suspendedReady) ==> 0 <= p.priority <= LOWEST
  {
    hide Partition, Ordered, Spaced, Activated, Sorted;
    ReadySorted(s);
    assert forall p :: p in s.ready ==> Recorded(s.live, p);
    forall p | p in Activated(s.suspendedReady) ensures 0 <= p.priority <= LOWEST {
      var i :| 0 <= i < |s.suspendedReady| && Activated(s.suspendedReady)[i] == p;
      assert s.suspendedReady[i] in s.suspendedReady;
      assert Recorded(s.live, s.suspendedReady[i]);
    }
  }

  /** What `resume all` does in the program, where only commhand loads: it empties its queue, on
      every run from boot, into the stable sort. */
  lemma ResumeAllFromBoot(es: seq<Event>)
    requires CommhandLoads(Boot(), es)
    ensures var s := Run(Boot(), es);
      var t := ResumeAll(s);
      && t == s.(suspendedReady := [], ready := t.ready, arrived := t.arrived)
      && t.ready == StableSort(s.ready + Activated(s.suspendedReady))
  {
    hide Inv, UniqueNames, Boot, Run, ResumeAll, StableSort;
    NamesFromBoot(es);
    ResumeAllSorts(Run(Boot(), es));
  }

  // ----- What a load by another process would bring about -----

  /** proc1 is loaded and runs; its own name is loaded again, and that block suspended; proc1 yields. */
  const SHADOWING := [DoLoadProcess("proc1"), Call(IDLE), DoLoadProcess("proc1"), DoSuspend("proc1"), Call(IDLE)]

  /** On, with nothing blocked. */
  ghost predicate Stands(s: Sys, cur: Proc, ready: seq<Proc>, suspendedReady: seq<Proc>) {
    && Inv(s) && s.status == Live && s.running == Some(cur) && s.ready == ready
    && s.suspendedReady == suspendedReady && s.blocked == s.suspendedBlocked == []
  }

  lemma LoadStands(s: Sys, cur: Proc, q: seq<Proc>)
    requires Stands(s, cur, q, []) && forall p :: p in q ==> p.name != "proc1"
    requires s.heap + PCB_SIZE + STACK_SIZE <= KernelHeap.BASE + KernelHeap.SIZE
    ensures var p, t := Proc(s.heap, "proc1", UserClass, 1, Ready, Active), Step(s, DoLoadProcess("proc1"));
      Stands(t, cur, InsertByPriority(q, p), []) && t.heap == s.heap + PCB_SIZE + STACK_SIZE
  {
    hide Inv, InsertByPriority, Load, Find;
    LoadKeeps(s, "proc1", UserClass, 1);
    assert Find(s, "proc1") == None by { FoundReady(s, "proc1"); }
    LoadWorks(s, "proc1", UserClass, 1);
  }

  lemma FoundReady(s: Sys, name: string)
    requires s.suspendedReady == s.blocked == s.suspendedBlocked == []
    ensures Find(s, name) == FirstNamed(s.ready, name)
    ensures (forall p :: p in s.ready ==> p.name != name) ==> Find(s, name) == None
  {
    assert Queued(s) == s.ready;
    FirstNamedFound(s.ready, name);
  }

  lemma IdleStands(s: Sys, cur: Proc, q: seq<Proc>, r: seq<Proc>)
    requires Stands(s, cur, q, r) && q != []
    ensures Stands(Step(s, Call(IDLE)), q[0], InsertByPriority(q[1..], cur), r)
    ensures Step(s, Call(IDLE)).heap == s.heap
  {
    hide Partition, Ordered, Spaced, InsertByPriority, Idle;
    IdleKeeps(s);
    IdleShape(s);
    IdleFrame(s);
    assert q[0] in s.ready;
    IdleQueues(s);
  }

  lemma SuspendStands(s: Sys, cur: Proc, c: Proc, p: Proc, i: Proc)
    requires Stands(s, cur, [c, p, i], []) && c.name != p.name == "proc1" && p.class_ == UserClass && Home(p) == ReadyQ
    ensures Stands(Step(s, DoSuspend("proc1")), cur, [c, i], [p.(dispatch := Suspended)])
  {
    hide Partition, Ordered, Spaced, InsertByPriority, Find, Without;
    SuspendKeeps(s, "proc1");
    FoundReady(s, "proc1");
    FirstNamedAt([c, p, i], 1, "proc1");
    QueueDistinct(s, {}, ReadyQ);
    WithoutAt([c, p, i], 1);
    assert [c, p, i][..1] + [c, p, i][2..] == [c, i];
  }

  lemma NotResumable(s: Sys, p: Proc)
    requires |s.ready| > 0 && s.suspendedReady == [p] && s.ready[0].name == p.name
    ensures !Resumable(s)
  {
    assert s.ready[0] in s.ready + s.blocked;
    assert p in s.suspendedReady;
    assert Shadowed(s, p.name);
  }

  lemma InsertThree(c: Proc, i: Proc, a: Proc)
    requires c.priority < a.priority < i.priority
    ensures InsertByPriority([i], a) == [a, i] && InsertByPriority([i], c) == [c, i]
    ensures InsertByPriority([c, i], a) == [c, a, i]
    ensures [a, i][1..] == [i] && [c, i][1..] == [i]
  {
    assert [a, i][1..] == [i] && [c, i][1..] == [i];
    assert InsertByPriority([c, i], a) == [c] + InsertByPriority([i], a);
  }

  /** If another process than commhand could load, the queue need not be emptied. */
  lemma ResumeAllCanFail(s0: Sys)
    requires s0 == Boot()
    ensures ResumeAll(Run(s0, SHADOWING)).suspendedReady != [] && !CommhandLoads(s0, SHADOWING)
  {
    hide Inv, Boot, BeforeFirstTrap, Step, InsertByPriority, Resumable, ResumeAll;
    BootState();
    var c, i := s0.running.value, s0.ready[0];
    var a1 := Proc(s0.heap, "proc1", UserClass, 1, Ready, Active);
    var a2 := Proc(s0.heap + PCB_SIZE + STACK_SIZE, "proc1", UserClass, 1, Ready, Active);
    assert |c.name| != |a1.name| && |i.name| != |a1.name|;
    InsertThree(c, i, a1);
    InsertThree(c, i, a2);
    LoadStands(s0, c, [i]);
    var s1 := Step(s0, SHADOWING[0]);
    IdleStands(s1, c, [a1, i], []);
    var s2 := Step(s1, SHADOWING[1]);
    LoadStands(s2, a1, [c, i]);
    var s3 := Step(s2, SHADOWING[2]);
    SuspendStands(s3, a1, c, a2, i);
    var s4 := Step(s3, SHADOWING[3]);
    IdleStands(s4, a1, [c, i], [a2.(dispatch := Suspended)]);
    var s5 := Step(s4, SHADOWING[4]);
    NotResumable(s5, a2.(dispatch := Suspended));
    ResumeAllClearsIff(s5);
    ShadowingRuns(s0);
  }

  lemma ShadowingRuns(s0: Sys)
    ensures Run(s0, SHADOWING) ==
      Step(Step(Step(Step(Step(s0, SHADOWING[0]), SHADOWING[1]), SHADOWING[2]), SHADOWING[3]), SHADOWING[4])
    ensures CommhandLoads(s0, SHADOWING) ==> RunningIsNamed(Step(Step(s0, SHADOWING[0]), SHADOWING[1]), "commhand")
  {
    hide Step;
    var e1, e2, e3, e4 := SHADOWING[1..], SHADOWING[2..], SHADOWING[3..], SHADOWING[4..];
    assert e1[1..] == e2 && e2[1..] == e3 && e3[1..] == e4 && e4[1..] == [];
    assert e1[0] == SHADOWING[1] && e2[0] == SHADOWING[2] && e3[0] == SHADOWING[3] && e4[0] == SHADOWING[4];
  }
}
