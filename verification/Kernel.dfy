/** The kernel's process table on the heap: the four linked queues, the running block and the
    memory that holds the contexts. Every method is proved against its step on values. */
module Kernels {
  import opened Processes
  import opened PcbQueues
  import SystemState
  import opened Invariants
  import Commands
  import ResumingAll
  import opened ContextSwitch
  import Strings
  import KernelHeap

  /** Linked into no queue. */
  ghost predicate Loose(p: Pcb?)
    reads p
  {
    p != null ==> p.next == null && p.prev == null
  }

  ghost predicate AllHome(elems: seq<Pcb>, k: QueueId)
    reads elems
  {
    forall i :: 0 <= i < |elems| ==> Home(elems[i].Snap()) == k
  }

  /** A valid queue all of whose blocks belong in the queue k. */
  ghost predicate At(q: PcbQueue, k: QueueId)
    reads q, q.elems
  {
    q.Valid() && AllHome(q.elems, k)
  }

  ghost function Blocks(elems: seq<Pcb>): set<Pcb> {
    set p | p in elems
  }

  lemma InBlocks(elems: seq<Pcb>, p: Pcb)
    ensures p in Blocks(elems) <==> p in elems
  {
  }

  /** The elements without one of them. */
  ghost function Omit(elems: seq<Pcb>, p: Pcb): seq<Pcb> {
    if elems == [] then [] else if elems[0] == p then elems[1..] else [elems[0]] + Omit(elems[1..], p)
  }

  lemma {:induction false} OmitAt(elems: seq<Pcb>, at: nat)
    requires at < |elems| && forall i :: 0 <= i < at ==> elems[i] != elems[at]
    ensures Omit(elems, elems[at]) == elems[..at] + elems[at + 1..]
  {
    if at > 0 {
      OmitAt(elems[1..], at - 1);
      assert elems[..at] == [elems[0]] + elems[1..][..at - 1];
      assert elems[at + 1..] == elems[1..][at..];
    }
  }

  lemma {:induction false} OmitAbsent(elems: seq<Pcb>, p: Pcb)
    requires p !in elems
    ensures Omit(elems, p) == elems
  {
    if elems != [] {
      OmitAbsent(elems[1..], p);
    }
  }

  /** The queue part of `pcb_insert`: by priority in the ready queue, at the tail elsewhere. */
  method Enqueue(q: PcbQueue, p: Pcb, isReady: bool, ghost k: QueueId) returns (ghost at: nat)
    requires At(q, k) && Home(p.Snap()) == k && p.next == null && p.prev == null
    requires forall i :: 0 <= i < |q.elems| ==> q.elems[i].addr != p.addr
    modifies q, p`next, p`prev, q.elems`next, q.elems`prev
    ensures At(q, k) && at <= old(|q.elems|) && q.elems == old(q.elems[..at] + [p] + q.elems[at..])
    ensures Blocks(q.elems) == old(Blocks(q.elems)) + {p}
    ensures q.Contents() ==
      if isReady then InsertByPriority(old(q.Contents()), p.Snap()) else old(q.Contents()) + [p.Snap()]
  {
    hide Snaps, InsertByPriority;
    ghost var es, was := q.elems, Snaps(q.elems);
    if isReady {
      at := q.InsertByPriority(p);
      SnapsInserted(es, p, at, was);
    } else {
      q.Append(p);
      at := |es|;
      assert es[..at] + [p] + es[at..] == es + [p];
      SnapsAppended(es, p, was);
    }
  }

  /** The queue part of `pcb_remove`, for a member. */
  method Dequeue(q: PcbQueue, p: Pcb, ghost at: nat, ghost k: QueueId)
    requires At(q, k) && at < |q.elems| && q.elems[at] == p
    modifies q, q.elems`next, q.elems`prev
    ensures At(q, k) && p.next == null && p.prev == null
    ensures q.elems == Omit(old(q.elems), p)
    ensures Blocks(q.elems) <= old(Blocks(q.elems)) - {p}
    ensures q.Contents() == Without(old(q.Contents()), p.addr)
  {
    hide Snaps, Without, Omit;
    ghost var es, was := q.elems, Snaps(q.elems);
    OmitAt(es, at);
    q.Unlink(p, at);
    SnapsRemoved(es, at, was);
  }

  /** Memory outside the kernel's own structures: the stacks, where new contexts are written. */
  class Ram {
    var words: Memory
  }

  /** Where the programs of the five processes begin. */
  function ProgramsOf(entries: seq<int>): map<string, int>
    requires |entries| == 5
  {
    map["proc1" := entries[0], "proc2" := entries[1], "proc3" := entries[2],
        "proc4" := entries[3], "proc5" := entries[4]]
  }

  lemma ProgramsListed(entries: seq<int>)
    requires |entries| == 5
    ensures var m := ProgramsOf(entries);
      && "proc1" in m && "proc2" in m && "proc3" in m && "proc4" in m && "proc5" in m
      && m["proc1"] == entries[0] && m["proc2"] == entries[1] && m["proc3"] == entries[2]
      && m["proc4"] == entries[3] && m["proc5"] == entries[4]
  {
    assert "proc1"[4] == '1' && "proc2"[4] == '2' && "proc3"[4] == '3' && "proc4"[4] == '4' && "proc5"[4] == '5';
  }

  class Kernel {
    const ram: Ram
    const ready: PcbQueue
    const blocked: PcbQueue
    const suspendedReady: PcbQueue
    const suspendedBlocked: PcbQueue
    var cur: Pcb?
    var heap: int
    var status: SystemState.Status
    ghost var live: map<int, string>
    ghost var arrived: seq<Proc>

    /** The queues and the blocks in them. */
    ghost function Cells(): set<object>
      reads ready, blocked, suspendedReady, suspendedBlocked
    {
      {ready, blocked, suspendedReady, suspendedBlocked} +
      Blocks(ready.elems) + Blocks(blocked.elems) +
      Blocks(suspendedReady.elems) + Blocks(suspendedBlocked.elems)
    }

    ghost function Repr(): set<object>
      reads this`cur, ready, blocked, suspendedReady, suspendedBlocked
    {
      {this} + Cells() + (if cur == null then {} else {cur})
    }

    ghost function Pcbs(): set<Pcb>
      reads this`cur, ready, blocked, suspendedReady, suspendedBlocked
    {
      set p: Pcb | p in Repr()
    }

    ghost function State(): SystemState.Sys
      reads this, Repr()
    {
      SystemState.Sys(ready.Contents(), blocked.Contents(), suspendedReady.Contents(), suspendedBlocked.Contents(),
                      if cur == null then None else Some(cur.Snap()), heap, status, live, arrived)
    }

    ghost function QueueAt(k: QueueId): PcbQueue {
      match k
      case ReadyQ => ready
      case BlockedQ => blocked
      case SuspendedReadyQ => suspendedReady
      case SuspendedBlockedQ => suspendedBlocked
    }

    /** Four separate well-linked queues, each holding what the flags say. */
    ghost predicate Linked()
      reads Cells()
    {
      && (forall j, k :: j != k ==> QueueAt(j) != QueueAt(k))
      && (forall k :: At(QueueAt(k), k))
    }

    ghost predicate Valid()
      reads this, Repr()
    {
      && Linked() && Inv(State())
      && Loose(cur)
    }

    constructor (ram: Ram)
      ensures Valid() && State() == SystemState.EMPTY && fresh(Repr()) && this.ram == ram && Contexts(map[])
    {
      hide State, Repr, Valid, PcbQueue.Valid;
      this.ram := ram;
      ready := new PcbQueue();
      blocked := new PcbQueue();
      suspendedReady := new PcbQueue();
      suspendedBlocked := new PcbQueue();
      cur, heap, status, live, arrived := null, KernelHeap.BASE, SystemState.Live, map[], [];
      new;
      AllEmpty();
    }

    lemma AllEmpty()
      requires forall j :: QueueAt(j).Valid() && QueueAt(j).elems == []
      requires ready != blocked && ready != suspendedReady && ready != suspendedBlocked
      requires blocked != suspendedReady && blocked != suspendedBlocked && suspendedReady != suspendedBlocked
      requires cur == null && heap == KernelHeap.BASE && status == SystemState.Live && live == map[] && arrived == []
      ensures Valid() && State() == SystemState.EMPTY
      ensures Repr() == {this, ready, blocked, suspendedReady, suspendedBlocked}
    {
      hide Inv;
      EmptyInv();
      assert forall k :: At(QueueAt(k), k);
      assert QueueAt(ReadyQ).elems == [] && QueueAt(BlockedQ).elems == [];
      assert QueueAt(SuspendedReadyQ).elems == [] && QueueAt(SuspendedBlockedQ).elems == [];
      assert Blocks([]) == {};
    }

    /** The queue is chosen from the flags at each insertion and removal. */
    method Choose(p: Pcb) returns (q: PcbQueue)
      ensures q == QueueAt(Home(p.Snap()))
    {
      if p.dispatch == Suspended {
        if p.exec == Blocked { q := suspendedBlocked; } else { q := suspendedReady; }
      } else {
        if p.exec == Blocked { q := blocked; } else { q := ready; }
      }
    }

    /** Blocks of different queues differ, as their flags do. */
    lemma Separate(j: QueueId, k: QueueId)
      requires Linked() && j != k
      ensures forall x :: x in QueueAt(j).elems ==> x !in QueueAt(k).elems
      ensures forall p: Pcb :: Home(p.Snap()) == k ==> p !in QueueAt(j).elems
    {
      assert At(QueueAt(j), j) && At(QueueAt(k), k);
    }

    /** The scalar part of the state. */
    ghost predicate Rest(s: SystemState.Sys)
      reads this, if cur == null then {} else {cur}
    {
      && s.running == (if cur == null then None else Some(cur.Snap()))
      && s.heap == heap && s.status == status && s.live == live && s.arrived == arrived
    }

    lemma Assembled(s: SystemState.Sys)
      requires Rest(s) && forall k :: QueueAt(k).Contents() == SystemState.Queue(s, k)
      ensures State() == s
    {
      assert QueueAt(ReadyQ).Contents() == s.ready;
      assert QueueAt(BlockedQ).Contents() == s.blocked;
      assert QueueAt(SuspendedReadyQ).Contents() == s.suspendedReady;
      assert QueueAt(SuspendedBlockedQ).Contents() == s.suspendedBlocked;
    }

    lemma Taken(k: QueueId)
      ensures QueueAt(k).Contents() == SystemState.Queue(State(), k)
      ensures Rest(State())
    {
    }

    ghost predicate NoneAt(a: int)
      reads ready, blocked, suspendedReady, suspendedBlocked
    {
      forall j, i :: 0 <= i < |QueueAt(j).elems| ==> QueueAt(j).elems[i].addr != a
    }

    lemma NoneIn(k: QueueId, a: int)
      requires NoneAt(a)
      ensures forall i :: 0 <= i < |QueueAt(k).elems| ==> QueueAt(k).elems[i].addr != a
    {
    }

    /** The running block is linked nowhere. */
    ghost predicate CurApart()
      reads this`cur, cur, ready, blocked, suspendedReady, suspendedBlocked
    {
      Loose(cur) && (cur != null ==> forall k :: cur !in Blocks(QueueAt(k).elems))
    }

    /** `pcb_insert`, on the queue the flags choose; the other three are left alone. */
    method InsertLinks(p: Pcb)
      requires Linked() && p.next == null && p.prev == null
      requires var q := QueueAt(Home(p.Snap())); forall i :: 0 <= i < |q.elems| ==> q.elems[i].addr != p.addr
      modifies QueueAt(Home(p.Snap())), p`next, p`prev
      modifies QueueAt(Home(p.Snap())).elems`next, QueueAt(Home(p.Snap())).elems`prev
      ensures Linked() && Blocks(QueueAt(Home(p.Snap())).elems) == old(Blocks(QueueAt(Home(p.Snap())).elems)) + {p}
      ensures p.Snap() == old(p.Snap())
      ensures Home(p.Snap()) != SuspendedReadyQ ==> suspendedReady.elems == old(suspendedReady.elems)
      ensures cur != null && cur != p && cur !in old(QueueAt(Home(p.Snap())).elems) ==>
        cur.next == old(cur.next) && cur.prev == old(cur.prev)
      ensures forall j :: j != Home(p.Snap()) ==>
        QueueAt(j).Contents() == old(QueueAt(j).Contents()) && QueueAt(j).elems == old(QueueAt(j).elems)
      ensures var k := Home(p.Snap()); var was := old(QueueAt(k).Contents());
        QueueAt(k).Contents() == if k == ReadyQ then InsertByPriority(was, p.Snap()) else was + [p.Snap()]
    {
      hide Snaps, InsertByPriority, Blocks, PcbQueue.Valid, PcbQueue.Contents;
      ghost var k := Home(p.Snap());
      var q := Choose(p);
      assert QueueAt(ReadyQ) == ready && QueueAt(SuspendedReadyQ) == suspendedReady;
      forall j | j != k ensures p !in QueueAt(j).elems && forall x :: x in QueueAt(j).elems ==> x !in q.elems {
        Separate(j, k);
      }
      ghost var at := Enqueue(q, p, q == ready, k);
      forall j | j != k ensures At(QueueAt(j), j) && QueueAt(j).Contents() == old(QueueAt(j).Contents()) {
      }
    }

    method Insert(p: Pcb)
      requires Linked() && p.next == null && p.prev == null && NoneAt(p.addr)
      modifies this`arrived, QueueAt(Home(p.Snap())), p`next, p`prev
      modifies QueueAt(Home(p.Snap())).elems`next, QueueAt(Home(p.Snap())).elems`prev
      ensures Linked() && State() == SystemState.Insert(old(State()), p.Snap())
      ensures Repr() <= old(Repr()) + {p}
      ensures forall j ::
        Blocks(QueueAt(j).elems) == old(Blocks(QueueAt(j).elems)) + if j == Home(p.Snap()) then {p} else {}
      ensures cur == old(cur) && p.Snap() == old(p.Snap()) && (old(CurApart()) && p != cur ==> CurApart())
      ensures Home(p.Snap()) != SuspendedReadyQ ==> suspendedReady.elems == old(suspendedReady.elems)
    {
      hide Snaps, InsertByPriority, PcbQueue.Contents, Blocks, PcbQueue.Valid, AllHome, SystemState.Insert, NoneAt;
      ghost var k, now := Home(p.Snap()), SystemState.Insert(State(), p.Snap());
      forall j { Taken(j); }
      InsertedQueue(State(), p.Snap());
      NoneIn(k, p.addr);
      if cur != null { InBlocks(QueueAt(k).elems, cur); }
      InsertLinks(p);
      if k == ReadyQ { arrived := arrived + [p.Snap()]; }
      Assembled(now);
    }

    /** `pcb_remove`, for a member of the queue its flags name. */
    method RemoveLinks(p: Pcb)
      requires Linked() && p in QueueAt(Home(p.Snap())).elems
      modifies QueueAt(Home(p.Snap()))
      modifies QueueAt(Home(p.Snap())).elems`next, QueueAt(Home(p.Snap())).elems`prev
      ensures Linked() && p.next == null && p.prev == null
      ensures Blocks(QueueAt(Home(p.Snap())).elems) <= old(Blocks(QueueAt(Home(p.Snap())).elems)) - {p}
      ensures forall j :: j != Home(p.Snap()) ==>
        QueueAt(j).Contents() == old(QueueAt(j).Contents()) && QueueAt(j).elems == old(QueueAt(j).elems)
        && p !in QueueAt(j).elems
      ensures suspendedReady.elems == Omit(old(suspendedReady.elems), p)
      ensures QueueAt(Home(p.Snap())).Contents() == Without(old(QueueAt(Home(p.Snap())).Contents()), p.addr)
    {
      hide Snaps, Without, Omit, Blocks, PcbQueue.Valid, PcbQueue.Contents;
      ghost var k := Home(p.Snap());
      var q := Choose(p);
      forall j | j != k ensures p !in QueueAt(j).elems && forall x :: x in QueueAt(j).elems ==> x !in q.elems {
        Separate(j, k);
      }
      ghost var es := q.elems;
      ghost var at :| 0 <= at < |es| && es[at] == p;
      if k != SuspendedReadyQ {
        assert p !in QueueAt(SuspendedReadyQ).elems;
        OmitAbsent(suspendedReady.elems, p);
      }
      Dequeue(q, p, at, k);
      forall j | j != k ensures At(QueueAt(j), j) && QueueAt(j).Contents() == old(QueueAt(j).Contents()) {
      }
    }

    method Remove(p: Pcb)
      requires Linked() && p in QueueAt(Home(p.Snap())).elems && p != cur
      modifies this`arrived, QueueAt(Home(p.Snap()))
      modifies QueueAt(Home(p.Snap())).elems`next, QueueAt(Home(p.Snap())).elems`prev
      ensures Linked() && p.next == null && p.prev == null && Repr() <= old(Repr())
      ensures forall j :: Blocks(QueueAt(j).elems) <= old(Blocks(QueueAt(j).elems)) - {p}
      ensures cur == old(cur) && p.Snap() == old(p.Snap()) && (old(CurApart()) ==> CurApart())
      ensures State() == SystemState.Remove(old(State()), p.Snap())
      ensures suspendedReady.elems == Omit(old(suspendedReady.elems), p)
    {
      hide Snaps, Without, Omit, PcbQueue.Contents, PcbQueue.Valid, AllHome;
      ghost var k, now := Home(p.Snap()), SystemState.Remove(State(), p.Snap());
      forall j { Taken(j); }
      RemovedQueue(State(), p.Snap());
      RemoveLinks(p);
      if k == ReadyQ { arrived := Without(arrived, p.addr); }
      hide SystemState.Remove;
      Assembled(now);
    }

    lemma RemovedQueue(s: SystemState.Sys, p: Proc)
      ensures var t := SystemState.Remove(s, p);
        && (forall j :: SystemState.Queue(t, j) ==
             if j == Home(p) then Without(SystemState.Queue(s, j), p.addr) else SystemState.Queue(s, j))
        && t == s.(ready := t.ready, blocked := t.blocked, suspendedReady := t.suspendedReady,
                   suspendedBlocked := t.suspendedBlocked,
                   arrived := if Home(p) == ReadyQ then Without(s.arrived, p.addr) else s.arrived)
    {
    }

    lemma InsertedQueue(s: SystemState.Sys, p: Proc)
      ensures var t := SystemState.Insert(s, p);
        && SystemState.Queue(t, Home(p)) ==
             (if Home(p) == ReadyQ then InsertByPriority(s.ready, p) else SystemState.Queue(s, Home(p)) + [p])
        && (forall j :: j != Home(p) ==> SystemState.Queue(t, j) == SystemState.Queue(s, j))
        && t == s.(ready := t.ready, blocked := t.blocked, suspendedReady := t.suspendedReady,
                   suspendedBlocked := t.suspendedBlocked,
                   arrived := if Home(p) == ReadyQ then s.arrived + [p] else s.arrived)
    {
    }

    /** The search of one queue. */
    method SearchOne(q: PcbQueue, ghost k: QueueId, name: Strings.CString) returns (found: Pcb?)
      requires Linked() && q == QueueAt(k)
      ensures Linked() && State() == old(State()) && Repr() == old(Repr()) && Valid() == old(Valid())
      ensures found == null ==> FirstNamed(SystemState.Queue(State(), k), name) == None
      ensures found != null ==> FirstNamed(SystemState.Queue(State(), k), name) == Some(found.Snap())
      ensures found != null ==> found in QueueAt(Home(found.Snap())).elems && found.name == name
    {
      hide State, FirstNamed, Snaps, PcbQueue.Contents, PcbQueue.Valid;
      assert At(q, k);
      AllExist();
      found := q.Search(name);
      Taken(k);
      if found != null {
        InItsQueue(q, k, found);
        FirstNamedFound(q.Contents(), name);
      }
    }

    /** `pcb_find`: the four queues in a fixed order; the running block is not searched. */
    method Find(name: Strings.CString) returns (found: Pcb?)
      requires Linked()
      ensures State() == old(State()) && Repr() == old(Repr()) && this in Repr() && (old(Valid()) ==> Valid())
      ensures found == null ==> SystemState.Find(State(), name) == None
      ensures found != null ==> SystemState.Find(State(), name) == Some(found.Snap())
      ensures found != null ==> found in QueueAt(Home(found.Snap())).elems && found.name == name
    {
      hide State, Linked, Valid, FirstNamed, SystemState.Find, SystemState.Queue, PcbQueue.Contents;
      ghost var s := State();
      FindsInOrder(s, name);
      var queues := [ready, blocked, suspendedReady, suspendedBlocked];
      assert forall i :: 0 <= i < 4 ==> queues[i] == QueueAt(Nth(i));
      found := null;
      var i := 0;
      while i < 4
        invariant 0 <= i <= 4 && found == null && SystemState.Find(s, name) == FoundFrom(s, i, name)
        invariant Linked() && State() == s && Repr() == old(Repr()) && Valid() == old(Valid())
      {
        found := SearchOne(queues[i], Nth(i), name);
        if found != null { return; }
        i := i + 1;
      }
    }

    // ----- The commands -----

    /** What is known of a block that the search returned. */
    lemma Queued(p: Pcb)
      requires Valid() && p in QueueAt(Home(p.Snap())).elems
      ensures p != cur && p.Snap() in SystemState.Queue(State(), Home(p.Snap())) && p in Repr()
    {
      hide Holding, Snaps, Home, PcbQueue.Valid, AllHome;
      var k := Home(p.Snap());
      var i :| 0 <= i < |QueueAt(k).elems| && QueueAt(k).elems[i] == p;
      assert QueueAt(k).Contents()[i] == p.Snap();
      Taken(k);
      InRepr(k);
      if cur != null {
        Whole(State());
        RunningElsewhere(State(), k, p.Snap());
      }
    }

    lemma SomePlace(s: SystemState.Sys, k: QueueId, p: Proc)
      requires p in SystemState.Queue(s, k)
      ensures Places(s, p.addr) > 0
    {
      MembersOfQueue(s, k, p);
    }

    /** No queue has the address of a block just removed. */
    lemma Absent(s: SystemState.Sys, p: Proc)
      requires Inv(s) && p in SystemState.Queue(s, Home(p)) && State() == SystemState.Remove(s, p)
      ensures NoneAt(p.addr)
    {
      RemoveKeeps(s, {}, p);
      assert Places(State(), p.addr) == 0;
      hide Inv, Holding, Places, SystemState.Remove;
      forall j, i | 0 <= i < |QueueAt(j).elems| ensures QueueAt(j).elems[i].addr != p.addr {
        Taken(j);
        var q := QueueAt(j).Contents();
        assert q[i] in q && q[i].addr == QueueAt(j).elems[i].addr;
        SomePlace(State(), j, q[i]);
      }
    }

    lemma InRepr(k: QueueId)
      ensures QueueAt(k) in Repr() && forall x :: x in QueueAt(k).elems ==> x in Repr()
      ensures this in Repr() && (cur != null ==> cur in Repr())
    {
      assert forall x :: x in QueueAt(k).elems ==> x in Blocks(QueueAt(k).elems);
    }

    lemma CurIsApart()
      requires Valid()
      ensures CurApart()
    {
      if cur != null {
        forall k ensures cur !in Blocks(QueueAt(k).elems) {
          if i :| 0 <= i < |QueueAt(k).elems| && QueueAt(k).elems[i] == cur {
            assert QueueAt(k).Contents()[i] == cur.Snap();
            Taken(k);
            RunningElsewhere(State(), k, cur.Snap());
          }
        }
      }
    }

    /** Take a queued block in hand. */
    method TakeOut(p: Pcb)
      requires Valid() && p in QueueAt(Home(p.Snap())).elems
      modifies this, ready, blocked, suspendedReady, suspendedBlocked
      modifies Pcbs()`next, Pcbs()`prev, Pcbs()`exec, Pcbs()`dispatch, Pcbs()`priority
      ensures Linked() && NoneAt(p.addr) && p !in Repr() && p.next == null && p.prev == null && CurApart()
      ensures p in old(Repr()) && Repr() <= old(Repr()) && p.Snap() == old(p.Snap())
      ensures State() == SystemState.Remove(old(State()), p.Snap())
      ensures suspendedReady.elems == Omit(old(suspendedReady.elems), p)
    {
      ghost var s, v := State(), p.Snap();
      Queued(p);
      CurIsApart();
      InRepr(Home(v));
      hide *;
      Remove(p);
      Absent(s, v);
      forall j { InBlocks(QueueAt(j).elems, p); }
      NotInRepr(p);
    }

    /** Put a block in hand back. */
    method PutBack(p: Pcb)
      requires Linked() && NoneAt(p.addr) && p !in Repr() && p.next == null && p.prev == null && CurApart()
      modifies this, ready, blocked, suspendedReady, suspendedBlocked, p`next, p`prev
      modifies Pcbs()`next, Pcbs()`prev, Pcbs()`exec, Pcbs()`dispatch, Pcbs()`priority
      ensures Linked() && Repr() <= old(Repr()) + {p} && p in Repr() && CurApart() && p.Snap() == old(p.Snap())
      ensures State() == SystemState.Insert(old(State()), p.Snap())
      ensures Home(p.Snap()) != SuspendedReadyQ ==> suspendedReady.elems == old(suspendedReady.elems)
    {
      InRepr(Home(p.Snap()));
      assert p != cur;
      hide *;
      Insert(p);
      InBlocks(QueueAt(Home(p.Snap())).elems, p);
      InRepr(Home(p.Snap()));
    }

    /** The three steps common to the commands: remove, assign, reinsert. */
    method Relist(p: Pcb, exec: ExecutionState, dispatch: DispatchState, priority: int)
      requires Valid() && p in QueueAt(Home(p.Snap())).elems
      requires WellFormed(p.Snap().(exec := exec, dispatch := dispatch, priority := priority))
      modifies this, ready, blocked, suspendedReady, suspendedBlocked
      modifies Pcbs()`next, Pcbs()`prev, Pcbs()`exec, Pcbs()`dispatch, Pcbs()`priority
      ensures Valid() && Repr() <= old(Repr())
      ensures State() == SystemState.Move(old(State()), old(p.Snap()),
                           old(p.Snap()).(exec := exec, dispatch := dispatch, priority := priority))
      ensures dispatch == Active ==> suspendedReady.elems == Omit(old(suspendedReady.elems), p)
    {
      ghost var s, v := State(), p.Snap();
      ghost var v' := v.(exec := exec, dispatch := dispatch, priority := priority);
      Queued(p);
      MoveKeeps(s, v, v');
      assert dispatch == Active ==> Home(v') != SuspendedReadyQ;
      hide *;
      TakeOut(p);
      Assign(p, exec, dispatch, priority);
      PutBack(p);
    }

    /** A block in hand can be changed without anything else noticing. */
    method Assign(p: Pcb, exec: ExecutionState, dispatch: DispatchState, priority: int)
      requires Linked() && NoneAt(p.addr) && p !in Repr() && CurApart()
      modifies p`exec, p`dispatch, p`priority
      ensures Linked() && NoneAt(p.addr) && State() == old(State()) && Repr() == old(Repr()) && CurApart()
      ensures p.Snap() == old(p.Snap()).(exec := exec, dispatch := dispatch, priority := priority)
      ensures p.next == old(p.next) && p.prev == old(p.prev) && suspendedReady.elems == old(suspendedReady.elems)
    {
      hide Linked, NoneAt, State, Cells;
      p.exec, p.dispatch, p.priority := exec, dispatch, priority;
    }

    lemma AllExist()
      ensures forall o :: o in Cells() ==> allocated(o)
      ensures forall o :: o in Repr() ==> allocated(o)
    {
    }

    lemma TableInRepr()
      ensures this in Repr() && ready in Repr() && blocked in Repr()
      ensures suspendedReady in Repr() && suspendedBlocked in Repr()
    {
    }

    lemma NotInRepr(p: Pcb)
      requires p != cur && forall j :: p !in QueueAt(j).elems
      ensures p !in Repr()
    {
      assert p !in QueueAt(ReadyQ).elems && p !in QueueAt(BlockedQ).elems;
      assert p !in QueueAt(SuspendedReadyQ).elems && p !in QueueAt(SuspendedBlockedQ).elems;
    }

    lemma QueuedWellFormed(p: Pcb)
      requires Valid() && p in QueueAt(Home(p.Snap())).elems
      ensures WellFormed(p.Snap())
    {
      Queued(p);
      hide Linked, Snaps;
      assert Recorded(live, p.Snap());
    }

    method Suspend(name: Strings.CString) returns (result: int)
      requires Valid()
      modifies this, ready, blocked, suspendedReady, suspendedBlocked
      modifies Pcbs()`next, Pcbs()`prev, Pcbs()`exec, Pcbs()`dispatch, Pcbs()`priority
      ensures Valid() && Repr() <= old(Repr())
      ensures (State(), result) == SystemState.Suspend(old(State()), name)
    {
      hide Inv, State, Repr, Linked, SystemState.Move, SystemState.Find, QueueAt;
      if |name| == 0 { return -1; }
      var p := Find(name);
      if p == null { return -1; }
      if p.class_ == SystemClass { return -2; }
      if p.dispatch == Suspended { return 1; }
      QueuedWellFormed(p);
      Relist(p, p.exec, Suspended, p.priority);
      return 0;
    }

    method Resume(name: Strings.CString) returns (result: int, ghost moved: Pcb?)
      requires Valid()
      modifies this, ready, blocked, suspendedReady, suspendedBlocked
      modifies Pcbs()`next, Pcbs()`prev, Pcbs()`exec, Pcbs()`dispatch, Pcbs()`priority
      ensures Valid() && Repr() <= old(Repr())
      ensures (State(), result) == SystemState.Resume(old(State()), name)
      ensures moved == null ==> State() == old(State()) && suspendedReady.elems == old(suspendedReady.elems)
      ensures moved == null ==>
        var f := SystemState.Find(old(State()), name); name == "" || f == None || f.value.dispatch == Active
      ensures moved != null ==>
        var f := SystemState.Find(old(State()), name);
        && f.Some? && f.value.addr == moved.addr && f.value.dispatch == Suspended
        && (Home(f.value) == SuspendedReadyQ ==> moved in old(suspendedReady.elems))
        && suspendedReady.elems == Omit(old(suspendedReady.elems), moved)
    {
      hide Omit, Inv, State, Repr, Linked, SystemState.Move, SystemState.Find;
      if |name| == 0 { return -1, null; }
      var p := Find(name);
      if p == null { return -1, null; }
      if p.dispatch == Active { return 1, null; }
      QueuedWellFormed(p);
      Relist(p, p.exec, Active, p.priority);
      return 0, p;
    }

    /** Every name in the list is found elsewhere first. */
    ghost predicate Stuck(s: SystemState.Sys, kept: seq<Pcb>) {
      forall p :: p in kept ==> ResumingAll.Shadowed(s, p.name)
    }

    lemma WalkShown(kept: seq<Pcb>, p: Pcb, rest: seq<Pcb>)
      requires Valid() && suspendedReady.elems == kept + [p] + rest && Stuck(State(), kept)
      ensures State().suspendedReady == Snaps(kept) + [p.Snap()] + Snaps(rest)
      ensures forall q :: q in Snaps(kept) ==> ResumingAll.Shadowed(State(), q.name)
      ensures p.next == (if rest == [] then null else rest[0]) && Omit(suspendedReady.elems, p) == kept + rest
      ensures forall q :: q in suspendedReady.elems && q.addr == p.addr ==> q == p
    {
      hide Inv, Snaps, Omit, PcbQueue.Valid, ResumingAll.Shadowed;
      assert At(QueueAt(SuspendedReadyQ), SuspendedReadyQ);
      InLine(suspendedReady, kept, p, rest);
      SnapsAround(kept, p, rest);
    }

    lemma WalkStarts()
      requires Valid()
      ensures suspendedReady.head == if suspendedReady.elems == [] then null else suspendedReady.elems[0]
      ensures |State().suspendedReady| == |suspendedReady.elems|
      ensures forall j :: 0 <= j < |suspendedReady.elems| ==>
        suspendedReady.elems[j].name == State().suspendedReady[j].name
      ensures Stuck(State(), [])
    {
      hide Inv, Snaps;
      assert At(QueueAt(SuspendedReadyQ), SuspendedReadyQ);
    }

    /** One resumption of the walk: the block met leaves the list, or stays if it is shadowed. */
    method ResumeNext(p: Pcb, ghost kept: seq<Pcb>, ghost rest: seq<Pcb>) returns (ghost kept': seq<Pcb>)
      requires Valid() && suspendedReady.elems == kept + [p] + rest && Stuck(State(), kept)
      modifies this, ready, blocked, suspendedReady, suspendedBlocked
      modifies Pcbs()`next, Pcbs()`prev, Pcbs()`exec, Pcbs()`dispatch, Pcbs()`priority
      ensures Valid() && Repr() <= old(Repr()) && State() == SystemState.Resume(old(State()), p.name).0
      ensures suspendedReady.elems == kept' + rest && Stuck(State(), kept')
    {
      hide State, Linked, Inv, Repr, Snaps, Omit, SystemState.Find, SystemState.Resume, ResumingAll.Shadowed;
      ghost var s, v := State(), p.Snap();
      WalkShown(kept, p, rest);
      ResumingAll.WalkStep(s, Snaps(kept), v, Snaps(rest));
      var r, moved := Resume(p.name);
      if moved == null {
        kept' := kept + [p];
      } else {
        kept' := kept;
      }
    }

    /** The walk of `resume all` along the links, over a list that it unlinks from. */
    method ResumeAll()
      requires Valid()
      modifies this, ready, blocked, suspendedReady, suspendedBlocked
      modifies Pcbs()`next, Pcbs()`prev, Pcbs()`exec, Pcbs()`dispatch, Pcbs()`priority
      ensures Valid() && Repr() <= old(Repr())
      ensures State() == SystemState.ResumeAll(old(State()))
    {
      hide State, Valid, Repr, Stuck, SystemState.Resume, SystemState.ResumeEach;
      ghost var es, kept, i := suspendedReady.elems, [], 0;
      ghost var todo := State().suspendedReady;
      var curPtr := suspendedReady.head;
      WalkStarts();
      while curPtr != null
        invariant Valid() && Repr() <= old(Repr())
        invariant 0 <= i <= |es| == |todo| && curPtr == (if i < |es| then es[i] else null)
        invariant forall j :: 0 <= j < |es| ==> es[j].name == todo[j].name
        invariant suspendedReady.elems == kept + es[i..] && Stuck(State(), kept)
        invariant SystemState.ResumeEach(State(), todo[i..]) == SystemState.ResumeAll(old(State()))
        decreases |es| - i
      {
        SplitAt(kept, es, i);
        EachStep(State(), todo, i);
        WalkShown(kept, curPtr, es[i + 1..]);
        var tempPtr := curPtr.next;
        kept := ResumeNext(curPtr, kept, es[i + 1..]);
        curPtr := tempPtr;
        i := i + 1;
      }
      assert SystemState.ResumeEach(State(), todo[i..]) == State() by { NoneLeft(State(), todo[i..]); }
    }

    /** A missing name is dereferenced as NULL, which panics once page 0 is unmapped. */
    method Block(name: Strings.CString)
      requires Valid()
      modifies this, ready, blocked, suspendedReady, suspendedBlocked
      modifies Pcbs()`next, Pcbs()`prev, Pcbs()`exec, Pcbs()`dispatch, Pcbs()`priority
      ensures Valid() && Repr() <= old(Repr())
      ensures State() == SystemState.Block(old(State()), name)
    {
      hide Inv, State, Repr, Linked, SystemState.Move, SystemState.Find, QueueAt;
      var p := Find(name);
      if p == null {
        Panic();
      } else if p.exec != Blocked && 1 <= |name| <= NAME_MAX {
        QueuedWellFormed(p);
        Relist(p, Blocked, p.dispatch, p.priority);
      }
    }

    method Unblock(name: Strings.CString)
      requires Valid()
      modifies this, ready, blocked, suspendedReady, suspendedBlocked
      modifies Pcbs()`next, Pcbs()`prev, Pcbs()`exec, Pcbs()`dispatch, Pcbs()`priority
      ensures Valid() && Repr() <= old(Repr())
      ensures State() == SystemState.Unblock(old(State()), name)
    {
      hide Inv, State, Repr, Linked, SystemState.Move, SystemState.Find, QueueAt;
      var p := Find(name);
      if p == null {
        Panic();
      } else if p.exec != Ready && 1 <= |name| <= NAME_MAX {
        QueuedWellFormed(p);
        Relist(p, Ready, p.dispatch, p.priority);
      }
    }

    method Panic()
      requires Valid()
      modifies this`status
      ensures Valid() && State() == old(State()).(status := SystemState.Panicked) && Repr() == old(Repr())
      ensures CurApart() == old(CurApart())
    {
      hide Inv, NoneAt, CurApart, Loose, Snaps, Blocks, At, Pcb.Snap;
      StatusFree(State(), SystemState.Panicked);
      ghost var was := State();
      status := SystemState.Panicked;
      assert State() == was.(status := SystemState.Panicked);
    }

    lemma StatusFree(s: SystemState.Sys, status: SystemState.Status)
      requires Inv(s)
      ensures Inv(s.(status := status))
    {
      assert forall a :: Places(s.(status := status), a) == Places(s, a);
    }

    method SetPriority(name: Strings.CString, newPriority: int)
      requires Valid()
      modifies this, ready, blocked, suspendedReady, suspendedBlocked
      modifies Pcbs()`next, Pcbs()`prev, Pcbs()`exec, Pcbs()`dispatch, Pcbs()`priority
      ensures Valid() && Repr() <= old(Repr())
      ensures State() == SystemState.SetPriority(old(State()), name, newPriority)
    {
      hide Inv, State, Repr, Linked, SystemState.Move, SystemState.Find, QueueAt;
      var p := Find(name);
      if p == null {
      } else if p.class_ == SystemClass {
      } else if newPriority > 9 || newPriority < 0 {
      } else {
        QueuedWellFormed(p);
        Relist(p, p.exec, p.dispatch, newPriority);
      }
    }

    /** The block leaves its queue and is freed; freeing reuses nothing. */
    method Delete(name: Strings.CString)
      requires Valid()
      modifies this, ready, blocked, suspendedReady, suspendedBlocked
      modifies Pcbs()`next, Pcbs()`prev, Pcbs()`exec, Pcbs()`dispatch, Pcbs()`priority
      ensures Valid() && Repr() <= old(Repr())
      ensures State() == SystemState.Delete(old(State()), name)
    {
      hide Inv, State, Repr, Linked, SystemState.Remove, SystemState.Find, QueueAt, Loose, NoneAt;
      var p := Find(name);
      DeleteKeeps(State(), name);
      if p == null {
      } else if |name| < 1 || |name| > NAME_MAX {
      } else if p.class_ == SystemClass {
      } else {
        TakeOut(p);
        Forget(p.addr);
      }
    }

    /** `pcb_free`: the address stops being live; nothing is reused. */
    ghost method Forget(a: int)
      requires Linked()
      modifies this`live
      ensures Linked() && State() == old(State()).(live := old(State()).live - {a})
      ensures Repr() == old(Repr()) && Loose(cur) == old(Loose(cur))
    {
      hide Inv, NoneAt, CurApart, Loose, Snaps, Blocks, At, Pcb.Snap;
      ghost var was := State();
      live := live - {a};
      assert State() == was.(live := was.live - {a});
    }

    /** The end of the heap is no queued block's address. */
    lemma HeapUnused()
      requires Valid()
      ensures NoneAt(heap)
    {
      hide Inv, Linked, Snaps, SystemState.Queue;
      forall j, i | 0 <= i < |QueueAt(j).elems| ensures QueueAt(j).elems[i].addr != heap {
        Taken(j);
        var q := QueueAt(j).Contents();
        assert q[i] in q && q[i].addr == QueueAt(j).elems[i].addr;
        BelowHeap(State(), j, q[i]);
      }
    }

    lemma BelowHeap(s: SystemState.Sys, k: QueueId, p: Proc)
      requires Inv(s) && p in SystemState.Queue(s, k)
      ensures p.addr < s.heap
    {
      hide Partition, Ordered;
      assert Recorded(s.live, p);
    }

    /** `pcb_allocate` with the fields that `pcb_setup` fills in: two requests to the heap. */
    method Allocate(name: Strings.CString, class_: ProcessClass, priority: int) returns (p: Pcb?)
      requires Valid()
      modifies this`heap, this`status, this`live
      ensures Repr() == old(Repr()) && CurApart() && Linked()
      ensures match KernelHeap.Alloc(old(State()).heap, SystemState.PCB_SIZE + SystemState.STACK_SIZE)
        case None => p == null && Valid() && State() == old(State()).(status := SystemState.Panicked)
        case Some(end) =>
          && p != null && fresh(p) && p.Snap() == Proc(old(State()).heap, name, class_, priority, Ready, Active)
          && p.context == SystemState.FirstContext(p.addr) && p.addr == old(State()).heap
          && State() == old(State()).(heap := end, live := old(State()).live[old(State()).heap := name])
          && NoneAt(p.addr) && Loose(p) && p !in Repr()
    {
      hide Inv, NoneAt, CurApart, Linked, Cells, Repr, Pcb.Snap, At;
      CurIsApart();
      HeapUnused();
      var addr := heap;
      var end := heap + SystemState.PCB_SIZE;
      if end > KernelHeap.BASE + KernelHeap.SIZE { Panic(); return null; }
      end := end + SystemState.STACK_SIZE;
      if end > KernelHeap.BASE + KernelHeap.SIZE { Panic(); return null; }
      Grow(end, name);
      AllExist();
      p := new Pcb(addr, name, class_, priority, end - SystemState.CONTEXT_SIZE);
      NotInRepr(p);
    }

    /** The end of the heap moves past a new live block. */
    method Grow(end: int, ghost name: string)
      requires Valid()
      modifies this`heap, this`live
      ensures Linked() && State() == old(State()).(heap := end, live := old(State()).live[old(State()).heap := name])
      ensures Repr() == old(Repr()) && CurApart() == old(CurApart()) && Loose(cur) == old(Loose(cur))
      ensures NoneAt(old(State()).heap) == old(NoneAt(State().heap))
    {
      hide Inv, NoneAt, CurApart, Snaps, At, Pcb.Snap, Blocks;
      ghost var was := State();
      live := live[heap := name];
      heap := end;
      assert State() == was.(heap := end, live := was.live[was.heap := name]);
    }

    /** The new stack is zeroed, and the frame written at its top. */
    method WriteFrame(p: Pcb, entry: int)
      requires Linked() && p.context == SystemState.FirstContext(p.addr)
      modifies ram
      ensures Linked() && State() == old(State()) && Repr() == old(Repr()) && CurApart() == old(CurApart())
      ensures NoneAt(p.addr) == old(NoneAt(p.addr))
      ensures ContextAt(ram.words, p.context) == InitialRegs(p.addr, entry)
      ensures OnlyStack(p.addr, old(ram.words), ram.words)
    {
      hide State, Linked, CurApart, NoneAt, Cells, ContextAt, InitialRegs, OnlyStack;
      RamApart();
      AllExist();
      StoreFrame(ram, p.addr, p.context, entry);
    }

    lemma RamApart()
      ensures (ram as object) !in Repr() && (ram as object) !in Cells()
    {
    }

    /** `pcb_setup`: NULL, or a new block that is in no queue yet, its stack ready to start at
        the entry point. */
    method Setup(name: Strings.CString, class_: ProcessClass, priority: int, entry: int) returns (p: Pcb?)
      requires Valid()
      modifies this`heap, this`status, this`live, ram
      ensures Repr() == old(Repr()) && CurApart() && Linked()
      ensures State() == SystemState.Setup(old(State()), name, class_, priority).0
      ensures match SystemState.Setup(old(State()), name, class_, priority).1
        case None => p == null && Valid() && ram.words == old(ram.words)
        case Some(v) =>
          && p != null && fresh(p) && p.Snap() == v && NoneAt(p.addr) && Loose(p) && p !in Repr()
          && p.addr == old(State()).heap && p.context == SystemState.FirstContext(p.addr)
          && ContextAt(ram.words, p.context) == InitialRegs(p.addr, entry)
          && OnlyStack(p.addr, old(ram.words), ram.words)
    {
      hide State, Repr, Inv, NoneAt, SystemState.Find, QueueAt, Loose, ContextAt, InitialRegs, OnlyStack;
      CurIsApart();
      if |name| >= NAME_MAX { return null; }
      if priority < 0 || priority > LOWEST { return null; }
      var found := Find(name);
      if found != null { return null; }
      p := Allocate(name, class_, priority);
      if p != null { WriteFrame(p, entry); }
    }

    // ----- Loading -----

    /** Set up and insert; a system that has panicked does nothing. */
    method Load(name: Strings.CString, class_: ProcessClass, priority: int, entry: int) returns (p: Pcb?)
      requires Valid()
      modifies this, ready, blocked, suspendedReady, suspendedBlocked, ram
      modifies Pcbs()`next, Pcbs()`prev, Pcbs()`exec, Pcbs()`dispatch, Pcbs()`priority
      ensures Valid() && forall o :: o in Repr() ==> o in old(Repr()) || o == p
      ensures State() == SystemState.Load(old(State()), name, class_, priority)
      ensures p != null <==>
        old(State()).status == SystemState.Live && SystemState.Setup(old(State()), name, class_, priority).1.Some?
      ensures p == null ==> ram.words == old(ram.words)
      ensures p != null ==>
        && fresh(p) && p in Repr() && p.addr == old(State()).heap && p.context == SystemState.FirstContext(p.addr)
        && ContextAt(ram.words, p.context) == InitialRegs(p.addr, entry)
        && OnlyStack(p.addr, old(ram.words), ram.words)
    {
      hide State, Repr, Inv, Linked, NoneAt, SystemState.Setup, SystemState.Insert, SystemState.Find;
      hide ContextAt, InitialRegs, OnlyStack;
      LoadKeeps(State(), name, class_, priority);
      StatusShown();
      if status != SystemState.Live { return null; }
      p := Setup(name, class_, priority, entry);
      if p != null { PutBack(p); }
    }

    /** A load on the saved contexts as well. */
    method LoadTracked(name: Strings.CString, class_: ProcessClass, priority: int, entry: int,
                       ghost saved: map<int, int>, ghost programs: map<string, int>)
      returns (p: Pcb?, ghost saved': map<int, int>)
      requires Valid() && Contexts(saved) && name in programs && programs[name] == entry
      modifies this, ready, blocked, suspendedReady, suspendedBlocked, ram
      modifies Pcbs()`next, Pcbs()`prev, Pcbs()`exec, Pcbs()`dispatch, Pcbs()`priority
      ensures Valid() && (forall o :: o in Repr() ==> o in old(Repr()) || fresh(o)) && Contexts(saved')
      ensures State() == SystemState.Load(old(State()), name, class_, priority)
      ensures Extends(old(State()), old(ram.words), saved, State(), ram.words, saved', programs)
    {
      hide State, Repr, Inv, Linked, SystemState.Setup, SystemState.Load, ContextAt, InitialRegs, OnlyStack, Extends;
      ghost var s, mem := State(), ram.words;
      AllExist();
      LoadLive(s, name, class_, priority);
      p := Load(name, class_, priority, entry);
      AddressesDiffer();
      if p == null {
        saved' := saved;
        ExtendsNothing(s, mem, saved, State(), programs);
      } else {
        saved' := saved[p.addr := p.context];
        ExtendsByOne(s, mem, saved, State(), ram.words, name, programs);
      }
    }

    /** The five processes, by the addresses of their programs. */
    method LoadR3(entries: seq<int>, ghost saved: map<int, int>) returns (ghost saved': map<int, int>)
      requires Valid() && Contexts(saved) && |entries| == 5
      modifies this, ready, blocked, suspendedReady, suspendedBlocked, ram
      modifies Pcbs()`next, Pcbs()`prev, Pcbs()`exec, Pcbs()`dispatch, Pcbs()`priority
      ensures Valid() && (forall o :: o in Repr() ==> o in old(Repr()) || fresh(o)) && Contexts(saved')
      ensures State() == SystemState.LoadR3(old(State()))
      ensures Extends(old(State()), old(ram.words), saved, State(), ram.words, saved', ProgramsOf(entries))
    {
      hide Valid, State, Repr, SystemState.Load, Contexts, Extends, ContextAt, InitialRegs, Inv, ProgramsOf;
      ghost var s, mem := State(), ram.words;
      ghost var programs := ProgramsOf(entries);
      ProgramsListed(entries);
      Sound();
      ExtendsNothing(s, mem, saved, s, programs);
      ghost var t, m, v := s, mem, saved;
      var p;
      saved' := saved;
      p, saved' := LoadTracked("proc1", UserClass, 1, entries[0], saved', programs);
      ExtendsTwice(s, mem, saved, t, m, v, State(), ram.words, saved', programs);
      t, m, v := State(), ram.words, saved';
      p, saved' := LoadTracked("proc2", UserClass, 1, entries[1], saved', programs);
      ExtendsTwice(s, mem, saved, t, m, v, State(), ram.words, saved', programs);
      t, m, v := State(), ram.words, saved';
      p, saved' := LoadTracked("proc3", UserClass, 1, entries[2], saved', programs);
      ExtendsTwice(s, mem, saved, t, m, v, State(), ram.words, saved', programs);
      t, m, v := State(), ram.words, saved';
      p, saved' := LoadTracked("proc4", UserClass, 1, entries[3], saved', programs);
      ExtendsTwice(s, mem, saved, t, m, v, State(), ram.words, saved', programs);
      t, m, v := State(), ram.words, saved';
      p, saved' := LoadTracked("proc5", UserClass, 1, entries[4], saved', programs);
      ExtendsTwice(s, mem, saved, t, m, v, State(), ram.words, saved', programs);
      t, m, v := State(), ram.words, saved';
    }

    /** Suspending changes nothing that is saved. */
    method SuspendTracked(name: Strings.CString, ghost saved: map<int, int>)
      requires Valid() && Contexts(saved)
      modifies this, ready, blocked, suspendedReady, suspendedBlocked
      modifies Pcbs()`next, Pcbs()`prev, Pcbs()`exec, Pcbs()`dispatch, Pcbs()`priority
      ensures Valid() && Repr() <= old(Repr()) && Contexts(saved)
      ensures State() == SystemState.Suspend(old(State()), name).0
      ensures State().live == old(State()).live && State().running == old(State()).running
    {
      hide Valid, State, Repr, SystemState.Suspend;
      AllExist();
      Commands.SuspendFrame(State(), name);
      var result := Suspend(name);
    }

    method LoadR3Suspended(entries: seq<int>, ghost saved: map<int, int>) returns (ghost saved': map<int, int>)
      requires Valid() && Contexts(saved) && |entries| == 5
      modifies this, ready, blocked, suspendedReady, suspendedBlocked, ram
      modifies Pcbs()`next, Pcbs()`prev, Pcbs()`exec, Pcbs()`dispatch, Pcbs()`priority
      ensures Valid() && (forall o :: o in Repr() ==> o in old(Repr()) || fresh(o)) && Contexts(saved')
      ensures State() == SystemState.LoadR3Suspended(old(State()))
      ensures Extends(old(State()), old(ram.words), saved, State(), ram.words, saved', ProgramsOf(entries))
    {
      hide Valid, State, Repr, SystemState.LoadR3, SystemState.Suspend, Contexts, Extends, Inv;
      ghost var s, mem := State(), ram.words;
      Sound();
      saved' := LoadR3(entries, saved);
      StatusShown();
      if status != SystemState.Live { return; }
      ghost var t := State();
      SuspendTracked("proc1", saved');
      SuspendTracked("proc2", saved');
      SuspendTracked("proc3", saved');
      SuspendTracked("proc4", saved');
      SuspendTracked("proc5", saved');
      ExtendsNothing(t, ram.words, saved', State(), ProgramsOf(entries));
      ExtendsTwice(s, mem, saved, t, ram.words, saved', State(), ram.words, saved', ProgramsOf(entries));
    }

    method LoadProcess(name: Strings.CString, entries: seq<int>, ghost saved: map<int, int>)
      returns (ghost saved': map<int, int>)
      requires Valid() && Contexts(saved) && |entries| == 5
      modifies this, ready, blocked, suspendedReady, suspendedBlocked, ram
      modifies Pcbs()`next, Pcbs()`prev, Pcbs()`exec, Pcbs()`dispatch, Pcbs()`priority
      ensures Valid() && (forall o :: o in Repr() ==> o in old(Repr()) || fresh(o)) && Contexts(saved')
      ensures State() == SystemState.LoadProcess(old(State()), name)
      ensures Extends(old(State()), old(ram.words), saved, State(), ram.words, saved', ProgramsOf(entries))
    {
      hide Valid, State, Repr, SystemState.Load, Contexts, Extends, ContextAt, InitialRegs, ProgramsOf;
      ProgramsListed(entries);
      var p;
      if name == "proc1" {
        p, saved' := LoadTracked("proc1", UserClass, 1, entries[0], saved, ProgramsOf(entries));
      } else if name == "proc2" {
        p, saved' := LoadTracked("proc2", UserClass, 1, entries[1], saved, ProgramsOf(entries));
      } else if name == "proc3" {
        p, saved' := LoadTracked("proc3", UserClass, 1, entries[2], saved, ProgramsOf(entries));
      } else if name == "proc4" {
        p, saved' := LoadTracked("proc4", UserClass, 1, entries[3], saved, ProgramsOf(entries));
      } else if name == "proc5" {
        p, saved' := LoadTracked("proc5", UserClass, 1, entries[4], saved, ProgramsOf(entries));
      } else {
        saved' := saved;
        ExtendsNothing(State(), ram.words, saved, State(), ProgramsOf(entries));
      }
    }

    lemma Sound()
      requires Valid()
      ensures Inv(State())
    {
    }

    lemma StatusShown()
      ensures State().status == status && this in Repr()
    {
    }

    /** Any other use of `sys_alloc_mem`. */
    method AllocMem(size: nat) returns (addr: int)
      requires Valid()
      modifies this`heap, this`status
      ensures Valid() && State() == SystemState.AllocMem(old(State()), size) && Repr() == old(Repr())
      ensures State().status != SystemState.Panicked ==> addr == old(State()).heap
    {
      hide Inv, CurApart, Loose, Snaps, Blocks, At, Pcb.Snap;
      AllocKeeps(State(), size);
      addr := heap;
      if heap + size > KernelHeap.BASE + KernelHeap.SIZE {
        Panic();
      } else {
        ghost var was := State();
        heap := heap + size;
        assert State() == was.(heap := was.heap + size);
      }
    }

    // ----- The queue side of the system calls -----

    lemma Head()
      requires Valid()
      ensures ready.head == null <==> State().ready == []
      ensures cur == null ==> State().running == None
      ensures ready.head != null ==> ready.head in ready.elems && ready.head != cur
      ensures ready.head != null ==> ready.head.Snap() == State().ready[0] && Home(ready.head.Snap()) == ReadyQ
    {
      hide Snaps, Inv;
      assert At(QueueAt(ReadyQ), ReadyQ);
      if ready.head != null {
        assert ready.elems[0] == ready.head;
        Queued(ready.head);
      }
    }

    /** The running block goes back to the ready queue when it yields. */
    lemma Yielder()
      requires Valid() && cur != null
      ensures Home(cur.Snap()) == ReadyQ && NoneAt(cur.addr)
      ensures State().running == Some(cur.Snap()) && cur.Snap().addr == cur.addr
    {
      forall j, i | 0 <= i < |QueueAt(j).elems| ensures QueueAt(j).elems[i].addr != cur.addr {
        var p := QueueAt(j).elems[i];
        assert QueueAt(j).Contents()[i] == p.Snap();
        Taken(j);
        RunningElsewhere(State(), j, p.Snap());
      }
    }

    /** No two blocks in the table share an address. */
    lemma AddressesDiffer()
      requires Valid()
      ensures forall p: Pcb, q: Pcb :: p in Repr() && q in Repr() && p.addr == q.addr ==> p == q
    {
      hide Inv, Linked, Snaps, State, Home;
      forall p: Pcb, q: Pcb | p in Repr() && q in Repr() && p.addr == q.addr ensures p == q {
        if p != cur && q != cur {
          var j := SomeQueue(p);
          var k := SomeQueue(q);
          SameBlock(j, k, p, q);
        } else if p != q {
          Yielder();
          var k := SomeQueue(if p == cur then q else p);
          hide Repr;
        }
      }
    }

    lemma SomeQueue(p: Pcb) returns (k: QueueId)
      requires p in Repr() && p != cur
      ensures p in QueueAt(k).elems
    {
      assert p in Cells();
      k := if p in ready.elems then ReadyQ else if p in blocked.elems then BlockedQ
           else if p in suspendedReady.elems then SuspendedReadyQ else SuspendedBlockedQ;
    }

    lemma SameBlock(j: QueueId, k: QueueId, p: Pcb, q: Pcb)
      requires Valid() && p in QueueAt(j).elems && q in QueueAt(k).elems && p.addr == q.addr
      ensures p == q
    {
      hide Snaps, Holding, PcbQueue.Forward, PcbQueue.Backward;
      var x :| 0 <= x < |QueueAt(j).elems| && QueueAt(j).elems[x] == p;
      var y :| 0 <= y < |QueueAt(k).elems| && QueueAt(k).elems[y] == q;
      assert QueueAt(j).Contents()[x] == p.Snap() && QueueAt(k).Contents()[y] == q.Snap();
      Taken(j);
      Taken(k);
      assert Partition(State(), {}) by { Whole(State()); }
      OneQueue(State(), j, k, p.Snap(), q.Snap());
      assert At(QueueAt(j), j);
    }

    lemma Whole(s: SystemState.Sys)
      requires Inv(s)
      ensures Partition(s, {})
    {
    }

    /** The context of every block in the table, by address. */
    ghost predicate Contexts(saved: map<int, int>)
      reads this, Repr()
    {
      forall p: Pcb :: p in Repr() ==> p.addr in saved && saved[p.addr] == p.context
    }

    /** The yielder's context is stored in its block. */
    method SaveContext(context: int)
      requires Valid() && cur != null
      modifies cur`context
      ensures Valid() && State() == old(State()) && Repr() == old(Repr()) && cur.context == context
    {
      hide Inv, Snaps, Pcb.Snap, AllHome, PcbQueue.Valid;
      CurIsApart();
      ghost var was := State();
      cur.context := context;
      assert State() == was;
    }

    /** The yielder's context is tracked under its new place; no other block's changes. */
    method Store(context: int, ghost saved: map<int, int>)
      requires Valid() && cur != null && Contexts(saved)
      modifies cur`context
      ensures Valid() && State() == old(State()) && Repr() == old(Repr())
      ensures Contexts(saved[cur.addr := context])
    {
      hide State, Repr, Valid;
      AddressesDiffer();
      InRepr(ReadyQ);
      AllExist();
      SaveContext(context);
    }

    method SetCurrent(p: Pcb?)
      requires Linked()
      modifies this`cur
      ensures Linked() && cur == p && Repr() <= old(Repr()) + if p == null then {} else {p}
      ensures State() == old(State()).(running := if p == null then None else Some(p.Snap()))
    {
      hide At, Blocks, Snaps, Pcb.Snap;
      cur := p;
    }

    /** Unlink the next block and make it the running one. */
    method SwitchTo(next: Pcb)
      requires Linked() && next in ready.elems && next != cur && Home(next.Snap()) == ReadyQ
      modifies this`cur, this`arrived, ready, ready.elems`next, ready.elems`prev
      ensures Linked() && cur == next && Loose(cur) && Repr() <= old(Repr())
      ensures State() == SystemState.Remove(old(State()), next.Snap()).(running := Some(next.Snap()))
    {
      InRepr(ReadyQ);
      hide State, Linked, Snaps, SystemState.Remove, Blocks;
      Remove(next);
      SetCurrent(next);
    }

    method PowerOff()
      requires Linked()
      modifies this`status
      ensures Linked() && State() == old(State()).(status := SystemState.PoweredOff)
      ensures Repr() == old(Repr()) && Loose(cur) == old(Loose(cur))
    {
      hide At, Blocks, Snaps, Pcb.Snap, Loose;
      ghost var was := State();
      status := SystemState.PoweredOff;
      assert State() == was.(status := SystemState.PoweredOff);
    }

    method Reinsert()
      requires Valid() && cur != null
      modifies this`arrived, ready, cur`next, cur`prev, ready.elems`next, ready.elems`prev
      ensures Linked() && cur == old(cur) && Repr() <= old(Repr())
      ensures forall x :: x in old(ready.elems) ==> x in ready.elems
      ensures State() == SystemState.Insert(old(State()), old(cur).Snap())
    {
      CurIsApart();
      Yielder();
      ghost var was := ready.elems;
      hide State, Linked, Inv, NoneAt, Blocks, SystemState.Insert, Snaps, Cells;
      assert QueueAt(ReadyQ) == ready;
      Insert(cur);
      forall x ensures x in was ==> x in ready.elems {
        InBlocks(was, x);
        InBlocks(ready.elems, x);
      }
    }

    /** The IDLE branch: the head is read before the yielder goes back in. */
    method Idle(ghost saved: map<int, int>) returns (next: Pcb?)
      requires Valid()
      modifies this, ready, blocked, suspendedReady, suspendedBlocked
      modifies Pcbs()`next, Pcbs()`prev, Pcbs()`exec, Pcbs()`dispatch, Pcbs()`priority
      ensures Valid() && Repr() <= old(Repr()) && next == old(ready.head)
      ensures State() == SystemState.Idle(old(State())) && cur == if next == null then old(cur) else next
      ensures (old(Contexts(saved)) ==> Contexts(saved)) && (next != null ==> next in Repr())
    {
      hide State, Repr, Linked, Inv, Loose, NoneAt, SystemState.Remove, SystemState.Insert, Snaps, Home, Pcb.Snap;
      AllExist();
      IdleKeeps(State());
      Head();
      InRepr(ReadyQ);
      next := ready.head;
      if cur != null { Yielder(); }
      if next == null {
        PowerOff();
      } else {
        if cur != null { Reinsert(); }
        InRepr(ReadyQ);
        SwitchTo(next);
        InRepr(ReadyQ);
      }
    }

    /** The EXIT branch: the running block is freed, and the head runs. */
    method Exit(ghost saved: map<int, int>) returns (next: Pcb?)
      requires Valid()
      modifies this, ready, blocked, suspendedReady, suspendedBlocked
      modifies Pcbs()`next, Pcbs()`prev, Pcbs()`exec, Pcbs()`dispatch, Pcbs()`priority
      ensures Valid() && Repr() <= old(Repr()) && next == old(ready.head) && cur == next
      ensures State() == SystemState.Exit(old(State()))
      ensures (old(Contexts(saved)) ==> Contexts(saved)) && (next != null ==> next in Repr())
    {
      hide State, Repr, Linked, Inv, NoneAt, SystemState.Remove, SystemState.Insert, Snaps, Home, Pcb.Snap;
      AllExist();
      ExitKeeps(State());
      Head();
      InRepr(ReadyQ);
      if cur != null { Yielder(); }
      next := ready.head;
      if cur != null { Forget(cur.addr); }
      if next == null {
        SetCurrent(null);
        PowerOff();
      } else {
        SwitchTo(next);
        InRepr(ReadyQ);
      }
    }
  }

  /** Zeroing the stack and nine stores give exactly the initial frame. */
  lemma FrameIs(mem: Memory, a: int, entry: int)
    ensures var c := SystemState.FirstContext(a);
      var mem' := Cleared(mem, a)[c + 4 := 0x10][c := 0x10][c + 12 := 0x10][c + 8 := 0x10][c + 52 := 0x08]
                    [c + 24 := 0][c + 28 := c + SystemState.CONTEXT_SIZE][c + 56 := 0x202][c + 48 := entry];
      ContextAt(mem', c) == InitialRegs(a, entry) && OnlyStack(a, mem, mem')
  {
  }

  method StoreFrame(ram: Ram, a: int, context: int, entry: int)
    requires context == SystemState.FirstContext(a)
    modifies ram
    ensures ContextAt(ram.words, context) == InitialRegs(a, entry) && OnlyStack(a, old(ram.words), ram.words)
  {
    hide ContextAt, InitialRegs, OnlyStack, Cleared;
    ghost var was := ram.words;
    ram.words := Cleared(ram.words, a);
    ram.words := ram.words[context + 4 := 0x10];
    ram.words := ram.words[context := 0x10];
    ram.words := ram.words[context + 12 := 0x10];
    ram.words := ram.words[context + 8 := 0x10];
    ram.words := ram.words[context + 52 := 0x08];
    ram.words := ram.words[context + 24 := 0];
    ram.words := ram.words[context + 28 := context + SystemState.CONTEXT_SIZE];
    ram.words := ram.words[context + 56 := 0x202];
    ram.words := ram.words[context + 48 := entry];
    FrameIs(was, a, entry);
  }

  lemma SplitAt(kept: seq<Pcb>, es: seq<Pcb>, i: nat)
    requires i < |es|
    ensures kept + es[i..] == kept + [es[i]] + es[i + 1..]
    ensures (if es[i + 1..] == [] then null else es[i + 1..][0]) == if i + 1 < |es| then es[i + 1] else null
  {
  }

  lemma EachStep(s: SystemState.Sys, todo: seq<Proc>, i: nat)
    requires i < |todo|
    ensures SystemState.ResumeEach(s, todo[i..])
         == SystemState.ResumeEach(SystemState.Resume(s, todo[i].name).0, todo[i + 1..])
  {
    hide SystemState.Resume;
    assert todo[i..][1..] == todo[i + 1..];
  }

  lemma NoneLeft(s: SystemState.Sys, todo: seq<Proc>)
    requires todo == []
    ensures SystemState.ResumeEach(s, todo) == s
  {
  }

  lemma SnapsAround(kept: seq<Pcb>, p: Pcb, rest: seq<Pcb>)
    ensures Snaps(kept + [p] + rest) == Snaps(kept) + [p.Snap()] + Snaps(rest)
  {
    hide Snaps;
  }

  lemma InLine(q: PcbQueue, kept: seq<Pcb>, p: Pcb, rest: seq<Pcb>)
    requires q.Valid() && q.elems == kept + [p] + rest
    ensures p.next == (if rest == [] then null else rest[0]) && Omit(q.elems, p) == kept + rest
    ensures forall x :: x in q.elems && x.addr == p.addr ==> x == p
  {
    hide Omit;
    var es, at := q.elems, |kept|;
    assert es[at] == p && es[at].next == p.next;
    OmitAt(es, at);
    assert es[..at] == kept && es[at + 1..] == rest;
  }

  lemma InItsQueue(q: PcbQueue, k: QueueId, p: Pcb)
    requires At(q, k) && p in q.elems
    ensures Home(p.Snap()) == k
  {
  }

  /** The order of the search. */
  function Nth(i: int): QueueId {
    if i == 0 then ReadyQ else if i == 1 then BlockedQ else if i == 2 then SuspendedReadyQ else SuspendedBlockedQ
  }

  function FoundFrom(s: SystemState.Sys, i: nat, name: string): Option<Proc>
    decreases 4 - i
  {
    if i >= 4 then None
    else
      var r := FirstNamed(SystemState.Queue(s, Nth(i)), name);
      if r.Some? then r else FoundFrom(s, i + 1, name)
  }

  lemma FindsInOrder(s: SystemState.Sys, name: string)
    ensures SystemState.Find(s, name) == FoundFrom(s, 0, name)
  {
    FirstNamedConcat(s.ready, s.blocked, name);
    FirstNamedConcat(s.ready + s.blocked, s.suspendedReady, name);
    FirstNamedConcat(s.ready + s.blocked + s.suspendedReady, s.suspendedBlocked, name);
    hide FirstNamed;
    assert FoundFrom(s, 4, name) == None;
    assert FoundFrom(s, 3, name) == FirstNamed(s.suspendedBlocked, name);
    assert FoundFrom(s, 2, name) == FirstNamed(s.suspendedReady + s.suspendedBlocked, name) by {
      FirstNamedConcat(s.suspendedReady, s.suspendedBlocked, name);
    }
    assert FoundFrom(s, 1, name) ==
      if FirstNamed(s.blocked, name).Some? then FirstNamed(s.blocked, name) else FoundFrom(s, 2, name);
  }
}
