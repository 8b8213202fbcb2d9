/** Process control blocks on the heap, and one intrusive doubly linked queue of them. */
module PcbQueues {
  import opened Processes
  import Strings

  class Pcb {
    const addr: int
    const name: Strings.CString
    const class_: ProcessClass
    var priority: int
    var exec: ExecutionState
    var dispatch: DispatchState
    var context: int
    var next: Pcb?
    var prev: Pcb?

    /** A block fresh from `pcb_setup`: ready, active and linked nowhere. */
    constructor (addr: int, name: Strings.CString, class_: ProcessClass, priority: int, context: int)
      ensures Snap() == Proc(addr, name, class_, priority, Ready, Active)
      ensures this.addr == addr && this.context == context && next == null && prev == null
    {
      this.addr, this.name, this.class_, this.priority := addr, name, class_, priority;
      this.exec, this.dispatch, this.context := Ready, Active, context;
      this.next, this.prev := null, null;
    }

    /** The block's fields as a value. */
    function Snap(): Proc
      reads this`priority, this`exec, this`dispatch
    {
      Proc(addr, name, class_, priority, exec, dispatch)
    }
  }

  function Snaps(elems: seq<Pcb>): (r: seq<Proc>)
    reads elems
    ensures |r| == |elems| && forall i :: 0 <= i < |elems| ==> r[i] == elems[i].Snap()
  {
    if elems == [] then [] else [elems[0].Snap()] + Snaps(elems[1..])
  }

  // ----- Relinking changes no block's fields, so contents follow the elements -----

  /** The contents these blocks had, and still have. */
  ghost predicate Shows(elems: seq<Pcb>, was: seq<Proc>)
    reads elems
  {
    |was| == |elems| && forall i :: 0 <= i < |elems| ==> was[i] == elems[i].Snap()
  }

  lemma SnapsSplice(elems: seq<Pcb>, mid: seq<Pcb>, i: nat, j: nat)
    requires i <= j <= |elems|
    ensures Snaps(elems[..i] + mid + elems[j..]) == Snaps(elems)[..i] + Snaps(mid) + Snaps(elems)[j..]
  {
    hide Snaps;
  }

  lemma SnapsCut(elems: seq<Pcb>, at: nat)
    requires at < |elems|
    ensures Snaps(elems[..at] + elems[at + 1..]) == Snaps(elems)[..at] + Snaps(elems)[at + 1..]
  {
    hide Snaps;
    var l, r := Snaps(elems[..at] + elems[at + 1..]), Snaps(elems)[..at] + Snaps(elems)[at + 1..];
    forall i | 0 <= i < |r| ensures l[i] == r[i] {
      assert r[i] == if i < at then elems[i].Snap() else elems[i + 1].Snap();
    }
  }

  lemma SnapsInserted(elems: seq<Pcb>, p: Pcb, at: nat, was: seq<Proc>)
    requires at <= |elems| && Shows(elems, was)
    requires forall j :: 0 <= j < at ==> elems[j].priority <= p.priority
    requires at < |elems| ==> elems[at].priority > p.priority
    ensures Snaps(elems[..at] + [p] + elems[at..]) == InsertByPriority(was, p.Snap())
  {
    hide Snaps;
    assert Snaps(elems) == was;
    SnapsSplice(elems, [p], at, at);
    InsertAt(was, p.Snap(), at);
    assert Snaps([p]) == [p.Snap()];
  }

  lemma SnapsAppended(elems: seq<Pcb>, p: Pcb, was: seq<Proc>)
    requires Shows(elems, was)
    ensures Snaps(elems + [p]) == was + [p.Snap()]
  {
    hide Snaps;
  }

  lemma SnapsRemoved(elems: seq<Pcb>, at: nat, was: seq<Proc>)
    requires at < |elems| && Shows(elems, was)
    requires forall i, j :: 0 <= i < j < |elems| ==> elems[i].addr != elems[j].addr
    ensures Snaps(elems[..at] + elems[at + 1..]) == Without(was, elems[at].addr)
  {
    hide Snaps;
    assert Snaps(elems) == was;
    SnapsCut(elems, at);
    WithoutAt(was, at);
  }

  ghost predicate Unique(elems: seq<Pcb>) {
    forall i, j :: 0 <= i < j < |elems| ==> elems[i].addr != elems[j].addr
  }

  lemma UniqueCut(elems: seq<Pcb>, at: nat)
    requires Unique(elems) && at < |elems|
    ensures Unique(elems[..at] + elems[at + 1..])
  {
  }

  lemma UniqueSplice(elems: seq<Pcb>, p: Pcb, at: nat)
    requires Unique(elems) && at <= |elems| && forall i :: 0 <= i < |elems| ==> elems[i].addr != p.addr
    ensures Unique(elems[..at] + [p] + elems[at..])
  {
  }

  /** The place of an element is its only one. */
  lemma OnlyAt(elems: seq<Pcb>, at: nat)
    requires Unique(elems) && at < |elems|
    ensures forall i :: 0 <= i < |elems| && i != at ==> elems[i] != elems[at]
  {
  }

  class PcbQueue {
    var head: Pcb?
    var tail: Pcb?
    ghost var elems: seq<Pcb>

    constructor ()
      ensures Valid() && elems == []
    {
      head, tail, elems := null, null, [];
    }

    ghost predicate Apart()
      reads this
    {
      Unique(elems)
    }

    ghost predicate Ends()
      reads this
    {
      && head == (if elems == [] then null else elems[0])
      && tail == (if elems == [] then null else elems[|elems| - 1])
    }

    ghost predicate Forward()
      reads this, elems
    {
      forall i {:trigger elems[i].next} :: 0 <= i < |elems| ==>
        elems[i].next == if i + 1 < |elems| then elems[i + 1] else null
    }

    ghost predicate Backward()
      reads this, elems
    {
      forall i {:trigger elems[i].prev} :: 0 <= i < |elems| ==> elems[i].prev == if i > 0 then elems[i - 1] else null
    }

    /** The links spell out `elems`: from head by next, with prev its exact mirror, to tail. */
    ghost predicate Valid()
      reads this, elems
    {
      Apart() && Ends() && Forward() && Backward()
    }

    ghost function Contents(): seq<Proc>
      reads this, elems
    {
      Snaps(elems)
    }

    /** `strcmp` along the links. */
    method Search(name: Strings.CString) returns (found: Pcb?)
      requires Valid()
      ensures found == null ==> FirstNamed(Contents(), name) == None
      ensures found != null ==> found in elems && FirstNamed(Contents(), name) == Some(found.Snap())
    {
      hide Snaps, FirstNamed;
      Strings.TerminatedText(name);
      found := head;
      ghost var i := 0;
      while found != null
        invariant 0 <= i <= |elems| && found == (if i < |elems| then elems[i] else null)
        invariant forall j :: 0 <= j < i ==> elems[j].name != name
        decreases |elems| - i
      {
        Strings.TerminatedText(found.name);
        var diff := Strings.Strcmp(found.name + [Strings.NUL], name + [Strings.NUL]);
        if diff == 0 {
          FirstNamedAt(Contents(), i, name);
          return;
        }
        assert found.next == elems[i].next;
        found := found.next;
        i := i + 1;
      }
      FirstNamedFound(Contents(), name);
    }

    /** FIFO within a priority: before the first block with a larger priority value. */
    method InsertByPriority(p: Pcb) returns (ghost at: nat)
      requires Valid() && p.next == null && p.prev == null
      requires forall i :: 0 <= i < |elems| ==> elems[i].addr != p.addr
      modifies this, p`next, p`prev, elems`next, elems`prev
      ensures Valid() && at <= old(|elems|) && elems == old(elems[..at] + [p] + elems[at..])
      ensures forall j :: 0 <= j < at ==> old(elems)[j].priority <= p.priority
      ensures at < old(|elems|) ==> old(elems)[at].priority > p.priority
    {
      var cur := head;
      at := 0;
      while cur != null && cur.priority <= p.priority
        invariant at <= |elems| && cur == (if at < |elems| then elems[at] else null)
        invariant forall j :: 0 <= j < at ==> elems[j].priority <= p.priority
        decreases |elems| - at
      {
        assert cur.next == elems[at].next;
        cur := cur.next;
        at := at + 1;
      }
      if cur == null {
        Append(p);
      } else {
        LinkBefore(p, cur, at);
      }
    }

    /** The middle and front case: relink around the new block. */
    method LinkBefore(p: Pcb, cur: Pcb, ghost at: nat)
      requires Valid() && p.next == null && p.prev == null && at < |elems| && elems[at] == cur
      requires forall i :: 0 <= i < |elems| ==> elems[i].addr != p.addr
      modifies this, p`next, p`prev, elems`next, elems`prev
      ensures Valid() && elems == old(elems[..at] + [p] + elems[at..])
    {
      hide Unique;
      ghost var es := elems;
      UniqueSplice(es, p, at);
      OnlyAt(es, at);
      if at > 0 { OnlyAt(es, at - 1); }
      assert es[at].prev == if at > 0 then es[at - 1] else null;
      p.next := cur;
      p.prev := cur.prev;
      if cur.prev != null {
        cur.prev.next := p;
      } else {
        head := p;
      }
      cur.prev := p;
      assert forall i {:trigger es[i].next} :: 0 <= i < |es| ==>
        es[i].next == if i + 1 == at then p else if i + 1 < |es| then es[i + 1] else null;
      assert forall i {:trigger es[i].prev} :: 0 <= i < |es| ==>
        es[i].prev == if i == at then p else if i > 0 then es[i - 1] else null;
      elems := es[..at] + [p] + es[at..];
      assert forall i :: 0 <= i < at ==> elems[i] == es[i];
      assert forall i :: at < i < |elems| ==> elems[i] == es[i - 1];
    }

    method Append(p: Pcb)
      requires Valid() && p.next == null && p.prev == null
      requires forall i :: 0 <= i < |elems| ==> elems[i].addr != p.addr
      modifies this, p`next, p`prev, elems`next
      ensures Valid() && elems == old(elems) + [p]
    {
      ghost var es := elems;
      assert tail != null ==> tail == es[|es| - 1];
      if head == null {
        head := p;
        tail := p;
      } else {
        tail.next := p;
        p.prev := tail;
        tail := p;
      }
      elems := es + [p];
      assert forall i :: 0 <= i < |es| ==> elems[i] == es[i];
    }

    /** Any member: head, middle, tail or only one. */
    method Unlink(p: Pcb, ghost at: nat)
      requires Valid() && at < |elems| && elems[at] == p
      modifies this, elems`next, elems`prev
      ensures Valid() && elems == old(elems[..at] + elems[at + 1..])
      ensures p.next == null && p.prev == null
    {
      hide Unique;
      ghost var es := elems;
      UniqueCut(es, at);
      OnlyAt(es, at);
      if at > 0 { OnlyAt(es, at - 1); }
      if at + 1 < |es| { OnlyAt(es, at + 1); }
      assert es[at].prev == if at > 0 then es[at - 1] else null;
      assert es[at].next == if at + 1 < |es| then es[at + 1] else null;
      if p.prev != null {
        p.prev.next := p.next;
      } else {
        head := p.next;
      }
      if p.next != null {
        p.next.prev := p.prev;
      } else {
        tail := p.prev;
      }
      p.next := null;
      p.prev := null;
      assert forall i {:trigger es[i].next} :: 0 <= i < |es| && i != at ==>
        es[i].next == if i + 1 == at then old(p.next) else if i + 1 < |es| then es[i + 1] else null;
      assert forall i {:trigger es[i].prev} :: 0 <= i < |es| && i != at ==>
        es[i].prev == if i == at + 1 then old(p.prev) else if i > 0 then es[i - 1] else null;
      elems := es[..at] + es[at + 1..];
      assert forall i :: 0 <= i < at ==> elems[i] == es[i];
      assert forall i :: at <= i < |elems| ==> elems[i] == es[i + 1];
    }
  }
}
