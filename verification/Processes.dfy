/** Process control blocks as values, and the orders their queues are kept in. */
module Processes {
  datatype Option<+T> = None | Some(value: T)

  datatype ProcessClass = SystemClass | UserClass
  datatype ExecutionState = Ready | Running | Blocked
  datatype DispatchState = Active | Suspended

  /** The fields of a `struct pcb` that its queues and the commands look at. `addr` is the
      address the kernel heap gave the block, which is what identifies it. */
  datatype Proc = Proc(addr: int, name: string, class_: ProcessClass, priority: int,
                       exec: ExecutionState, dispatch: DispatchState)

  datatype QueueId = ReadyQ | BlockedQ | SuspendedReadyQ | SuspendedBlockedQ

  const NAME_MAX := 16
  const LOWEST := 9

  /** The queue is never stored: it is recomputed from the two flags. */
  function Home(p: Proc): QueueId {
    if p.dispatch.Suspended? then
      if p.exec.Blocked? then SuspendedBlockedQ else SuspendedReadyQ
    else
      if p.exec.Blocked? then BlockedQ else ReadyQ
  }

  /** What `pcb_setup` checks, the fact that no code assigns STATE_RUNNING, and the refusal of
      `suspend` to touch an empty name. */
  predicate WellFormed(p: Proc) {
    && 0 <= p.priority <= LOWEST && |p.name| < NAME_MAX && !p.exec.Running?
    && (p.dispatch.Suspended? ==> p.name != "")
  }

  // ----- Queue contents as sequences -----

  /** Where `pcb_insert` puts a block in the ready queue: before the first larger priority value. */
  function InsertByPriority(q: seq<Proc>, p: Proc): seq<Proc> {
    if q != [] && q[0].priority <= p.priority then [q[0]] + InsertByPriority(q[1..], p) else [p] + q
  }

  /** The sequence without the (first) block at an address. */
  function Without(q: seq<Proc>, a: int): seq<Proc> {
    if q == [] then [] else if q[0].addr == a then q[1..] else [q[0]] + Without(q[1..], a)
  }

  /** How often an address occurs in a queue. */
  function Occurs(q: seq<Proc>, a: int): nat {
    if q == [] then 0 else (if q[0].addr == a then 1 else 0) + Occurs(q[1..], a)
  }

  /** The first block of a name along a queue. */
  function FirstNamed(q: seq<Proc>, name: string): Option<Proc> {
    if q == [] then None else if q[0].name == name then Some(q[0]) else FirstNamed(q[1..], name)
  }

  ghost predicate Distinct(q: seq<Proc>) {
    forall i, j :: 0 <= i < j < |q| ==> q[i].addr != q[j].addr
  }

  predicate Sorted(q: seq<Proc>) {
    forall i, j :: 0 <= i < j < |q| ==> q[i].priority <= q[j].priority
  }

  lemma {:induction false} InsertAt(q: seq<Proc>, p: Proc, i: nat)
    requires i <= |q|
    requires forall j :: 0 <= j < i ==> q[j].priority <= p.priority
    requires i < |q| ==> q[i].priority > p.priority
    ensures InsertByPriority(q, p) == q[..i] + [p] + q[i..]
  {
    if i > 0 {
      InsertAt(q[1..], p, i - 1);
      assert q[..i] == [q[0]] + q[1..][..i - 1];
      assert q[i..] == q[1..][i - 1..];
    }
  }

  /** Insertion and then removal of a better or equal head is insertion behind it. */
  lemma InsertThenTakeHead(q: seq<Proc>, p: Proc)
    requires q != [] && Sorted(q) && q[0].addr != p.addr
    ensures Without(InsertByPriority(q, p), q[0].addr) == InsertByPriority(q[1..], p)
  {
    hide Without, InsertByPriority;
    var h, t := q[0], q[1..];
    if h.priority <= p.priority {
      InsertLater(q, p);
      WithoutHead(h, InsertByPriority(t, p));
    } else {
      forall r | r in t ensures r.priority > p.priority {
        var j :| 0 <= j < |t| && t[j] == r;
        assert q[j + 1] == r;
      }
      forall r | r in q ensures r.priority > p.priority {
        var j :| 0 <= j < |q| && q[j] == r;
      }
      InsertFirst(q, p);
      InsertFirst(t, p);
      assert ([p] + q)[1..] == q && q == [h] + t;
      WithoutLater([p] + q, h.addr);
      WithoutHead(h, t);
    }
  }

  lemma InsertLater(q: seq<Proc>, p: Proc)
    requires q != [] && q[0].priority <= p.priority
    ensures InsertByPriority(q, p) == [q[0]] + InsertByPriority(q[1..], p)
  {
  }

  lemma WithoutHead(h: Proc, t: seq<Proc>)
    ensures Without([h] + t, h.addr) == t
  {
    assert ([h] + t)[1..] == t;
  }

  /** Every insertion has such a position. */
  lemma {:induction false} InsertPosition(q: seq<Proc>, p: Proc) returns (i: nat)
    ensures i <= |q|
    ensures forall j :: 0 <= j < i ==> q[j].priority <= p.priority
    ensures i < |q| ==> q[i].priority > p.priority
    ensures InsertByPriority(q, p) == q[..i] + [p] + q[i..]
  {
    i := 0;
    while i < |q| && q[i].priority <= p.priority
      invariant i <= |q|
      invariant forall j :: 0 <= j < i ==> q[j].priority <= p.priority
    {
      i := i + 1;
    }
    InsertAt(q, p, i);
  }

  lemma {:induction false} WithoutAt(q: seq<Proc>, i: nat)
    requires i < |q| && Distinct(q)
    ensures Without(q, q[i].addr) == q[..i] + q[i + 1..]
  {
    hide Without;
    var t := q[1..];
    if i == 0 {
      assert q == [q[0]] + t && q[..0] + t == t;
      WithoutHead(q[0], t);
    } else {
      assert t[i - 1] == q[i] && Distinct(t);
      WithoutAt(t, i - 1);
      WithoutLater(q, q[i].addr);
      CutLater(q, i);
    }
  }

  lemma WithoutLater(q: seq<Proc>, a: int)
    requires q != [] && q[0].addr != a
    ensures Without(q, a) == [q[0]] + Without(q[1..], a)
  {
  }

  lemma CutLater<T>(q: seq<T>, i: nat)
    requires 0 < i < |q|
    ensures q[..i] + q[i + 1..] == [q[0]] + (q[1..][..i - 1] + q[1..][i..])
  {
  }

  lemma Uncons<T>(x: seq<T>, y: seq<T>)
    requires x != []
    ensures (x + y)[0] == x[0] && (x + y)[1..] == x[1..] + y && x == [x[0]] + x[1..]
  {
  }

  lemma ConsConcat<T>(h: T, x: seq<T>, y: seq<T>)
    ensures ([h] + x) + y == [h] + (x + y)
  {
  }

  lemma {:induction false} WithoutAbsent(q: seq<Proc>, a: int)
    requires forall p :: p in q ==> p.addr != a
    ensures Without(q, a) == q
  {
    if q != [] {
      assert forall p :: p in q[1..] ==> p in q;
      WithoutAbsent(q[1..], a);
    }
  }

  ghost predicate Has(q: seq<Proc>, a: int) {
    exists p :: p in q && p.addr == a
  }

  lemma HasLater(q: seq<Proc>, a: int)
    requires q != []
    ensures Has(q, a) <==> q[0].addr == a || Has(q[1..], a)
  {
    assert q == [q[0]] + q[1..];
    if q[0].addr == a { assert q[0] in q; }
  }

  lemma {:induction false} WithoutConcat(x: seq<Proc>, y: seq<Proc>, a: int)
    ensures Without(x + y, a) == if Has(x, a) then Without(x, a) + y else x + Without(y, a)
  {
    if x == [] {
      assert x + y == y && x + Without(y, a) == Without(y, a);
    } else {
      if x[0].addr != a { WithoutConcat(x[1..], y, a); }
      WithoutConcatStep(x, y, a);
    }
  }

  lemma WithoutConcatStep(x: seq<Proc>, y: seq<Proc>, a: int)
    requires x != []
    requires x[0].addr != a ==>
      Without(x[1..] + y, a) == if Has(x[1..], a) then Without(x[1..], a) + y else x[1..] + Without(y, a)
    ensures Without(x + y, a) == if Has(x, a) then Without(x, a) + y else x + Without(y, a)
  {
    hide Has;
    HasLater(x, a);
    Uncons(x, y);
    if x[0].addr != a {
      WithoutLater(x + y, a);
      WithoutLater(x, a);
      ConsConcat(x[0], Without(x[1..], a), y);
      ConsConcat(x[0], x[1..], Without(y, a));
    }
  }

  lemma WithoutMembers(q: seq<Proc>, a: int)
    requires Distinct(q)
    ensures forall p :: p in Without(q, a) <==> p in q && p.addr != a
  {
    if i :| 0 <= i < |q| && q[i].addr == a {
      WithoutAt(q, i);
      var x, y := q[..i], q[i + 1..];
      forall p ensures p in x + y <==> p in q && p.addr != a {
        if p in q && p.addr != a {
          var j :| 0 <= j < |q| && q[j] == p;
          if j < i { assert x[j] == p; } else { assert y[j - i - 1] == p; }
        }
      }
    } else {
      WithoutAbsent(q, a);
    }
  }

  // ----- Searching -----

  lemma {:induction false} FirstNamedFound(q: seq<Proc>, name: string)
    ensures var r := FirstNamed(q, name);
      if r.Some? then r.value in q && r.value.name == name
      else forall p :: p in q ==> p.name != name
  {
    if q != [] {
      FirstNamedFound(q[1..], name);
      assert q == [q[0]] + q[1..];
    }
  }

  lemma {:induction false} FirstNamedAt(q: seq<Proc>, i: nat, name: string)
    requires i < |q| && q[i].name == name && forall j :: 0 <= j < i ==> q[j].name != name
    ensures FirstNamed(q, name) == Some(q[i])
  {
    if i > 0 {
      FirstNamedAt(q[1..], i - 1, name);
    }
  }

  lemma {:induction false} FirstNamedConcat(x: seq<Proc>, y: seq<Proc>, name: string)
    ensures FirstNamed(x + y, name) == if FirstNamed(x, name).Some? then FirstNamed(x, name) else FirstNamed(y, name)
  {
    if x == [] {
      assert x + y == y;
    } else {
      assert (x + y)[1..] == x[1..] + y;
      FirstNamedConcat(x[1..], y, name);
    }
  }

  // ----- Counting addresses -----

  lemma {:induction false} OccursConcat(x: seq<Proc>, y: seq<Proc>, a: int)
    ensures Occurs(x + y, a) == Occurs(x, a) + Occurs(y, a)
  {
    if x == [] {
      assert x + y == y;
    } else {
      assert (x + y)[1..] == x[1..] + y;
      OccursConcat(x[1..], y, a);
    }
  }

  lemma OccursSingle(p: Proc, a: int)
    ensures Occurs([p], a) == if p.addr == a then 1 else 0
  {
    assert Occurs([p][1..], a) == 0;
  }

  lemma OccursAppend(q: seq<Proc>, p: Proc, a: int)
    ensures Occurs(q + [p], a) == Occurs(q, a) + if p.addr == a then 1 else 0
  {
    OccursConcat(q, [p], a);
    OccursSingle(p, a);
  }

  lemma {:induction false} OccursInsert(q: seq<Proc>, p: Proc, a: int)
    ensures Occurs(InsertByPriority(q, p), a) == Occurs(q, a) + if p.addr == a then 1 else 0
  {
    if q != [] && q[0].priority <= p.priority {
      OccursInsert(q[1..], p, a);
      var r := InsertByPriority(q[1..], p);
      assert ([q[0]] + r)[1..] == r;
    } else {
      assert ([p] + q)[1..] == q;
    }
  }

  lemma {:induction false} OccursMember(q: seq<Proc>, a: int)
    ensures Occurs(q, a) > 0 <==> exists p :: p in q && p.addr == a
  {
    if q != [] {
      OccursMember(q[1..], a);
      assert q == [q[0]] + q[1..];
      assert q[0] in q;
    }
  }

  lemma {:induction false} OccursWithout(q: seq<Proc>, x: int, a: int)
    ensures Occurs(Without(q, x), a) == Occurs(q, a) - if a == x && Occurs(q, a) > 0 then 1 else 0
  {
    if q != [] && q[0].addr != x {
      OccursWithout(q[1..], x, a);
      var w := Without(q[1..], x);
      assert ([q[0]] + w)[1..] == w;
    }
  }

  lemma {:induction false} OccursDistinct(q: seq<Proc>)
    requires forall a :: Occurs(q, a) <= 1
    ensures Distinct(q)
  {
    if q != [] {
      forall a ensures Occurs(q[1..], a) <= 1 {
        assert Occurs(q, a) <= 1;
      }
      OccursDistinct(q[1..]);
      OccursMember(q[1..], q[0].addr);
      forall i, j | 0 <= i < j < |q| ensures q[i].addr != q[j].addr {
        assert q[j] == q[1..][j - 1];
        assert q[j] in q[1..];
        assert Occurs(q, q[0].addr) <= 1;
        if i > 0 { assert q[i] == q[1..][i - 1]; }
      }
    }
  }

  // ----- The stable sort by priority, defined bucket by bucket -----

  function AtPriority(l: seq<Proc>, k: int): seq<Proc> {
    if l == [] then []
    else if l[0].priority == k then [l[0]] + AtPriority(l[1..], k)
    else AtPriority(l[1..], k)
  }

  function Buckets(l: seq<Proc>, k: nat): seq<Proc>
    decreases LOWEST + 1 - k
  {
    if k > LOWEST then [] else AtPriority(l, k) + Buckets(l, k + 1)
  }

  /** All of priority 0 in their order in `l`, then all of priority 1, and so on. */
  function StableSort(l: seq<Proc>): seq<Proc> {
    Buckets(l, 0)
  }

  lemma {:induction false} AtPriorityMembers(l: seq<Proc>, k: int)
    ensures forall p :: p in AtPriority(l, k) <==> p in l && p.priority == k
  {
    if l != [] {
      AtPriorityMembers(l[1..], k);
      assert l == [l[0]] + l[1..];
    }
  }

  lemma {:induction false} BucketsMembers(l: seq<Proc>, k: nat)
    ensures forall p :: p in Buckets(l, k) <==> p in l && k <= p.priority <= LOWEST
    decreases LOWEST + 1 - k
  {
    if k <= LOWEST {
      AtPriorityMembers(l, k);
      BucketsMembers(l, k + 1);
    }
  }

  lemma {:induction false} AtPriorityAppend(l: seq<Proc>, p: Proc, k: int)
    ensures AtPriority(l + [p], k) == if p.priority == k then AtPriority(l, k) + [p] else AtPriority(l, k)
  {
    if l == [] {
      assert l + [p] == [p];
      assert [p][1..] == [];
    } else {
      assert (l + [p])[1..] == l[1..] + [p];
      AtPriorityAppend(l[1..], p, k);
    }
  }

  lemma {:induction false} InsertSkips(x: seq<Proc>, y: seq<Proc>, p: Proc)
    requires forall r :: r in x ==> r.priority <= p.priority
    ensures InsertByPriority(x + y, p) == x + InsertByPriority(y, p)
  {
    if x == [] {
      assert x + y == y;
    } else {
      assert x[0] in x;
      assert (x + y)[1..] == x[1..] + y;
      InsertSkips(x[1..], y, p);
      assert x == [x[0]] + x[1..];
    }
  }

  lemma {:induction false} BucketsAppend(l: seq<Proc>, p: Proc, k: nat)
    requires p.priority <= LOWEST
    ensures Buckets(l + [p], k)
         == if k <= p.priority then InsertByPriority(Buckets(l, k), p) else Buckets(l, k)
    decreases LOWEST + 1 - k
  {
    hide AtPriority, InsertByPriority;
    if k <= LOWEST {
      var x, y := AtPriority(l, k), Buckets(l, k + 1);
      AtPriorityAppend(l, p, k);
      BucketsAppend(l, p, k + 1);
      if k < p.priority {
        AtPriorityMembers(l, k);
        InsertSkips(x, y, p);
      } else if k == p.priority {
        BucketsAppendHere(l, p, k);
      }
    }
  }

  lemma BucketsAppendHere(l: seq<Proc>, p: Proc, k: nat)
    requires p.priority == k <= LOWEST
    ensures InsertByPriority(Buckets(l, k), p) == AtPriority(l, k) + [p] + Buckets(l, k + 1)
  {
    hide AtPriority;
    var x, y := AtPriority(l, k), Buckets(l, k + 1);
    AtPriorityMembers(l, k);
    InsertSkips(x, y, p);
    BucketsMembers(l, k + 1);
    InsertFirst(y, p);
    assert x + ([p] + y) == x + [p] + y;
  }

  lemma InsertFirst(y: seq<Proc>, p: Proc)
    requires forall r :: r in y ==> r.priority > p.priority
    ensures InsertByPriority(y, p) == [p] + y
  {
    if y != [] { assert y[0] in y; }
  }

  lemma {:induction false} AtPriorityWithout(l: seq<Proc>, a: int, k: int)
    requires Distinct(l)
    ensures AtPriority(Without(l, a), k) == Without(AtPriority(l, k), a)
  {
    if l != [] {
      var rest := AtPriority(l[1..], k);
      if l[0].addr == a {
        AtPriorityMembers(l[1..], k);
        TailAbsent(l);
        WithoutAbsent(rest, a);
        if l[0].priority == k { assert ([l[0]] + rest)[1..] == rest; }
      } else {
        AtPriorityWithout(l[1..], a, k);
        var w := Without(l[1..], a);
        assert ([l[0]] + w)[1..] == w;
        if l[0].priority == k {
          assert ([l[0]] + rest)[1..] == rest;
          assert Without([l[0]] + rest, a) == [l[0]] + Without(rest, a);
        }
      }
    }
  }

  lemma TailAbsent(l: seq<Proc>)
    requires l != [] && Distinct(l)
    ensures forall p :: p in l[1..] ==> p.addr != l[0].addr
  {
    forall p | p in l[1..] ensures p.addr != l[0].addr {
      var j :| 0 <= j < |l[1..]| && l[1..][j] == p;
      assert l[j + 1] == p;
    }
  }

  lemma {:induction false} BucketsWithout(l: seq<Proc>, a: int, k: nat)
    requires Distinct(l)
    ensures Buckets(Without(l, a), k) == Without(Buckets(l, k), a)
    decreases LOWEST + 1 - k
  {
    hide AtPriority, Without, Distinct, Has;
    if k <= LOWEST {
      AtPriorityWithout(l, a, k);
      BucketsWithout(l, a, k + 1);
      var x, y := AtPriority(l, k), Buckets(l, k + 1);
      WithoutConcat(x, y, a);
      if Has(x, a) {
        OneBucket(l, a, k);
        WithoutAbsent(y, a);
      } else {
        NoneHas(x, a);
        WithoutAbsent(x, a);
      }
    } else {
      WithoutAbsent([], a);
    }
  }

  lemma NoneHas(q: seq<Proc>, a: int)
    requires !Has(q, a)
    ensures forall p :: p in q ==> p.addr != a
  {
  }

  lemma OneBucket(l: seq<Proc>, a: int, k: nat)
    requires Distinct(l)
    requires Has(AtPriority(l, k), a)
    ensures forall r :: r in Buckets(l, k + 1) ==> r.addr != a
  {
    var p :| p in AtPriority(l, k) && p.addr == a;
    AtPriorityMembers(l, k);
    BucketsMembers(l, k + 1);
    var i :| 0 <= i < |l| && l[i] == p;
    forall r | r in Buckets(l, k + 1) ensures r.addr != a {
      var j :| 0 <= j < |l| && l[j] == r;
      assert i != j;
    }
  }

  lemma {:induction false} BucketsNil(k: nat)
    ensures Buckets([], k) == []
    decreases LOWEST + 1 - k
  {
    if k <= LOWEST { BucketsNil(k + 1); }
  }

  lemma {:induction false} BucketsOccurs(l: seq<Proc>, a: int)
    requires forall p :: p in l ==> 0 <= p.priority <= LOWEST
    ensures Occurs(StableSort(l), a) == Occurs(l, a)
  {
    if l == [] {
      BucketsNil(0);
    } else {
      var h, t := l[..|l| - 1], l[|l| - 1];
      assert l == h + [t];
      BucketsOccurs(h, a);
      BucketsAppend(h, t, 0);
      OccursInsert(StableSort(h), t, a);
      OccursAppend(h, t, a);
    }
  }

  lemma {:induction false} BucketsSorted(l: seq<Proc>, k: nat)
    ensures Sorted(Buckets(l, k))
    decreases LOWEST + 1 - k
  {
    if k <= LOWEST {
      var x, y := AtPriority(l, k), Buckets(l, k + 1);
      BucketsSorted(l, k + 1);
      AtPriorityMembers(l, k);
      BucketsMembers(l, k + 1);
      assert forall i :: 0 <= i < |x| ==> x[i] in x;
      assert forall i :: 0 <= i < |y| ==> y[i] in y;
    }
  }

  /** The head of a stable sort is the oldest among the best. */
  lemma {:induction false} StableSortHead(l: seq<Proc>, k: nat)
    requires Buckets(l, k) != []
    requires forall p :: p in l ==> k <= p.priority <= LOWEST
    ensures exists i :: 0 <= i < |l| && l[i] == Buckets(l, k)[0]
                     && (forall j :: 0 <= j < |l| ==> l[i].priority <= l[j].priority)
                     && (forall j :: 0 <= j < i ==> l[i].priority < l[j].priority)
    decreases LOWEST + 1 - k
  {
    var x := AtPriority(l, k);
    AtPriorityMembers(l, k);
    if x == [] {
      forall p | p in l ensures k + 1 <= p.priority { assert p !in x; }
      StableSortHead(l, k + 1);
    } else {
      var i := FirstAtPriority(l, k);
      forall j | 0 <= j < |l| ensures l[i].priority <= l[j].priority { assert l[j] in l; }
      forall j | 0 <= j < i ensures l[i].priority < l[j].priority { assert l[j] in l; }
    }
  }

  lemma {:induction false} FirstAtPriority(l: seq<Proc>, k: int) returns (i: nat)
    requires AtPriority(l, k) != []
    ensures i < |l| && l[i] == AtPriority(l, k)[0] && l[i].priority == k
    ensures forall j :: 0 <= j < i ==> l[j].priority != k
  {
    if l[0].priority == k {
      i := 0;
    } else {
      var r := FirstAtPriority(l[1..], k);
      i := r + 1;
      assert forall j :: 0 < j < i ==> l[j] == l[1..][j - 1];
    }
  }
}
