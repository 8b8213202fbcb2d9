/** The primitive allocator as a function: physical memory until paging is on, then the kernel
    heap. Nothing is ever given back. */
module Allocators {
  import opened Processes
  import KernelHeap

  const PAGE := 0x1000

  /** `phys_alloc_addr`, `heap_is_initialized` and `heap_addr`. */
  datatype Mem = Mem(phys: int, heapOn: bool, heap: int)

  /** To the next page, even from an aligned address. */
  function AlignUp(p: int): int {
    if p >= PAGE then p - p % PAGE + PAGE else p
  }

  /** The state after a request and the address it gets, or None for a panic. */
  function Kmalloc(m: Mem, size: nat, align: bool): Option<(Mem, int)> {
    if m.heapOn then
      match KernelHeap.Alloc(m.heap, size)
      case None => None
      case Some(end) => Some((m.(heap := end), m.heap))
    else
      var start := if align then AlignUp(m.phys) else m.phys;
      Some((m.(phys := start + size), start))
  }

  datatype Event = Ask(size: nat, align: bool) | HeapReady

  datatype Grant = Grant(start: int, size: nat, align: bool, onHeap: bool) {
    function End(): int { start + size }
  }

  /** The memory after a run and what it handed out; a panic ends the run. */
  function Serve(m: Mem, es: seq<Event>): (Mem, seq<Grant>)
    decreases |es|
  {
    if es == [] then (m, [])
    else match es[0]
      case HeapReady => Serve(m.(heapOn := true), es[1..])
      case Ask(size, align) =>
        match Kmalloc(m, size, align)
        case None => (m, [])
        case Some((m', a)) =>
          var (end, rest) := Serve(m', es[1..]);
          (end, [Grant(a, size, align, m.heapOn)] + rest)
  }

  ghost predicate InWindow(m: Mem) {
    0 <= m.phys && KernelHeap.BASE <= m.heap <= KernelHeap.BASE + KernelHeap.SIZE
  }

  /** Where a grant lies, given the memory before the run. */
  ghost predicate Placed(m: Mem, g: Grant) {
    if g.onHeap then m.heap <= g.start && g.End() <= KernelHeap.BASE + KernelHeap.SIZE
    else m.phys <= g.start && !m.heapOn && (g.align && m.phys >= PAGE ==> g.start % PAGE == 0 && g.start > m.phys)
  }

  /** The second starts after the first has ended, unless the first is physical memory that has
      grown past the start of the heap window, and the second is in the window. */
  ghost predicate Follows(g: Grant, h: Grant) {
    g.End() <= h.start || (!g.onHeap && h.onHeap && g.End() > KernelHeap.BASE)
  }

  ghost predicate AllPlaced(m: Mem, gs: seq<Grant>) {
    forall i :: 0 <= i < |gs| ==> Placed(m, gs[i])
  }

  ghost predicate AllFollow(gs: seq<Grant>) {
    forall i, j :: 0 <= i < j < |gs| ==> Follows(gs[i], gs[j])
  }

  /** One grant leaves its allocator past its end. */
  lemma GrantMoves(m: Mem, size: nat, align: bool)
    requires InWindow(m) && Kmalloc(m, size, align).Some?
    ensures var (m', a) := Kmalloc(m, size, align).value;
      && InWindow(m') && m'.heapOn == m.heapOn && Placed(m, Grant(a, size, align, m.heapOn))
      && (if m.heapOn then m'.heap else m'.phys) == a + size
      && m.phys <= m'.phys && m.heap <= m'.heap
  {
  }

  lemma PlacedEarlier(m: Mem, m': Mem, g: Grant)
    requires Placed(m', g) && m.phys <= m'.phys && m.heap <= m'.heap && (m.heapOn ==> m'.heapOn)
    ensures Placed(m, g)
  {
  }

  lemma PlacedFollows(m: Mem, g: Grant, h: Grant)
    requires InWindow(m) && Placed(m, h) && (if g.onHeap then m.heapOn && m.heap == g.End() else m.phys == g.End())
    ensures Follows(g, h)
  {
  }

  /** Over any run, each region starts after the ones before it end; so no two overlap, across
      the switch to the heap too, as long as physical memory has not reached the window. */
  lemma {:induction false} RegionsDisjoint(m: Mem, es: seq<Event>)
    requires InWindow(m)
    ensures AllPlaced(m, Serve(m, es).1) && AllFollow(Serve(m, es).1)
    decreases |es|
  {
    hide Placed, InWindow, Kmalloc, Follows;
    if es != [] {
      match es[0] {
        case HeapReady =>
          var m' := m.(heapOn := true);
          assert InWindow(m') by { HeapInWindow(m); }
          RegionsDisjoint(m', es[1..]);
          var gs := Serve(m', es[1..]).1;
          forall i | 0 <= i < |gs| ensures Placed(m, gs[i]) { PlacedEarlier(m, m', gs[i]); }
        case Ask(size, align) =>
          if Kmalloc(m, size, align).Some? { FirstGrant(m, es); }
      }
    }
  }

  lemma HeapInWindow(m: Mem)
    requires InWindow(m)
    ensures InWindow(m.(heapOn := true))
  {
  }

  lemma FirstGrant(m: Mem, es: seq<Event>)
    requires InWindow(m) && es != [] && es[0].Ask? && Kmalloc(m, es[0].size, es[0].align).Some?
    ensures AllPlaced(m, Serve(m, es).1) && AllFollow(Serve(m, es).1)
    decreases |es|, 0
  {
    hide Placed, InWindow, Kmalloc, Follows;
    var (m', a) := Kmalloc(m, es[0].size, es[0].align).value;
    var g, rest := Grant(a, es[0].size, es[0].align, m.heapOn), Serve(m', es[1..]).1;
    GrantMoves(m, es[0].size, es[0].align);
    RegionsDisjoint(m', es[1..]);
    forall i | 0 <= i < |rest| ensures Placed(m, rest[i]) && Follows(g, rest[i]) {
      PlacedEarlier(m, m', rest[i]);
      PlacedFollows(m', g, rest[i]);
    }
  }

  // ----- When the exception cannot arise -----

  /** Each region starts after all before it have ended. */
  ghost predicate InOrder(gs: seq<Grant>) {
    forall i, j :: 0 <= i < j < |gs| ==> gs[i].End() <= gs[j].start
  }

  /** Physical memory handed out ends by where the run leaves it. */
  ghost predicate EndsBy(gs: seq<Grant>, phys: int) {
    forall i :: 0 <= i < |gs| && !gs[i].onHeap ==> gs[i].End() <= phys
  }

  lemma {:induction false} PhysicalEndsBy(m: Mem, es: seq<Event>)
    requires InWindow(m)
    ensures m.phys <= Serve(m, es).0.phys && EndsBy(Serve(m, es).1, Serve(m, es).0.phys)
    decreases |es|
  {
    hide InWindow, Kmalloc;
    if es != [] {
      match es[0] {
        case HeapReady =>
          HeapInWindow(m);
          PhysicalEndsBy(m.(heapOn := true), es[1..]);
        case Ask(size, align) =>
          if Kmalloc(m, size, align).Some? {
            GrantMoves(m, size, align);
            PhysicalEndsBy(Kmalloc(m, size, align).value.0, es[1..]);
          }
      }
    }
  }

  /** A run that leaves physical memory below the window hands out regions that nowhere overlap. */
  lemma BelowWindowInOrder(m: Mem, es: seq<Event>)
    requires InWindow(m) && Serve(m, es).0.phys <= KernelHeap.BASE
    ensures InOrder(Serve(m, es).1)
  {
    hide InWindow, Serve;
    RegionsDisjoint(m, es);
    PhysicalEndsBy(m, es);
  }

  /** Once the heap is on, physical memory stays where it is. */
  lemma {:induction false} PhysicalStays(m: Mem, es: seq<Event>)
    requires m.heapOn
    ensures Serve(m, es).0.phys == m.phys
    decreases |es|
  {
    if es != [] {
      match es[0]
      case HeapReady => PhysicalStays(m.(heapOn := true), es[1..]);
      case Ask(size, align) =>
        if Kmalloc(m, size, align).Some? { PhysicalStays(Kmalloc(m, size, align).value.0, es[1..]); }
    }
  }
}
