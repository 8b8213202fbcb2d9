/** Page tables made on demand, and what memory looks like once `vm_init` has turned paging on. */
module VirtualMemory {
  import opened Processes
  import opened FrameBitmaps
  import opened Allocators
  import KernelHeap

  datatype PageEntry = PageEntry(present: bool, writeable: bool, usermode: bool, frameaddr: int)

  const NO_PAGE := PageEntry(false, false, false, 0)

  const TABLES := 1024
  const TABLE_SIZE := 4096
  const DIR_SIZE := 8192
  const HEAP_PAGE := 0xD000
  const HEAP_PAGES := 16
  const HEAP_TABLE := 52

  function Mapped(frame: int): PageEntry {
    PageEntry(true, true, false, frame)
  }

  /** `x | 0x7`. */
  function Flagged(x: int): int {
    x - x % 8 + 7
  }

  // ----- The layout that vm_init produces from a given end of the kernel image -----

  /** Tables that cover the first `c` pages. */
  function TableCount(c: nat): nat {
    (c + 1023) / 1024
  }

  /** Physical memory used once the directory and the heap's table are made. */
  function Base(p: nat): int {
    (p / PAGE + 5) * PAGE
  }

  /** How far identity mapping goes: the bound moves two pages for each table it makes. */
  function IdentityPages(p: nat): nat {
    var b := p / PAGE + 21;
    b + 2 * ((b + 1021) / 1022)
  }

  function TableAddress(p: nat, t: int, c: nat): int {
    if t == HEAP_TABLE then (p / PAGE + 4) * PAGE
    else if 0 <= t < TableCount(c) then Base(p) + PAGE + 2 * PAGE * t
    else 0
  }

  /** The moving bound is reached exactly at `IdentityPages`. */
  lemma MovingBound(p: nat, c: nat)
    requires p >= PAGE && c <= IdentityPages(p)
    ensures PAGE * c < Base(p) + 2 * PAGE * TableCount(c) + 0x10000 <==> c < IdentityPages(p)
  {
    var b, n := p / PAGE + 21, IdentityPages(p);
    var last := (b + 1021) / 1022;
    assert Base(p) + 0x10000 == PAGE * b;
    assert TableCount(n) == last;
    assert TableCount(c) <= last;
    assert PAGE * c < Base(p) + 2 * PAGE * TableCount(c) + 0x10000 <==> c < b + 2 * TableCount(c);
  }

  lemma LastBound(p: nat)
    ensures IdentityPages(p) > 0
    ensures Base(p) + 2 * PAGE * TableCount(IdentityPages(p)) + 0x10000 == IdentityPages(p) * PAGE
  {
    var b := p / PAGE + 21;
    var last := (b + 1021) / 1022;
    assert TableCount(IdentityPages(p)) == last;
  }

  /** Covering one more page takes a new table exactly on a table boundary. */
  lemma NextTable(c: nat)
    ensures if c % 1024 == 0 then TableCount(c) == c / 1024 && TableCount(c + 1) == c / 1024 + 1
            else TableCount(c) == c / 1024 + 1 == TableCount(c + 1)
  {
  }

  /** A new table goes to the page after the next. */
  lemma TableFits(p: nat, c: nat)
    requires p >= PAGE
    ensures var phys := Base(p) + 2 * PAGE * TableCount(c);
      AlignUp(phys) == phys + PAGE && Base(p) > 0
  {
    hide AlignUp, TableCount;
    AlignedMovesOn(p / PAGE + 5 + 2 * TableCount(c));
  }

  lemma AlignedMovesOn(m: nat)
    requires m > 0
    ensures AlignUp(m * PAGE) == m * PAGE + PAGE
  {
  }

  /** Where the directory and the tables lie: past the image, inside the identity mapping. */
  lemma AddressFits(p: nat, t: int)
    requires p >= PAGE && TableAddress(p, t, IdentityPages(p)) != 0
    ensures var a := TableAddress(p, t, IdentityPages(p));
      && p < a && a % PAGE == 0 && (p / PAGE + 3) * PAGE <= a
      && a + TABLE_SIZE <= IdentityPages(p) * PAGE && Flagged(a) == a + 7
  {
    hide IdentityPages, TableCount, Flagged;
    LastBound(p);
    if t == HEAP_TABLE {
      PageAligned(p / PAGE + 4);
    } else {
      PageAligned(p / PAGE + 6 + 2 * t);
    }
  }

  lemma PageAligned(m: nat)
    ensures m * PAGE % PAGE == 0 && Flagged(m * PAGE) == m * PAGE + 7
  {
    var k := 512 * m;
    assert m * PAGE == 8 * k && 8 * k % 8 == 0;
  }

  lemma DirectoryFits(p: nat)
    ensures var a := (p / PAGE + 1) * PAGE;
      p < a && a % PAGE == 0 && a + DIR_SIZE == (p / PAGE + 3) * PAGE <= IdentityPages(p) * PAGE
  {
    hide IdentityPages;
    LastBound(p);
  }

  lemma AddressesDiffer(p: nat, n: nat, t: int, u: int)
    requires t < u && TableAddress(p, t, n) != 0 && TableAddress(p, u, n) != 0
    ensures var a, b := TableAddress(p, t, n), TableAddress(p, u, n);
      a + TABLE_SIZE <= b || b + TABLE_SIZE <= a
  {
  }

  lemma NoneBelow()
    ensures Below(0) == {}
  {
  }

  // ----- The requests that vm_init makes -----

  function TableAsks(n: nat): seq<Event> {
    if n == 0 then [] else [Ask(TABLE_SIZE, true)] + TableAsks(n - 1)
  }

  /** The directory, the heap's table and those of the identity mapping; then the heap takes over. */
  function BringUp(p: nat): seq<Event> {
    [Ask(DIR_SIZE, true)] + TableAsks(1 + TableCount(IdentityPages(p))) + [HeapReady]
  }

  /** Memory when nothing has been asked for. */
  function FreshMem(p: nat): Mem {
    Mem(p, false, KernelHeap.BASE)
  }

  lemma ServeAsk(m: Mem, size: nat, align: bool, es: seq<Event>)
    requires Allocators.Kmalloc(m, size, align).Some?
    ensures Serve(m, [Ask(size, align)] + es).0 == Serve(Allocators.Kmalloc(m, size, align).value.0, es).0
  {
    hide Allocators.Kmalloc;
    assert ([Ask(size, align)] + es)[1..] == es;
  }

  /** Each table takes two pages: its own, and the one skipped to align it. */
  lemma {:induction false} ServeTables(k: nat, n: nat, es: seq<Event>)
    requires k > 0
    ensures Serve(FreshMem(k * PAGE), TableAsks(n) + es).0 == Serve(FreshMem((k + 2 * n) * PAGE), es).0
    decreases n
  {
    hide Serve, AlignUp;
    if n == 0 {
      assert TableAsks(n) + es == es;
    } else {
      assert TableAsks(n) + es == [Ask(TABLE_SIZE, true)] + (TableAsks(n - 1) + es);
      AlignedMovesOn(k);
      ServeAsk(FreshMem(k * PAGE), TABLE_SIZE, true, TableAsks(n - 1) + es);
      assert k * PAGE + PAGE + TABLE_SIZE == (k + 2) * PAGE;
      ServeTables(k + 2, n - 1, es);
    }
  }

  /** Bring-up leaves physical memory right below the last 64 KB of the identity mapping, whatever
      is asked for afterwards. */
  lemma BringUpEnds(p: nat, es: seq<Event>)
    requires p >= PAGE
    ensures var m := Mem(IdentityPages(p) * PAGE - 0x10000, true, KernelHeap.BASE);
      Serve(FreshMem(p), BringUp(p) + es).0 == Serve(m, es).0
  {
    hide Serve, IdentityPages, TableCount, TableAsks;
    var n := TableCount(IdentityPages(p));
    LastBound(p);
    assert BringUp(p) + es == [Ask(DIR_SIZE, true)] + (TableAsks(1 + n) + ([HeapReady] + es));
    ServeAsk(FreshMem(p), DIR_SIZE, true, TableAsks(1 + n) + ([HeapReady] + es));
    assert AlignUp(p) + DIR_SIZE == (p / PAGE + 3) * PAGE;
    ServeTables(p / PAGE + 3, 1 + n, [HeapReady] + es);
    ServeReady(FreshMem((p / PAGE + 3 + 2 * (1 + n)) * PAGE), es);
  }

  lemma ServeReady(m: Mem, es: seq<Event>)
    ensures Serve(m, [HeapReady] + es).0 == Serve(m.(heapOn := true), es).0
  {
    assert ([HeapReady] + es)[1..] == es;
  }

  /** So when memory comes up at all, no two regions ever handed out overlap, those of bring-up and
      all later ones. */
  lemma NoOverlapEver(p: nat, es: seq<Event>)
    requires p >= PAGE && IdentityPages(p) + HEAP_PAGES <= NFRAMES
    ensures InOrder(Serve(FreshMem(p), BringUp(p) + es).1)
  {
    hide Serve, IdentityPages, BringUp, InOrder;
    BringUpEnds(p, es);
    PhysicalStays(Mem(IdentityPages(p) * PAGE - 0x10000, true, KernelHeap.BASE), es);
    BelowWindowInOrder(FreshMem(p), BringUp(p) + es);
  }

  lemma ServeNothing(m: Mem)
    ensures Serve(m, []).0 == m
  {
  }

  class Vm {
    const bitmap: Bitmap
    /** `kdir->tables`, zero for NULL, and `kdir->tables_phys`. */
    const tables: array<int>
    const tablesPhys: array<int>
    /** The rows of all tables: entry `o` of table `t` is at `1024 * t + o`. */
    const pages: array<PageEntry>
    var kdir: int
    var physAllocAddr: int
    var heapInitialized: bool
    var heapAddr: int

    ghost predicate Shape() {
      && bitmap.Valid() && tables.Length == TABLES && tablesPhys.Length == TABLES
      && pages.Length == TABLES * 1024 && tables != tablesPhys
    }

    /** Before `vm_init`: no frame used, memory past the kernel image zero and unallocated. */
    ghost predicate Blank(p: nat)
      reads this, bitmap.words, pages
    {
      && Shape() && bitmap.Frames() == {} && (forall i :: 0 <= i < pages.Length ==> pages[i] == NO_PAGE)
      && physAllocAddr == p && !heapInitialized && heapAddr == KernelHeap.BASE
    }

    constructor (end: nat)
      ensures Blank(end) && fresh(bitmap.words) && fresh(tables) && fresh(tablesPhys) && fresh(pages)
    {
      bitmap := new Bitmap();
      tables := new int[TABLES](_ => 0);
      tablesPhys := new int[TABLES](_ => 0);
      pages := new PageEntry[TABLES * 1024](_ => NO_PAGE);
      kdir, physAllocAddr, heapInitialized, heapAddr := 0, end, false, KernelHeap.BASE;
    }

    ghost function Mem(): Mem
      reads this
    {
      Allocators.Mem(physAllocAddr, heapInitialized, heapAddr)
    }

    /** The heap's own table stays once the heap is in use. */
    ghost predicate Ready()
      reads this, tables
    {
      && Shape() && physAllocAddr >= 0
      && KernelHeap.BASE <= heapAddr <= KernelHeap.BASE + KernelHeap.SIZE
      && (heapInitialized ==> tables[HEAP_TABLE] != 0)
    }

    /** The physical address that a virtual one reaches. */
    ghost function Physical(x: int): int
      requires Shape() && 0 <= x < pages.Length * PAGE
      reads pages
    {
      pages[x / PAGE].frameaddr * PAGE + x % PAGE
    }

    method Alloc(size: nat) returns (base: int, ok: bool)
      modifies this`heapAddr
      ensures match KernelHeap.Alloc(old(heapAddr), size)
        case None => !ok
        case Some(end) => ok && base == old(heapAddr) && heapAddr == end
    {
      base := heapAddr;
      heapAddr := heapAddr + size;
      ok := heapAddr <= KernelHeap.BASE + KernelHeap.SIZE;
    }

    /** `get_page`: the entry's place, or -1 for NULL; not ok after a panic. */
    method GetPage(addr: int, makeTable: bool) returns (page: int, ok: bool)
      requires Ready() && 0 <= addr < 0x1_0000_0000
      modifies (if makeTable then {this} else {})`physAllocAddr, (if makeTable then {this} else {})`heapAddr
      modifies if makeTable then {tables, tablesPhys} else {}
      ensures var t := addr / PAGE / 1024;
        if old(tables[t]) != 0 || !makeTable then
          && ok && page == (if old(tables[t]) != 0 then addr / PAGE else -1)
          && Mem() == old(Mem()) && tables[..] == old(tables[..]) && tablesPhys[..] == old(tablesPhys[..])
        else match Allocators.Kmalloc(old(Mem()), TABLE_SIZE, true)
          case None => !ok
          case Some(r) =>
            && ok && page == addr / PAGE && Mem() == r.0 && tables[..] == old(tables[..])[t := r.1]
            && (heapInitialized ==> 0 <= r.1 < pages.Length * PAGE)
            && tablesPhys[..] == old(tablesPhys[..])[t := Flagged(if heapInitialized then Physical(r.1) else r.1)]
      decreases if makeTable then 2 else 0
    {
      var index := addr / PAGE / 1024;
      var offset := addr / PAGE % 1024;
      ok := true;
      if tables[index] != 0 {
        page := 1024 * index + offset;
      } else if makeTable {
        var table, phys;
        table, phys, ok := Kmalloc(TABLE_SIZE, true, true);
        if !ok { return -1, false; }
        tables[index] := table;
        tablesPhys[index] := Flagged(phys);
        page := 1024 * index + offset;
      } else {
        page := -1;
      }
    }

    /** `kmalloc`; `wantPhys` says that a place for the physical address was passed. */
    method Kmalloc(size: nat, align: bool, wantPhys: bool) returns (addr: int, phys: int, ok: bool)
      requires Ready()
      modifies this`physAllocAddr, this`heapAddr
      ensures match Allocators.Kmalloc(old(Mem()), size, align)
        case None => !ok
        case Some(r) => ok && addr == r.1 && Mem() == r.0 && Ready()
      ensures ok && wantPhys ==>
        if heapInitialized then 0 <= addr < pages.Length * PAGE && phys == Physical(addr) else phys == addr
      decreases 1
    {
      if heapInitialized {
        phys := 0;
        addr, ok := Alloc(size);
        if !ok { return; }
        if wantPhys {
          assert addr / PAGE / 1024 == HEAP_TABLE;
          var page, _ := GetPage(addr, false);
          phys := pages[page].frameaddr * PAGE + addr % PAGE;
        }
      } else {
        if align && physAllocAddr - physAllocAddr % PAGE != 0 {
          physAllocAddr := physAllocAddr - physAllocAddr % PAGE;
          physAllocAddr := physAllocAddr + PAGE;
        }
        addr := physAllocAddr;
        phys := addr;
        physAllocAddr := physAllocAddr + size;
        ok := true;
      }
    }

    /** `new_frame`: an entry whose frame number is not zero is left alone. */
    method NewFrame(page: int) returns (ok: bool)
      requires Shape() && 0 <= page < pages.Length
      modifies pages, bitmap.words
      ensures var f := LeastFree(old(bitmap.Frames()), 0);
        if old(pages[page]).frameaddr != 0 || f == -1 then
          && ok == (old(pages[page]).frameaddr != 0)
          && pages[..] == old(pages[..]) && bitmap.Frames() == old(bitmap.Frames())
        else
          && ok && pages[..] == old(pages[..])[page := Mapped(f)] && bitmap.Frames() == old(bitmap.Frames()) + {f}
          && pages[page].present && pages[page].writeable && !pages[page].usermode && pages[page].frameaddr == f
    {
      hide LeastFree, Bitmap.Frames;
      if pages[page].frameaddr != 0 { return true; }
      var index := bitmap.FindFree();
      if index == -1 { return false; }
      bitmap.SetBit(index * PAGE_SIZE);
      pages[page] := pages[page].(present := true, frameaddr := index, writeable := true, usermode := false);
      ok := true;
    }

    /** Any sequence of requests for different zeroed entries, from an empty bitmap: the j-th gets
        frame j, until none is left. */
    method NewFrames(entries: seq<int>) returns (ok: bool)
      requires Shape() && bitmap.Frames() == {}
      requires forall j :: 0 <= j < |entries| ==> 0 <= entries[j] < pages.Length && pages[entries[j]].frameaddr == 0
      requires forall j, k :: 0 <= j < k < |entries| ==> entries[j] != entries[k]
      modifies pages, bitmap.words
      ensures ok <==> |entries| <= NFRAMES
      ensures bitmap.Frames() == Below(if ok then |entries| else NFRAMES)
      ensures forall j :: 0 <= j < |entries| && j < NFRAMES ==> pages[entries[j]] == Mapped(j)
      ensures forall j :: 0 <= j < |entries| && j < NFRAMES ==>
        HandedOut({}, |entries|)[j] == pages[entries[j]].frameaddr
      ensures forall i {:trigger pages[i]} :: 0 <= i < pages.Length && i !in entries ==> pages[i] == old(pages[i])
    {
      hide LeastFree, HandedOut, Bitmap.Frames, Below;
      NoneBelow();
      HandsOutInOrder(0, |entries|);
      var n := 0;
      while n < |entries|
        invariant 0 <= n <= |entries| && n <= NFRAMES && bitmap.Frames() == Below(n)
        invariant forall j :: 0 <= j < n ==> pages[entries[j]] == Mapped(j)
        invariant forall j :: n <= j < |entries| ==> pages[entries[j]].frameaddr == 0
        invariant forall i {:trigger pages[i]} :: 0 <= i < pages.Length && i !in entries ==> pages[i] == old(pages[i])
      {
        LeastAbove(n);
        ghost var was := pages[..];
        ok := NewFrame(entries[n]);
        assert forall i :: 0 <= i < pages.Length ==> pages[i] == pages[..][i];
        if !ok { return; }
        n := n + 1;
      }
      ok := true;
    }

    // ----- vm_init -----

    /** The directory, the heap's table and the tables that cover the first `c` pages. */
    ghost predicate Layout(p: nat, c: nat)
      requires Shape()
      reads this, tables, tablesPhys
    {
      && physAllocAddr == Base(p) + 2 * PAGE * TableCount(c) && kdir == (p / PAGE + 1) * PAGE
      && !heapInitialized && heapAddr == KernelHeap.BASE
      && forall t :: 0 <= t < TABLES ==>
           tables[t] == TableAddress(p, t, c) && tablesPhys[t] == if tables[t] == 0 then 0 else Flagged(tables[t])
    }

    /** The first `c` pages map to the frames of the same number, then `k` heap pages to the next. */
    ghost predicate Filled(c: nat, k: nat)
      requires Shape()
      reads pages, bitmap.words
    {
      && bitmap.Frames() == Below(c + k)
      && forall i {:trigger pages[i]} :: 0 <= i < pages.Length ==>
           pages[i] == if i < c then Mapped(i)
                       else if HEAP_PAGE <= i < HEAP_PAGE + k then Mapped(c + i - HEAP_PAGE) else NO_PAGE
    }

    method MakeDirectory(ghost p: nat)
      requires Blank(p) && p >= PAGE
      modifies this`kdir, this`physAllocAddr, this`heapAddr, tables, tablesPhys
      ensures physAllocAddr == (p / PAGE + 3) * PAGE && kdir == (p / PAGE + 1) * PAGE && heapAddr == KernelHeap.BASE
      ensures forall t :: 0 <= t < TABLES ==> tables[t] == 0 && tablesPhys[t] == 0
    {
      hide Bitmap.Frames;
      var dir, _, _ := Kmalloc(DIR_SIZE, true, false);
      kdir := dir;
      for t := 0 to TABLES
        invariant physAllocAddr == (p / PAGE + 3) * PAGE && kdir == (p / PAGE + 1) * PAGE && heapAddr == KernelHeap.BASE
        invariant forall j :: 0 <= j < t ==> tables[j] == 0 && tablesPhys[j] == 0
      {
        tables[t], tablesPhys[t] := 0, 0;
      }
    }

    /** The first loop, byte by byte over the heap: one table, made at the first step. */
    method MakeHeapTable(ghost p: nat)
      requires Shape() && p >= PAGE && !heapInitialized && heapAddr == KernelHeap.BASE
      requires physAllocAddr == (p / PAGE + 3) * PAGE && kdir == (p / PAGE + 1) * PAGE
      requires forall t :: 0 <= t < TABLES ==> tables[t] == 0 && tablesPhys[t] == 0
      modifies this`physAllocAddr, this`heapAddr, tables, tablesPhys
      ensures Layout(p, 0)
    {
      var i := KernelHeap.BASE;
      while i < KernelHeap.BASE + KernelHeap.SIZE
        invariant KernelHeap.BASE <= i <= KernelHeap.BASE + KernelHeap.SIZE
        invariant !heapInitialized && heapAddr == KernelHeap.BASE && kdir == old(kdir)
        invariant i == KernelHeap.BASE ==> physAllocAddr == old(physAllocAddr)
        invariant i == KernelHeap.BASE ==> forall t :: 0 <= t < TABLES ==> tables[t] == 0 && tablesPhys[t] == 0
        invariant i > KernelHeap.BASE ==> Layout(p, 0)
      {
        assert i / PAGE / 1024 == HEAP_TABLE;
        var _, _ := GetPage(i, true);
        assert forall t :: 0 <= t < TABLES ==> tables[t] == tables[..][t] && tablesPhys[t] == tablesPhys[..][t];
        i := i + 1;
      }
    }

    /** One page more: its table is made if the page opens a new one. */
    method CoverPage(ghost p: nat, ghost c: nat, addr: int) returns (page: int)
      requires Shape() && p >= PAGE && Layout(p, c) && c <= NFRAMES && addr == c * PAGE
      modifies this`physAllocAddr, this`heapAddr, tables, tablesPhys
      ensures Layout(p, c + 1) && page == c
    {
      hide Base, Flagged, IdentityPages, AlignUp;
      NextTable(c);
      TableFits(p, c);
      assert addr / PAGE == c;
      var ok;
      page, ok := GetPage(addr, true);
      assert forall t :: 0 <= t < TABLES ==> tables[t] == tables[..][t] && tablesPhys[t] == tablesPhys[..][t];
    }

    /** The identity mapping of used memory; the loop makes its own bound grow. */
    method IdentityMap(ghost p: nat) returns (ok: bool)
      requires Shape() && p >= PAGE && Layout(p, 0) && Filled(0, 0)
      modifies this`physAllocAddr, this`heapAddr, tables, tablesPhys, pages, bitmap.words
      ensures ok <==> IdentityPages(p) <= NFRAMES
      ensures ok ==> Layout(p, IdentityPages(p)) && Filled(IdentityPages(p), 0)
    {
      hide Layout, Filled, IdentityPages, TableCount;
      var i := 0;
      ghost var c := 0;
      while i < physAllocAddr + 0x10000
        invariant i == c * PAGE && 0 <= c <= IdentityPages(p) && c <= NFRAMES
        invariant Layout(p, c) && Filled(c, 0)
        decreases IdentityPages(p) - c
      {
        BoundIs(p, c);
        var page := CoverPage(p, c, i);
        ok := MapNext(page, c, 0);
        if !ok { return; }
        i := i + PAGE;
        c := c + 1;
      }
      BoundIs(p, c);
      ok := true;
    }

    lemma BoundIs(p: nat, c: nat)
      requires Shape() && Layout(p, c) && p >= PAGE && c <= IdentityPages(p)
      ensures c * PAGE < physAllocAddr + 0x10000 <==> c < IdentityPages(p)
    {
      MovingBound(p, c);
    }

    /** The next entry gets the next frame, or there is none left. */
    method MapNext(page: int, ghost c: nat, ghost k: nat) returns (ok: bool)
      requires Shape() && Filled(c, k) && c + k <= NFRAMES && k < HEAP_PAGES
      requires (page == c && k == 0) || page == HEAP_PAGE + k
      modifies pages, bitmap.words
      ensures ok <==> c + k < NFRAMES
      ensures ok ==> if page == c then Filled(c + 1, 0) else Filled(c, k + 1)
    {
      hide LeastFree, Bitmap.Frames, Below;
      LeastAbove(c + k);
      ok := NewFrame(page);
      assert forall i :: 0 <= i < pages.Length ==> pages[i] == pages[..][i];
    }

    /** The last loop: a frame for every heap page. */
    method HeapFrames(ghost p: nat, ghost c: nat) returns (ok: bool)
      requires Shape() && p >= PAGE && Layout(p, c) && Filled(c, 0) && c <= NFRAMES
      modifies this`physAllocAddr, this`heapAddr, tables, tablesPhys, pages, bitmap.words
      ensures ok <==> c + HEAP_PAGES <= NFRAMES
      ensures ok ==> Layout(p, c) && Filled(c, HEAP_PAGES)
    {
      hide Filled;
      var i := KernelHeap.BASE;
      ghost var k := 0;
      while i < KernelHeap.BASE + KernelHeap.SIZE
        invariant i == (HEAP_PAGE + k) * PAGE && 0 <= k <= HEAP_PAGES && c + k <= NFRAMES
        invariant Layout(p, c) && Filled(c, k)
      {
        assert i / PAGE == HEAP_PAGE + k && i / PAGE / 1024 == HEAP_TABLE;
        var page, _ := GetPage(i, true);
        assert forall t :: 0 <= t < TABLES ==> tables[t] == tables[..][t] && tablesPhys[t] == tablesPhys[..][t];
        ok := MapNext(page, c, k);
        if !ok { return; }
        i := i + PAGE;
        k := k + 1;
      }
      ok := true;
    }

    /** Paging is on, over a kernel image that ends at `p`. */
    ghost predicate Paged(p: nat)
      requires Shape()
      reads this, tables, tablesPhys, pages, bitmap.words
    {
      var n := IdentityPages(p);
      && heapInitialized && kdir == (p / PAGE + 1) * PAGE && physAllocAddr + 0x10000 == n * PAGE
      && bitmap.Frames() == Below(n + HEAP_PAGES) && n + HEAP_PAGES <= NFRAMES
      && (forall t :: 0 <= t < TABLES ==>
           tables[t] == TableAddress(p, t, n) && tablesPhys[t] == if tables[t] == 0 then 0 else Flagged(tables[t]))
      && forall i {:trigger pages[i]} :: 0 <= i < pages.Length ==>
           pages[i] == if 1 <= i < n then Mapped(i)
                       else if HEAP_PAGE <= i < HEAP_PAGE + HEAP_PAGES then Mapped(n + i - HEAP_PAGE) else NO_PAGE
    }

    /** Memory is brought up, unless the frames run out; p is the end of the kernel image, and
        memory is small enough for addresses not to wrap. */
    method VmInit(ghost p: nat) returns (ok: bool)
      requires Blank(p) && PAGE <= p < 0xFFF0_0000
      modifies this, tables, tablesPhys, pages, bitmap.words
      ensures ok <==> IdentityPages(p) + HEAP_PAGES <= NFRAMES
      ensures ok ==> Paged(p) && Ready() && heapAddr == KernelHeap.BASE
      ensures ok ==> Mem() == Serve(FreshMem(p), BringUp(p)).0
    {
      hide Layout, Filled, IdentityPages, TableAddress, Bitmap.Frames, Serve, BringUp;
      BlankFilled(p);
      MakeDirectory(p);
      MakeHeapTable(p);
      ok := IdentityMap(p);
      if !ok { return; }
      ok := HeapFrames(p, IdentityPages(p));
      if !ok { return; }
      EnablePaging(p);
      assert BringUp(p) + [] == BringUp(p);
      BringUpEnds(p, []);
      ServeNothing(Mem());
    }

    /** Page 0 is unmapped, though its frame stays taken, and the heap takes over. */
    method EnablePaging(ghost p: nat)
      requires Shape() && p >= PAGE && IdentityPages(p) + HEAP_PAGES <= NFRAMES
      requires Layout(p, IdentityPages(p)) && Filled(IdentityPages(p), HEAP_PAGES)
      modifies this`heapInitialized, pages
      ensures Paged(p) && Ready() && heapAddr == KernelHeap.BASE
    {
      assert TableAddress(p, HEAP_TABLE, IdentityPages(p)) != 0;
      hide TableAddress, Bitmap.Frames, IdentityPages;
      LastBound(p);
      pages[0] := NO_PAGE;
      heapInitialized := true;
    }

    lemma BlankFilled(p: nat)
      requires Blank(p)
      ensures Filled(0, 0)
    {
    }

    // ----- What holds once paging is on -----

    /** No frame is behind two pages, and every frame behind a page is marked as used. */
    lemma FramesNotShared(p: nat)
      requires Shape() && Paged(p)
      ensures forall i, j :: 0 <= i < j < pages.Length && pages[i].present && pages[j].present
                ==> pages[i].frameaddr != pages[j].frameaddr
      ensures forall i :: 0 <= i < pages.Length && pages[i].present ==> pages[i].frameaddr in bitmap.Frames()
    {
      hide IdentityPages, TableAddress, Bitmap.Frames;
    }

    /** Every page there is can be written to and is for the kernel only; the others are not present. */
    lemma PagesAreTheKernels(p: nat)
      requires Shape() && Paged(p)
      ensures forall i :: 0 <= i < pages.Length && pages[i].present ==> pages[i].writeable && !pages[i].usermode
      ensures forall i :: 0 <= i < pages.Length ==>
        (pages[i].present <==> 0x1000 <= i * 0x1000 < physAllocAddr + 0x10000 || 0xD000 <= i < 0xD010)
    {
      hide TableAddress, Bitmap.Frames, IdentityPages;
    }

    /** Address 0 is unmapped and its frame is never handed out; all other memory in use, and the
        margin past it, is reached at its own address. */
    lemma UsedMemoryIsIdentity(p: nat)
      requires Shape() && Paged(p)
      ensures !pages[0].present && 0 in bitmap.Frames()
      ensures forall x :: PAGE <= x < physAllocAddr + 0x10000 ==>
        x / PAGE < pages.Length && pages[x / PAGE].present && Physical(x) == x
    {
      hide IdentityPages, TableAddress, Bitmap.Frames;
      assert IdentityPages(p) > 0 by { LastBound(p); }
      forall x | PAGE <= x < physAllocAddr + 0x10000
        ensures x / PAGE < pages.Length && pages[x / PAGE].present && Physical(x) == x
      {
        assert 1 <= x / PAGE < IdentityPages(p);
      }
    }

    /** The directory and every table are page-aligned, apart, and at addresses that they
        themselves map to where they are. */
    lemma TablesReachThemselves(p: nat)
      requires Shape() && Paged(p) && p >= PAGE
      ensures Apart(p, kdir, DIR_SIZE)
      ensures forall t :: 0 <= t < TABLES && tables[t] != 0 ==>
        Apart(p, tables[t], TABLE_SIZE) && kdir + DIR_SIZE <= tables[t] && tablesPhys[t] == tables[t] + 7
      ensures forall t, u :: 0 <= t < u < TABLES && tables[t] != 0 && tables[u] != 0 ==>
        tables[t] + TABLE_SIZE <= tables[u] || tables[u] + TABLE_SIZE <= tables[t]
    {
      hide Bitmap.Frames, IdentityPages, TableAddress, Apart;
      var n := IdentityPages(p);
      LastBound(p);
      DirectoryFits(p);
      IdentityStretch(p, kdir, DIR_SIZE);
      forall t | 0 <= t < TABLES && tables[t] != 0
        ensures Apart(p, tables[t], TABLE_SIZE) && kdir + DIR_SIZE <= tables[t] && tablesPhys[t] == tables[t] + 7
      {
        AddressFits(p, t);
        IdentityStretch(p, tables[t], TABLE_SIZE);
      }
      forall t, u | 0 <= t < u < TABLES && tables[t] != 0 && tables[u] != 0
        ensures tables[t] + TABLE_SIZE <= tables[u] || tables[u] + TABLE_SIZE <= tables[t]
      {
        AddressesDiffer(p, n, t, u);
      }
    }

    /** Where an entry is in memory: a word of its table. */
    ghost function EntryAddress(i: int): int
      requires Shape() && 0 <= i < pages.Length
      reads tables
    {
      tables[i / 1024] + 4 * (i % 1024)
    }

    /** Different entries of tables that exist are different words, past the directory and mapped to
        where they are; so keeping the entries in an array of their own loses no overlap. */
    lemma EntriesApart(p: nat, i: int, j: int)
      requires Shape() && Paged(p) && p >= PAGE && 0 <= i < j < pages.Length
      requires tables[i / 1024] != 0 && tables[j / 1024] != 0
      ensures EntryAddress(i) + 4 <= EntryAddress(j) || EntryAddress(j) + 4 <= EntryAddress(i)
      ensures kdir + DIR_SIZE <= EntryAddress(i) && EntryAddress(i) + 4 <= pages.Length * PAGE
      ensures forall x {:trigger Physical(x)} :: EntryAddress(i) <= x < EntryAddress(i) + 4 ==> Physical(x) == x
    {
      hide Paged, Bitmap.Frames;
      TablesReachThemselves(p);
      assert Apart(p, tables[i / 1024], TABLE_SIZE);
      assert 0 <= i % 1024 < 1024 && 0 <= j % 1024 < 1024;
    }

    lemma IdentityStretch(p: nat, a: int, size: nat)
      requires Shape() && Paged(p) && p >= PAGE && p < a && a % PAGE == 0 && a + size <= IdentityPages(p) * PAGE
      ensures Apart(p, a, size)
    {
      hide Bitmap.Frames, IdentityPages, TableAddress;
    }

    ghost predicate Apart(p: nat, a: int, size: int)
      requires Shape()
      reads pages
    {
      && p < a && a % PAGE == 0 && a + size <= pages.Length * PAGE
      && forall x {:trigger Physical(x)} :: a <= x < a + size ==> pages[x / PAGE].present && Physical(x) == x
    }

    /** Every byte of the heap window is in a present page, and the window is one stretch of
        physical memory; so a heap region's physical address holds for its whole length. */
    lemma HeapIsMapped(p: nat, x: int)
      requires Shape() && Paged(p) && KernelHeap.BASE <= x < KernelHeap.BASE + KernelHeap.SIZE
      ensures x / PAGE < pages.Length && pages[x / PAGE].present
      ensures Physical(x) == IdentityPages(p) * PAGE + (x - KernelHeap.BASE)
    {
      hide IdentityPages, TableAddress, Bitmap.Frames;
      assert HEAP_PAGE <= x / PAGE < HEAP_PAGE + HEAP_PAGES;
    }

    /** `sys_alloc_mem`: without user heap functions, a request to the kernel heap. What it hands
        out is mapped to one stretch of physical memory, and paging stays as it is. */
    method SysAllocMem(size: nat, ghost p: nat) returns (addr: int, ok: bool)
      requires Ready() && Paged(p)
      modifies this`physAllocAddr, this`heapAddr
      ensures ok <==> old(heapAddr) + size <= KernelHeap.BASE + KernelHeap.SIZE
      ensures ok ==> Ready() && Paged(p) && addr == old(heapAddr) && heapAddr == addr + size
      ensures ok ==> forall x {:trigger Physical(x)} :: addr <= x < addr + size ==>
        pages[x / PAGE].present && Physical(x) == Physical(addr) + (x - addr)
    {
      hide IdentityPages, TableAddress, Bitmap.Frames;
      var unused;
      addr, unused, ok := Kmalloc(size, false, false);
      if ok {
        forall x | addr <= x < addr + size
          ensures x / PAGE < pages.Length && pages[x / PAGE].present && Physical(x) == Physical(addr) + (x - addr)
        {
          HeapIsMapped(p, x);
          HeapIsMapped(p, addr);
        }
      }
    }
  }

  /** Exactly which kernel images leave room for all the frames. */
  lemma FitsIff(p: nat)
    ensures IdentityPages(p) + HEAP_PAGES <= NFRAMES <==> p < 0x3FBC000
  {
    var b := p / PAGE + 21;
    assert p < 0x3FBC000 <==> b <= 16336;
  }
}
