/** sys_malloc, sys_free and block_desc_init of kernel/memory.c for one address space, on top
    of the page allocator.  `arenas` stands for the arena headers, which live in the first
    bytes of the pages handed out by malloc_page, and `free` for the descriptors' lists. */
module KernelHeap {
  import opened Basics
  import opened HeapModel
  import opened HeapProof
  import opened Pages
  import opened Bitmap

  datatype MallocResult = NullPtr | Ptr(p: nat) | Fault(at: Halt)

  /** Every page of every arena is mapped. */
  ghost predicate AllMapped(m: map<nat, Arena>, mapped: set<nat>) {
    forall a :: a in m ==> PageRange(a, Span(m[a])) <= mapped
  }

  /** New pages collide with no arena. */
  lemma NewPagesFresh(h: Heap, mapped: set<nat>, a: nat, n: nat)
    requires ArenasOk(h) && AllMapped(h.arenas, mapped) && n > 0 && PageRange(a, n) !! mapped
    ensures FreshPages(h, a, n) && a !in h.arenas
  {
    forall b | b in h.arenas ensures a + n <= b || b + Span(h.arenas[b]) <= a {
      var m := if a <= b then b else a;
      assert PageRange(b, Span(h.arenas[b])) <= mapped;
      assert Span(h.arenas[b]) > 0;
      assert m in PageRange(a, n) ==> m !in PageRange(b, Span(h.arenas[b]));
    }
  }

  /** Unmapping one arena leaves the others mapped. */
  lemma OthersMapped(m: map<nat, Arena>, mapped: set<nat>, a: nat)
    requires AllApart(m) && AllMapped(m, mapped) && a in m
    ensures AllMapped(m - {a}, mapped - PageRange(a, Span(m[a])))
  {
  }

  lemma MoreMapped(m: map<nat, Arena>, a: nat, x: Arena, mapped: set<nat>, mapped1: set<nat>)
    requires AllMapped(m, mapped) && mapped1 == mapped + PageRange(a, Span(x))
    ensures AllMapped(m[a := x], mapped1)
  {
  }

  lemma RecountMapped(m: map<nat, Arena>, a: nat, cnt: nat, mapped: set<nat>)
    requires AllMapped(m, mapped) && a in m && m[a].Small?
    ensures AllMapped(m[a := m[a].(cnt := cnt)], mapped)
  {
  }

  /** What malloc_page adds, seen from the heap. */
  lemma GotPages(y: Layout, s: Space, s1: Space, n: nat, v: nat)
    requires Mapped(y, s, s1, n, v)
    ensures PageRange(v, n) !! s.pte.Keys && s1.pte.Keys == s.pte.Keys + PageRange(v, n)
  {
  }

  lemma GavePages(y: Layout, s: Space, s1: Space, n: nat, v: nat)
    requires Unmapped(y, s, s1, n, v)
    ensures s1.pte.Keys == s.pte.Keys - PageRange(v, n)
  {
  }

  /** The block about to be appended is not on the list yet. */
  lemma NotListed(a: nat, d: nat, k: nat)
    requires d < DESCS && k < PerArena(d)
    ensures BlockAddr(a, d, k) !in Blocks(a, d, k)
  {
    BlocksAre(a, d, k);
    forall i | 0 <= i < k ensures BlockAddr(a, d, i) != BlockAddr(a, d, k) { BlocksApart(a, d, i, k); }
  }

  /** In an arena whose blocks are all free, block k is still listed when its turn comes. */
  lemma StillListed(h: Heap, a: nat, d: nat, k: nat)
    requires ArenasOk(h) && FreeOk(h) && a in h.arenas && h.arenas[a].Small? && h.arenas[a].desc == d < DESCS
    requires h.arenas[a].cnt == PerArena(d) && k < PerArena(d)
    ensures BlockAddr(a, d, k) in RemovedAll(h.free[d], a, d, k)
  {
    CountFull(h.free[d], a, d, PerArena(d), k);
    RemovedAllIs(h.free[d], a, d, k);
    forall i | 0 <= i < k ensures BlockAddr(a, d, i) != BlockAddr(a, d, k) { BlocksApart(a, d, i, k); }
  }

  /** The pages a request needs: as few as hold it and the header, one for up to 1024 bytes. */
  predicate Needs(size: nat, n: nat) {
    if size <= 1024 then n == 1 else (n - 1) * 4096 < size + 12 <= n * 4096
  }

  lemma NeedsIs(size: nat, n: nat)
    requires size > 1024 && Needs(size, n)
    ensures n == LargePages(size)
  {
  }

  lemma LargeLimit(size: nat)
    ensures LargePages(size) >= 3840 <==> size + 12 > 3839 * 4096
  {
  }

  lemma LiveSnug(h: Heap, p: nat)
    requires HeapInv(h) && p in h.live
    ensures ArenaOf(p) in h.arenas && Snug(h.arenas[ArenaOf(p)], h.live[p])
  {
    assert LiveOk(h, p);
  }

  lemma SevenLists(h: Heap)
    requires ArenasOk(h)
    ensures |h.free| == DESCS && AllApart(h.arenas)
  {
  }

  lemma CanPop(h: Heap, d: nat)
    requires BlocksOk(h) && d < DESCS && h.free[d] != []
    ensures PopOk(h, d)
  {
    hide CoverOk, LivesOk, BlockShaped, ArenaOf, Distinct;
    assert h.free[d][0] in h.free[d];
  }

  /** A refilled list is not empty. */
  lemma RefillFills(h: Heap, a: nat, d: nat)
    requires d < DESCS && |h.free| == DESCS
    ensures Refill(h, a, d).free[d] != []
  {
    BlocksExact(a, d);
  }

  /** The first block of a refilled list lies in the new arena. */
  lemma FirstInside(h: Heap, a: nat, d: nat)
    requires d < DESCS && |h.free| == DESCS && h.free[d] == []
    ensures Refill(h, a, d).free[d] != [] && ArenaOf(Refill(h, a, d).free[d][0]) == a
  {
    BlocksExact(a, d);
    var l := Blocks(a, d, PerArena(d));
    assert Refill(h, a, d).free[d] == l;
    assert l[0] in l;
  }

  lemma FirstHome(h: Heap, d: nat)
    requires BlocksOk(h) && d < DESCS && h.free[d] != []
    ensures ArenaOf(h.free[d][0]) in h.arenas
  {
    hide CoverOk, LivesOk, BlockShaped, ArenaOf, Distinct;
    assert h.free[d][0] in h.free[d];
  }

  class Allocator {
    const pages: PageAllocator
    const poolSize: nat
    const sizes: seq<nat>     // mem_block_size
    const perArena: seq<nat>  // blocks_per_arena
    var arenas: map<nat, Arena>
    var free: seq<seq<nat>>
    ghost var live: map<nat, nat>

    ghost function View(): Heap
      reads this
    {
      Heap(arenas, free, live)
    }

    ghost predicate DescsOk() {
      && |sizes| == DESCS && |perArena| == DESCS
      && forall d :: 0 <= d < DESCS ==> sizes[d] == BlockSize(d) && perArena[d] == PerArena(d)
    }

    ghost predicate Valid()
      reads this, pages, pages.vmap.bits, pages.kmap.bits, pages.umap.bits
    {
      DescsOk() && pages.Valid() && HeapInv(View()) && AllMapped(arenas, pages.pte.Keys)
    }

    /** block_desc_init. */
    constructor (p: PageAllocator, poolBytes: nat)
      requires p.Valid()
      ensures Valid() && View() == EmptyHeap() && pages == p && poolSize == poolBytes
      ensures sizes == [16, 32, 64, 128, 256, 512, 1024] && perArena == [255, 127, 63, 31, 15, 7, 3]
    {
      hide HeapInv;
      var size, d, ss, ps, fs := 16, 0, [], [], [];
      while d < DESCS
        invariant d <= DESCS == 7 && |ss| == |ps| == |fs| == d && (d < DESCS ==> size == BlockSize(d))
        invariant forall i :: 0 <= i < d ==> ss[i] == BlockSize(i) && ps[i] == PerArena(i) && fs[i] == []
      {
        ss, ps, fs := ss + [size], ps + [(4096 - HEADER) / size], fs + [[]];
        size := size * 2;
        d := d + 1;
      }
      AsListed(ss, ps);
      pages, poolSize, sizes, perArena := p, poolBytes, ss, ps;
      arenas, free, live := map[], fs, map[];
      new;
      assert View() == EmptyHeap();
      EmptyOk();
    }

    /** The loop that looks for a descriptor. */
    method FindDesc(size: nat) returns (d: nat)
      requires DescsOk() && size <= 1024
      ensures d == DescOf(size) < DESCS
    {
      d := 0;
      while d < DESCS
        invariant d <= DESCS && forall i :: 0 <= i < d ==> BlockSize(i) < size
      {
        if size <= sizes[d] {
          break;
        }
        d := d + 1;
      }
      DescIsFirst(size, d);
    }

    /** One arena is carved into blocks; the assertion that no block is listed yet holds. */
    method AddArena(a: nat, d: nat)
      requires d < DESCS && DescsOk() && |free| == DESCS && free[d] == []
      modifies this
      ensures View() == Refill(old(View()), a, d)
    {
      hide BlockAddr, PerArena;
      arenas := arenas[a := Small(d, perArena[d])];
      var k := 0;
      while k < perArena[d]
        invariant k <= perArena[d] && |free| == DESCS && live == old(live) && arenas == old(arenas)[a := Small(d, perArena[d])]
        invariant free == old(free)[d := Blocks(a, d, k)]
      {
        var block := BlockAddr(a, d, k);
        NotListed(a, d, k);
        assert block !in free[d];  // ASSERT, line 416
        free := free[d := free[d] + [block]];
        k := k + 1;
      }
      assert old(free)[d] + Blocks(a, d, PerArena(d)) == Blocks(a, d, PerArena(d));
    }

    /** The facts about pages and headers that the small and large paths share. */
    ghost predicate Sound()
      reads this, pages, pages.vmap.bits, pages.kmap.bits, pages.umap.bits
    {
      DescsOk() && pages.Valid() && ArenasOk(View()) && BlocksOk(View()) && AllMapped(arenas, pages.pte.Keys)
    }

    method LargeMalloc(size: nat) returns (r: MallocResult)
      requires Valid() && size > 1024
      modifies this, pages`pte, pages`tables, pages.vmap.bits, pages.kmap.bits, pages.umap.bits
      ensures !r.Ptr? ==> View() == old(View())
      ensures !r.Fault? ==> Valid()
      ensures r.NullPtr? ==> FirstFit(old(pages.View()).vbits, LargePages(size)) == None && pages.View() == old(pages.View())
      ensures r.Fault? ==> OutOfPages(pages.y, old(pages.View()), pages.View(), LargePages(size)) || LargePages(size) >= 3840
      ensures r.Ptr? ==> ArenaOf(r.p) in arenas && Snug(arenas[ArenaOf(r.p)], size)
      ensures r.Ptr? ==> ArenaOf(r.p) !in old(arenas) && Mapped(pages.y, old(pages.View()), pages.View(), LargePages(size), ArenaOf(r.p))
      ensures r.Ptr? ==> exists a :: Malloced(old(View()), View(), size, r.p, a)
    {
      hide PagesOk, Snug, FreshPages, LargePages, AllMapped, Mapped, PageRange, ArenasOk, BlocksOk, Tight, DescOf, Refill, Pop;
      ghost var h := View();
      SevenLists(h);
      var n := LargePages(size);
      LargeRoom(0, size);
      var got := pages.MallocPage(n);
      match got
      case Null => 
        r := NullPtr;
      case Halted(at) =>
        r := Fault(at);
      case Got(a) =>
        GotPages(pages.y, old(pages.View()), pages.View(), n, a);
        NewPagesFresh(h, old(pages.pte.Keys), a, n);
        MoreMapped(arenas, a, Large(n), old(pages.pte.Keys), pages.pte.Keys);
        arenas := arenas[a := Large(n)];
        r := Ptr(LargePtr(a));
        live := live[r.p := size];
        assert View() == AddLarge(h, a, size);
        assert Malloced(h, View(), size, r.p, a);
        MallocKeeps(h, View(), size, r.p, a);
        LiveSnug(View(), r.p);
        LargeRoom(a, size);
    }

    /** The descriptor's list is empty: get a page and carve it. */
    method RefillList(d: nat) returns (got: PageResult)
      requires Valid() && d < DESCS && free[d] == []
      modifies this, pages`pte, pages`tables, pages.vmap.bits, pages.kmap.bits, pages.umap.bits
      ensures !got.Got? ==> View() == old(View())
      ensures got.Null? ==> Valid() && FirstFit(old(pages.View()).vbits, 1) == None && pages.View() == old(pages.View())
      ensures got.Halted? ==> OutOfPages(pages.y, old(pages.View()), pages.View(), 1)
      ensures got.Got? ==> got.v !in old(arenas) && Mapped(pages.y, old(pages.View()), pages.View(), 1, got.v)
      ensures got.Got? ==> Sound() && FreshPages(old(View()), got.v, 1) && View() == Refill(old(View()), got.v, d)
    {
      hide PagesOk, FreshPages, AllMapped, Mapped, PageRange, ArenasOk, BlocksOk, Tight, Blocks;
      ghost var h := View();
      SevenLists(h);
      got := pages.MallocPage(1);
      if got.Got? {
        var a := got.v;
        GotPages(pages.y, old(pages.View()), pages.View(), 1, a);
        NewPagesFresh(h, old(pages.pte.Keys), a, 1);
        MoreMapped(arenas, a, Small(d, PerArena(d)), old(pages.pte.Keys), pages.pte.Keys);
        RefillBlocks(h, a, d);
        RefillArenas(h, a, d);
        AddArena(a, d);
      }
    }

    /** list_pop, and one free block less in the block's arena. */
    method PopBlock(d: nat, ghost size: nat) returns (p: nat)
      requires Sound() && PopOk(View(), d)
      modifies this
      ensures p == old(free[d][0]) && View() == Pop(old(View()), d, size) && DescsOk()
      ensures AllMapped(arenas, pages.pte.Keys)
    {
      hide PagesOk, AllMapped, FreeOk, CoverOk, LivesOk, ArenasOk;
      ghost var h := View();
      PopArenas(h, d, size);
      p := free[d][0];
      free := free[d := free[d][1..]];
      var a := ArenaOf(p);
      assert arenas[a].cnt > 0;
      RecountMapped(arenas, a, arenas[a].cnt - 1, pages.pte.Keys);
      arenas := arenas[a := arenas[a].(cnt := arenas[a].cnt - 1)];
      live := live[p := size];
    }

    /** sys_malloc.  It fails only for want of pages: NULL when no run of free virtual pages is
        long enough, a stop when a bitmap is full or a large request exceeds 3839 pages. */
    method SysMalloc(size: nat) returns (r: MallocResult)
      requires Valid()
      modifies this, pages`pte, pages`tables, pages.vmap.bits, pages.kmap.bits, pages.umap.bits
      ensures size == 0 || size >= poolSize ==> r == NullPtr
      ensures !r.Ptr? ==> View() == old(View())
      ensures !r.Fault? ==> Valid()
      ensures !r.Ptr? && 0 < size < poolSize && size <= 1024 ==> DescOf(size) < |free| && free[DescOf(size)] == []
      ensures r.NullPtr? && 0 < size < poolSize ==> forall n: nat :: Needs(size, n) ==> FirstFit(old(pages.View()).vbits, n) == None
      ensures r.Fault? && size + 12 <= 3839 * 4096 ==>
                forall n: nat :: Needs(size, n) ==> OutOfPages(pages.y, old(pages.View()), pages.View(), n)
      ensures r.Ptr? ==> ArenaOf(r.p) in arenas && Snug(arenas[ArenaOf(r.p)], size) && size < poolSize
      ensures r.NullPtr? || (r.Ptr? && ArenaOf(r.p) in old(arenas)) ==> pages.View() == old(pages.View())
      ensures r.Ptr? && ArenaOf(r.p) !in old(arenas) ==>
                forall n: nat :: Needs(size, n) ==> Mapped(pages.y, old(pages.View()), pages.View(), n, ArenaOf(r.p))
      ensures r.Ptr? ==> exists a :: Malloced(old(View()), View(), size, r.p, a)
    {
      hide PagesOk, ArenasOk, BlocksOk, Tight, FreshPages, LargePages, AllMapped, Mapped, PageRange, DescOf, Refill, Pop, AddLarge, Snug, OutOfPages;
      if size == 0 || size >= poolSize {
        return NullPtr;
      }
      if size > 1024 {
        r := LargeMalloc(size);
        forall n: nat | Needs(size, n) ensures n == LargePages(size) { NeedsIs(size, n); }
        LargeLimit(size);
        return;
      }
      var d := FindDesc(size);
      ghost var h, page := View(), 0;
      SevenLists(h);
      if free[d] == [] {
        var got := RefillList(d);
        match got
        case Null => return NullPtr;
        case Halted(at) => return Fault(at);
        case Got(a) =>
          page := a;
          RefillFills(h, a, d);
          FirstInside(h, a, d);
      }
      if h.free[d] != [] { FirstHome(h, d); }
      CanPop(View(), d);
      var p := PopBlock(d, size);
      assert Malloced(h, View(), size, p, page);
      MallocKeeps(h, View(), size, p, page);
      LiveSnug(View(), p);
      r := Ptr(p);
    }

    /** mfree_page for a whole arena. */
    method ReleaseArena(a: nat, n: nat)
      requires pages.Valid() && AllApart(arenas) && a in arenas && Span(arenas[a]) == n > 0
      requires AllMapped(arenas, pages.pte.Keys)
      modifies this`arenas, pages`pte, pages.vmap.bits, pages.kmap.bits, pages.umap.bits
      ensures pages.Valid() && arenas == old(arenas) - {a} && AllMapped(arenas, pages.pte.Keys)
      ensures Unmapped(pages.y, old(pages.View()), pages.View(), n, a)
    {
      hide PagesOk, AllApart, Unmapped, PageRange;
      assert PageRange(a, n) <= pages.pte.Keys;
      var halt := pages.MfreePage(a, n);
      assert halt == Live;
      GavePages(pages.y, old(pages.View()), pages.View(), n, a);
      OthersMapped(arenas, old(pages.pte.Keys), a);
      arenas := arenas - {a};
    }

    /** list_append of the block, and one free block more in its arena. */
    method PushBlock(p: nat)
      requires Sound() && p in live && IsBlock(View(), p)
      modifies this
      ensures Sound() && View() == Push(old(View()), p)
    {
      hide PagesOk, AllMapped, FreeOk, CoverOk, LivesOk, ArenasOk;
      ghost var h := View();
      SevenLists(h);
      PushBlocks(h, p);
      PushArenas(h, p);
      var a := ArenaOf(p);
      var d := arenas[a].desc;
      free := free[d := free[d] + [p]];
      RecountMapped(arenas, a, arenas[a].cnt + 1, pages.pte.Keys);
      arenas := arenas[a := arenas[a].(cnt := arenas[a].cnt + 1)];
      live := live - {p};
      assert View() == Push(h, p);
    }

    /** list_remove of all blocks of an arena that is entirely free; each is found on the list. */
    method UnlistArena(a: nat, d: nat)
      requires Sound() && a in arenas && arenas[a].Small? && arenas[a].desc == d < DESCS && arenas[a].cnt == PerArena(d)
      modifies this`free
      ensures |old(free)| == DESCS && free == old(free)[d := RemovedAll(old(free)[d], a, d, PerArena(d))]
    {
      hide PagesOk, AllMapped, FreeOk, CoverOk, LivesOk, ArenasOk, BlockAddr, PerArena;
      ghost var h := View();
      SevenLists(h);
      var k := 0;
      while k < perArena[d]
        invariant k <= perArena[d] && |free| == DESCS && free == h.free[d := RemovedAll(h.free[d], a, d, k)]
      {
        StillListed(h, a, d, k);
        assert BlockAddr(a, d, k) in free[d];  // ASSERT, line 473
        free := free[d := Removed(free[d], BlockAddr(a, d, k))];
        k := k + 1;
      }
    }

    /** sys_free of a live pointer, or of NULL.  The assertion on line 473 cannot fire. */
    method SysFree(p: nat) returns (halt: Halt)
      requires Valid() && (p == 0 || p in live)
      modifies this, pages`pte, pages.vmap.bits, pages.kmap.bits, pages.umap.bits
      ensures p == 0 ==> halt == Stopped("kernel/memory.c", 440) && View() == old(View())
      ensures p != 0 ==> halt == Live && Valid() && Freed(old(View()), View(), p) && ArenaOf(p) in old(arenas)
      ensures p != 0 && ArenaOf(p) in arenas ==> pages.View() == old(pages.View())
      ensures p != 0 && ArenaOf(p) in old(arenas) && ArenaOf(p) !in arenas ==>
                Unmapped(pages.y, old(pages.View()), pages.View(), old(Span(arenas[ArenaOf(p)])), ArenaOf(p))
    {
      hide PagesOk, AllMapped, AllApart, ArenasOk, FreeOk, CoverOk, Tight, PerArena, RemovedAll, PageRange, Unmapped;
      if p == 0 {
        return Stopped("kernel/memory.c", 440);
      }
      ghost var h := View();
      SevenLists(h);
      assert LiveOk(h, p);
      var a := ArenaOf(p);
      if arenas[a].Large? {
        live := live - {p};
        ReleaseArena(a, arenas[a].pages);
      } else {
        var d := arenas[a].desc;
        PushBlock(p);
        SevenLists(View());
        if arenas[a].cnt == perArena[d] {
          UnlistArena(a, d);
          ReleaseArena(a, 1);
        }
      }
      assert Freed(h, View(), p);
      HeapProof.FreeKeeps(h, View(), p);
      halt := Live;
    }
  }

  lemma AsListed(ss: seq<nat>, ps: seq<nat>)
    requires |ss| == |ps| == DESCS && forall i :: 0 <= i < DESCS ==> ss[i] == BlockSize(i) && ps[i] == PerArena(i)
    ensures ss == [16, 32, 64, 128, 256, 512, 1024] && ps == [255, 127, 63, 31, 15, 7, 3]
  {
    forall d | 0 <= d < DESCS ensures ss[d] == [16, 32, 64, 128, 256, 512, 1024][d] && ps[d] == [255, 127, 63, 31, 15, 7, 3][d] {
      Sizes(d);
    }
  }

  lemma DescIsFirst(size: nat, d: nat)
    requires size <= 1024 && d <= DESCS && forall i :: 0 <= i < d ==> BlockSize(i) < size
    requires d < DESCS ==> size <= BlockSize(d)
    ensures d == DescOf(size) < DESCS
  {
    DescFits(size);
    Sizes(6);
    if d < DESCS { Sizes(d); }
    if d > 0 { Sizes(d - 1); }
  }
}
