/** The page allocator of kernel/memory.c: vaddr_get, palloc, page_table_add, malloc_page,
    pfree, page_table_pte_remove, vaddr_remove and mfree_page, for one address space.

    Addresses are page numbers.  `pte` is the set of present mappings of the address space's
    virtual pool and `tables` its present directory entries; PageTables relates them to memory. */
module Pages {
  import opened Basics
  import opened Bitmap

  /** Fixed by mem_pool_init: where the virtual pool and the two physical pools start. */
  datatype Layout = Layout(user: bool, vstart: nat, kstart: nat, ustart: nat)

  datatype Space = Space(vbits: seq<bool>, kbits: seq<bool>, ubits: seq<bool>,
                         pte: map<nat, nat>, tables: map<nat, nat>)

  predicate InUse(start: nat, bits: seq<bool>, p: nat) {
    start <= p < start + |bits| && bits[p - start]
  }

  /** The physical pool that backs this address space's pages. */
  predicate Backed(y: Layout, s: Space, p: nat) {
    if y.user then InUse(y.ustart, s.ubits, p) else InUse(y.kstart, s.kbits, p)
  }

  predicate LayoutOk(y: Layout, s: Space) {
    0x102 <= y.kstart && y.kstart + |s.kbits| <= y.ustart
  }

  ghost predicate TablesApart(m: map<nat, nat>) {
    forall a, b :: a in m && b in m && a != 0 && b != 0 && m[a] == m[b] ==> a == b
  }

  ghost predicate Injective(m: map<nat, nat>) {
    forall a, b :: a in m && b in m && m[a] == m[b] ==> a == b
  }

  /** Every present mapping has its virtual bit and its physical bit set, in the right pool; no
      two virtual pages share a physical page; page tables are disjoint from all of them and from
      each other, but for directory entry 0, which in the kernel names the table of entry 768. */
  ghost predicate PagesOk(y: Layout, s: Space) {
    && LayoutOk(y, s)
    && (forall v :: v in s.pte ==> InUse(y.vstart, s.vbits, v) && Backed(y, s, s.pte[v]) && DirIndex(v) in s.tables)
    && Injective(s.pte)
    && TablesApart(s.tables)
    && (forall i :: i in s.tables ==> s.tables[i] < y.kstart || InUse(y.kstart, s.kbits, s.tables[i]))
    && (forall i, v :: i in s.tables && v in s.pte ==> s.tables[i] != s.pte[v])
  }

  // ----------------------------------------------------------------- accounting

  /** The physical pages of a pool whose bits are set. */
  ghost function Used(start: nat, bits: seq<bool>): set<nat> {
    set p: nat | start <= p < start + |bits| && InUse(start, bits, p)
  }

  ghost function Frames(m: map<nat, nat>, vs: set<nat>): set<nat> {
    set v | v in vs && v in m :: m[v]
  }

  /** The pages `vs`, and nothing else, have been mapped between `s` and `s1`: each took one
      free frame of its pool, and each missing page table one free frame of the kernel pool. */
  ghost predicate Grew(y: Layout, s: Space, s1: Space, vs: set<nat>) {
    var taken := Frames(s1.pte, vs);
    var news := Frames(s1.tables, s1.tables.Keys - s.tables.Keys);
    && s1.vbits == s.vbits && |s1.kbits| == |s.kbits| && |s1.ubits| == |s.ubits|
    && vs !! s.pte.Keys && s1.pte.Keys == s.pte.Keys + vs
    && (forall v :: v in s.pte ==> s1.pte[v] == s.pte[v])
    && s.tables.Keys <= s1.tables.Keys && (forall i :: i in s.tables ==> s1.tables[i] == s.tables[i])
    && (forall i :: i in s1.tables && i !in s.tables ==> exists v :: v in vs && DirIndex(v) == i)
    && Used(y.kstart, s1.kbits) == Used(y.kstart, s.kbits) + news + (if y.user then {} else taken)
    && Used(y.ustart, s1.ubits) == Used(y.ustart, s.ubits) + (if y.user then taken else {})
    && news !! Used(y.kstart, s.kbits)
    && taken !! (if y.user then Used(y.ustart, s.ubits) else Used(y.kstart, s.kbits))
  }

  lemma GrewNone(y: Layout, s: Space)
    ensures Grew(y, s, s, {})
  {
  }

  function DirIndex(v: nat): nat { v / 1024 }

  lemma FramesMore(m: map<nat, nat>, m1: map<nat, nat>, a: set<nat>, b: set<nat>)
    requires a <= m.Keys && b <= m1.Keys && forall v :: v in m ==> v in m1 && m1[v] == m[v]
    ensures Frames(m1, a + b) == Frames(m, a) + Frames(m1, b)
  {
  }

  lemma GrewMore(y: Layout, s: Space, s1: Space, s2: Space, vs: set<nat>, v: nat)
    requires Grew(y, s, s1, vs) && Grew(y, s1, s2, {v})
    ensures Grew(y, s, s2, vs + {v})
  {
    hide Used, Frames, DirIndex;
    FramesMore(s1.pte, s2.pte, vs, {v});
    var old1, new1 := s1.tables.Keys - s.tables.Keys, s2.tables.Keys - s1.tables.Keys;
    FramesMore(s1.tables, s2.tables, old1, new1);
    assert s2.tables.Keys - s.tables.Keys == old1 + new1;
    forall i | i in s2.tables && i !in s.tables ensures exists x :: x in vs + {v} && DirIndex(x) == i {
      var x :| x in (if i in s1.tables then vs else {v}) && DirIndex(x) == i;
      assert x in vs + {v};
    }
  }

  lemma UsedSet(start: nat, bits: seq<bool>, i: nat, v: bool)
    requires i < |bits|
    ensures Used(start, bits[i := v]) == if v then Used(start, bits) + {start + i} else Used(start, bits) - {start + i}
  {
  }

  /** The same pages in use means the same bitmap. */
  lemma SameUsed(start: nat, a: seq<bool>, b: seq<bool>)
    requires |a| == |b| && Used(start, a) == Used(start, b)
    ensures a == b
  {
    forall i | 0 <= i < |a| ensures a[i] == b[i] {
      assert a[i] <==> start + i in Used(start, a);
      assert b[i] <==> start + i in Used(start, b);
    }
  }

  predicate Between(v: nat, x: nat, n: nat) { v <= x < v + n }

  ghost function PageRange(v: nat, n: nat): set<nat> {
    set x: nat | v <= x < v + n && Between(v, x, n)
  }

  // ------------------------------------------------------------- one page mapped

  /** Frame p taken from the pool but not yet used for anything. */
  ghost predicate Spare(y: Layout, s: Space, p: nat, kernel: bool) {
    && (if kernel then InUse(y.kstart, s.kbits, p) else InUse(y.ustart, s.ubits, p))
    && (forall v :: v in s.pte ==> s.pte[v] != p) && (forall i :: i in s.tables ==> s.tables[i] != p)
  }

  function WithBit(s: Space, kernel: bool, i: nat, v: bool): Space
    requires i < if kernel then |s.kbits| else |s.ubits|
  {
    if kernel then s.(kbits := s.kbits[i := v]) else s.(ubits := s.ubits[i := v])
  }

  lemma TakeKeeps(y: Layout, s: Space, kernel: bool, i: nat)
    requires PagesOk(y, s) && i < (if kernel then |s.kbits| else |s.ubits|)
    requires !(if kernel then s.kbits[i] else s.ubits[i])
    ensures PagesOk(y, WithBit(s, kernel, i, true))
    ensures Spare(y, WithBit(s, kernel, i, true), (if kernel then y.kstart else y.ustart) + i, kernel)
  {
    var s1, p := WithBit(s, kernel, i, true), (if kernel then y.kstart else y.ustart) + i;
    forall v | v in s.pte ensures s.pte[v] != p && Backed(y, s1, s.pte[v]) {
      assert Backed(y, s, s.pte[v]);
    }
  }

  lemma MapKeeps(y: Layout, s: Space, v: nat, p: nat)
    requires PagesOk(y, s) && Spare(y, s, p, !y.user) && InUse(y.vstart, s.vbits, v) && v !in s.pte && DirIndex(v) in s.tables
    ensures PagesOk(y, s.(pte := s.pte[v := p]))
  {
  }

  lemma TableKeeps(y: Layout, s: Space, i: nat, f: nat)
    requires PagesOk(y, s) && Spare(y, s, f, true) && i !in s.tables
    ensures PagesOk(y, s.(tables := s.tables[i := f]))
  {
  }

  /** A frame set aside for data stays so while another becomes a page table. */
  lemma SpareStays(y: Layout, s: Space, p: nat, f: nat, i: nat)
    requires LayoutOk(y, s) && Spare(y, s, p, !y.user) && f < |s.kbits| && !s.kbits[f]
    ensures Spare(y, WithBit(s, true, f, true).(tables := s.tables[i := y.kstart + f]), p, !y.user)
  {
  }

  /** What mapping one page amounts to, without and with a new page table. */
  lemma GrewOne(y: Layout, s: Space, v: nat, a: nat)
    requires v !in s.pte && a < (if y.user then |s.ubits| else |s.kbits|)
    requires !(if y.user then s.ubits[a] else s.kbits[a])
    ensures var p := (if y.user then y.ustart else y.kstart) + a;
            Grew(y, s, WithBit(s, !y.user, a, true).(pte := s.pte[v := p]), {v})
  {
  }

  /** page_table_add after palloc, without or with a new page table. */
  lemma MappedGrew(y: Layout, s0: Space, s1: Space, s2: Space, v: nat, p: nat)
    requires Grew(y, s0, s1.(pte := s1.pte[v := p]), {v}) && s1.tables == s0.tables
    requires DirIndex(v) in s1.tables ==> s2 == s1.(pte := s1.pte[v := p])
    requires DirIndex(v) !in s1.tables ==>
               exists f :: 0 <= f < |s1.kbits| && !s1.kbits[f]
                 && s2 == s1.(kbits := s1.kbits[f := true], tables := s1.tables[DirIndex(v) := y.kstart + f], pte := s1.pte[v := p])
    ensures Grew(y, s0, s2, {v})
  {
    hide Grew, DirIndex;
    if DirIndex(v) !in s1.tables {
      var f :| 0 <= f < |s1.kbits| && !s1.kbits[f]
        && s2 == s1.(kbits := s1.kbits[f := true], tables := s1.tables[DirIndex(v) := y.kstart + f], pte := s1.pte[v := p]);
      GrewTable(y, s0, s1.(pte := s1.pte[v := p]), v, f);
    }
  }

  lemma GrewTable(y: Layout, s: Space, s1: Space, v: nat, f: nat)
    requires Grew(y, s, s1, {v}) && s1.tables == s.tables && DirIndex(v) !in s.tables
    requires f < |s1.kbits| && !s1.kbits[f]
    ensures Grew(y, s, s1.(kbits := s1.kbits[f := true], tables := s.tables[DirIndex(v) := y.kstart + f]), {v})
  {
    hide Used, Frames, DirIndex;
    var s2 := s1.(kbits := s1.kbits[f := true], tables := s.tables[DirIndex(v) := y.kstart + f]);
    UsedSet(y.kstart, s1.kbits, f, true);
    NoFrames(s1.tables);
    assert s1.tables.Keys - s.tables.Keys == {};
    assert s2.tables.Keys - s.tables.Keys == {DirIndex(v)};
    OneFrame(s2.tables, DirIndex(v));
    FreeUnused(y.kstart, s1.kbits, f);
    assert v in {v};
  }

  lemma NoFrames(m: map<nat, nat>)
    ensures Frames(m, {}) == {}
  {
  }

  lemma OneFrame(m: map<nat, nat>, i: nat)
    requires i in m
    ensures Frames(m, {i}) == {m[i]}
  {
  }

  lemma FreeUnused(start: nat, bits: seq<bool>, f: nat)
    requires f < |bits| && !bits[f]
    ensures start + f !in Used(start, bits)
  {
  }

  // ------------------------------------------------------------------ the allocator

  datatype PageResult = Null | Got(v: nat) | Halted(at: Halt)

  /** A successful malloc_page: the first fit of n virtual pages, all of them mapped. */
  ghost predicate Mapped(y: Layout, s: Space, s1: Space, n: nat, v: nat) {
    && v >= y.vstart && FirstFit(s.vbits, n) == Some(v - y.vstart) && v - y.vstart + n <= |s.vbits|
    && s1.vbits == Marked(s.vbits, v - y.vstart, n, true)
    && Grew(y, s.(vbits := s1.vbits), s1, PageRange(v, n))
  }

  /** What mfree_page leaves: n pages from v unmapped, their bits cleared, all else as before. */
  ghost predicate Unmapped(y: Layout, s: Space, s1: Space, n: nat, v: nat) {
    && v >= y.vstart && v - y.vstart + n <= |s.vbits| && s1.vbits == Marked(s.vbits, v - y.vstart, n, false)
    && Shrunk(y, s, s1.(vbits := s.vbits), PageRange(v, n))
  }

  ghost predicate Shrunk(y: Layout, s: Space, s1: Space, vs: set<nat>) {
    var given := Frames(s.pte, vs);
    && s1.vbits == s.vbits && |s1.kbits| == |s.kbits| && |s1.ubits| == |s.ubits|
    && vs <= s.pte.Keys && s1.pte == s.pte - vs && s1.tables == s.tables
    && Used(y.kstart, s1.kbits) == Used(y.kstart, s.kbits) - (if y.user then {} else given)
    && Used(y.ustart, s1.ubits) == Used(y.ustart, s.ubits) - (if y.user then given else {})
  }

  /** No free frame is left in a pool this address space draws from: the kernel's, for page tables
      and the kernel's own pages, and a process's the user pool as well. */
  ghost predicate Exhausted(y: Layout, s: Space) {
    Full(s.kbits) || (y.user && Full(s.ubits))
  }

  /** Frame i of the pool that backs this address space has been taken. */
  ghost predicate OneTaken(y: Layout, s: Space, s1: Space, i: nat) {
    i < (if y.user then |s.ubits| else |s.kbits|) && s1 == WithBit(s, !y.user, i, true)
  }

  /** k pages from v have been mapped, and perhaps one more frame taken for a page whose table was not to be had. */
  ghost predicate Midway(y: Layout, s: Space, s1: Space, v: nat, k: nat) {
    Grew(y, s, s1, PageRange(v, k)) || exists s2, i :: Grew(y, s, s2, PageRange(v, k)) && OneTaken(y, s2, s1, i)
  }

  ghost predicate PartMapped(y: Layout, s: Space, s1: Space, v: nat, n: nat) {
    exists k :: 0 <= k < n && Midway(y, s, s1, v, k)
  }

  /** malloc_page stopped with only k < n pages of the first fit mapped, for want of a frame. */
  ghost predicate RanOut(y: Layout, s: Space, s1: Space, n: nat) {
    && Exhausted(y, s1) && FirstFit(s.vbits, n).Some? && FirstFit(s.vbits, n).value + n <= |s.vbits|
    && var f := FirstFit(s.vbits, n).value;
       PartMapped(y, s.(vbits := Marked(s.vbits, f, n, true)), s1, y.vstart + f, n)
  }

  /** Why malloc_page stopped, and what it left: a virtual bitmap without a free bit, a process's
      first fit at the last page below 3 GB or above, or a physical pool without a free frame. */
  ghost predicate OutOfPages(y: Layout, s: Space, s1: Space, n: nat) {
    || (Full(s.vbits) && s1 == s)
    || (TooHigh(y, s, n) && s1.(vbits := s.vbits) == s)
    || RanOut(y, s, s1, n)
  }

  /** The first fit of a process lies at or above the last page below 3 GB. */
  ghost predicate TooHigh(y: Layout, s: Space, n: nat) {
    y.user && FirstFit(s.vbits, n).Some? && y.vstart + FirstFit(s.vbits, n).value >= 0xbffff
  }

  /** What mem_pool_init makes of m bytes of memory: pages from 2 MB on, divided in halves of which
      the user's has the odd page, each with a bitmap of whole bytes; the kernel's virtual bitmap is as
      long as its pool's. */
  ghost predicate Halved(m: nat, y: Layout, s: Space) {
    && y.kstart == 0x200 && 0 <= (m / 4096 - y.ustart) - (y.ustart - y.kstart) <= 1
    && y.ustart - y.kstart - 8 < |s.kbits| <= y.ustart - y.kstart && |s.kbits| % 8 == 0
    && m / 4096 - y.ustart - 8 < |s.ubits| <= m / 4096 - y.ustart && |s.ubits| % 8 == 0
    && |s.vbits| == |s.kbits|
    && (forall i :: 0 <= i < |s.kbits| ==> !s.kbits[i] && !s.vbits[i]) && (forall i :: 0 <= i < |s.ubits| ==> !s.ubits[i])
  }

  /** The page count is 16 bits wide: memory beyond 258 MB counts modulo 256 MB. */
  predicate Counted(allMem: nat, m: nat) {
    0x20_0000 <= m < 0x1020_0000 && (m - allMem) % 0x1000_0000 == 0
  }

  /** Without any page, only the page tables need to be in order. */
  lemma BareOk(y: Layout, s: Space)
    requires LayoutOk(y, s) && s.pte == map[] && TablesApart(s.tables) && forall i :: i in s.tables ==> s.tables[i] < y.kstart
    ensures PagesOk(y, s)
  {
  }

  /** The kernel's page directory as the loader leaves it. */
  function BootTables(): (t: map<nat, nat>)
    ensures t.Keys == {0} + PageRange(768, 255) && TablesApart(t) && t[0] == 0x101
    ensures forall i :: 768 <= i < 1023 ==> i in t && t[i] == 0x101 + (i - 768)
  {
    (map i | 768 <= i < 1023 && Between(768, i, 255) :: 0x101 + (i - 768))[0 := 0x101]
  }

  lemma HalvedIs(m: nat, n: nat, y: Layout, s: Space)
    requires n == m / 4096 - 0x200 && y.kstart == 0x200 && y.ustart == 0x200 + n / 2
    requires s.kbits == s.vbits == seq(8 * (n / 2 / 8), _ => false) && s.ubits == seq(8 * ((n - n / 2) / 8), _ => false)
    ensures Halved(m, y, s)
  {
  }

  lemma PagesCounted(allMem: nat, m: nat)
    requires allMem < 0x1_0000_0000 && Counted(allMem, m)
    ensures (allMem - 0x20_0000) % 0x1_0000_0000 / 4096 % 0x1_0000 == m / 4096 - 0x200
  {
    var x, j := (allMem - 0x20_0000) % 0x1_0000_0000, (m - allMem) / 0x1000_0000;
    assert m == allMem + 0x1000_0000 * j;
    assert x == allMem - 0x20_0000 || x == allMem - 0x20_0000 + 0x1_0000_0000;
    var q := if x == allMem - 0x20_0000 then -j else 16 - j;
    assert x == m - 0x20_0000 + 0x1000_0000 * q;
    assert x / 4096 == m / 4096 - 0x200 + 0x1_0000 * q;
  }

  class PageAllocator {
    const y: Layout
    const vmap: ByteMap  // vaddr_bitmap of kernel_vaddr or of the process
    const kmap: ByteMap  // kernel_pool.pool_bitmap
    const umap: ByteMap  // user_pool.pool_bitmap
    var pte: map<nat, nat>
    var tables: map<nat, nat>

    /** mem_pool_init for the kernel's address space, whose 255 page tables the loader has
        already placed below 2 MB.  Counts are uint32_t and, for pages, uint16_t. */
    constructor (allMem: nat)
      requires allMem < 0x1_0000_0000
      ensures Valid() && !y.user && pte == map[] && fresh(vmap.bits) && fresh(kmap.bits) && fresh(umap.bits)
      ensures forall m :: Counted(allMem, m) ==> Halved(m, y, View())
      ensures y.vstart == 0xc0100 && tables.Keys == {0} + PageRange(768, 255)
      ensures tables[0] == 0x101 && forall i :: 768 <= i < 1023 ==> i in tables && tables[i] == 0x101 + (i - 768)
    {
      hide Halved, Counted, PagesOk, BootTables, TablesApart;
      var usedMem := 4096 * 256 + 0x10_0000;
      var freePages := (allMem - usedMem) % 0x1_0000_0000 / 4096 % 0x1_0000;
      var kernelPages := freePages / 2;
      var userPages := freePages - kernelPages;
      y := Layout(false, 0xc0100, usedMem / 4096, usedMem / 4096 + kernelPages);
      vmap := new ByteMap(kernelPages / 8);
      kmap := new ByteMap(kernelPages / 8);
      umap := new ByteMap(userPages / 8);
      pte := map[];
      tables := BootTables();
      new;
      forall m | Counted(allMem, m) ensures Halved(m, y, View()) {
        PagesCounted(allMem, m);
        HalvedIs(m, freePages, y, View());
      }
      BareOk(y, View());
    }

    /** create_user_vaddr_bitmap and create_page_dir: a process starts with no page of its own below
        3 GB and the kernel's page tables above, and takes frames from the same two pools. */
    constructor ForProcess(kernel: PageAllocator)
      requires kernel.Valid() && !kernel.y.user && forall i :: 768 <= i < 1023 ==> i in kernel.tables
      ensures Valid() && y == Layout(true, 0x8048, kernel.y.kstart, kernel.y.ustart) && kmap == kernel.kmap && umap == kernel.umap
      ensures fresh(vmap.bits) && vmap.Bits() == seq(0xc0000 - 0x8048, _ => false) && pte == map[]
      ensures tables.Keys == PageRange(768, 255) && forall i :: 768 <= i < 1023 ==> tables[i] == kernel.tables[i]
    {
      y := Layout(true, 0x8048, kernel.y.kstart, kernel.y.ustart);
      vmap := new ByteMap((0xc0000 - 0x8048) / 8);
      kmap, umap := kernel.kmap, kernel.umap;
      pte := map[];
      tables := map i | 768 <= i < 1023 && Between(768, i, 255) :: kernel.tables[i];
      new;
      assert vmap.Bits() == seq(0xc0000 - 0x8048, _ => false);
      ProcessOk(kernel.y, kernel.View(), y, View());
    }

    ghost predicate Separate() {
      vmap.bits != kmap.bits && vmap.bits != umap.bits && kmap.bits != umap.bits
    }

    ghost function View(): Space
      reads this, vmap.bits, kmap.bits, umap.bits
    {
      Space(vmap.Bits(), kmap.Bits(), umap.Bits(), pte, tables)
    }

    ghost predicate Valid()
      reads this, vmap.bits, kmap.bits, umap.bits
    {
      Separate() && PagesOk(y, View())
    }

    /** palloc on the kernel or the user pool. */
    method Palloc(kernel: bool) returns (p: nat, halt: Halt)
      requires Valid()
      modifies kmap.bits, umap.bits
      ensures Valid() && pte == old(pte) && tables == old(tables)
      ensures halt != Live ==> View() == old(View()) && Full(if kernel then View().kbits else View().ubits)
      ensures halt == Live ==>
                var i := p - if kernel then y.kstart else y.ustart;
                && 0 <= i < |if kernel then old(View()).kbits else old(View()).ubits|
                && FirstFit(if kernel then old(View()).kbits else old(View()).ubits, 1) == Some(i)
                && !(if kernel then old(View()).kbits else old(View()).ubits)[i]
                && View() == WithBit(old(View()), kernel, i, true) && Spare(y, View(), p, kernel)
    {
      hide PagesOk, Spare, FirstFit, Full;
      var map' := if kernel then kmap else umap;
      var i: int;
      i, halt := map'.Scan(1);
      if halt != Live {
        return 0, halt;
      }
      OneBit(map'.Bits());
      map'.Set(i, true);
      TakeKeeps(y, old(View()), kernel, i);
      p := i + if kernel then y.kstart else y.ustart;
      assert View() == WithBit(old(View()), kernel, i, true);
    }

    /** page_table_add: the repeated-entry assertions cannot fire. */
    method PageTableAdd(v: nat, p: nat) returns (halt: Halt)
      requires Valid() && v !in pte && InUse(y.vstart, View().vbits, v) && Spare(y, View(), p, !y.user)
      modifies this`pte, this`tables, kmap.bits, umap.bits
      ensures Valid() && View().vbits == old(View().vbits)
      ensures halt != Live ==> View() == old(View()) && Full(View().kbits)
      ensures halt == Live && DirIndex(v) in old(tables) ==> View() == old(View()).(pte := old(pte)[v := p])
      ensures halt == Live && DirIndex(v) !in old(tables) ==>
                var s := old(View());
                exists f :: 0 <= f < |s.kbits| && !s.kbits[f] && FirstFit(s.kbits, 1) == Some(f)
                  && View() == s.(kbits := s.kbits[f := true], tables := s.tables[DirIndex(v) := y.kstart + f], pte := s.pte[v := p])
    {
      hide PagesOk, Spare, InUse, DirIndex, FirstFit, Full, LayoutOk;
      halt := Live;
      if DirIndex(v) !in tables {
        var f: nat;
        f, halt := Palloc(true);
        if halt != Live {
          return;
        }
        assert LayoutOk(y, old(View())) by { Ordered(y, old(View())); }
        SpareStays(y, old(View()), p, f - y.kstart, DirIndex(v));
        TableKeeps(y, View(), DirIndex(v), f);
        tables := tables[DirIndex(v) := f];
      }
      assert v !in pte;  // ASSERT, lines 130 and 147
      MapKeeps(y, View(), v, p);
      pte := pte[v := p];
    }

    /** One turn of malloc_page's loop: palloc, then page_table_add. */
    method MapPage(v: nat) returns (halt: Halt)
      requires Valid() && v !in pte && InUse(y.vstart, View().vbits, v)
      modifies this`pte, this`tables, kmap.bits, umap.bits
      ensures Valid() && View().vbits == old(View().vbits)
      ensures halt != Live ==> Exhausted(y, View()) && (View() == old(View()) || exists i :: OneTaken(y, old(View()), View(), i))
      ensures halt == Live ==> Grew(y, old(View()), View(), {v})
    {
      hide PagesOk, Spare, Grew, InUse, DirIndex, Full, FirstFit;
      var p: nat;
      p, halt := Palloc(!y.user);
      if halt != Live {
        return;
      }
      ghost var s0, s1 := old(View()), View();
      GrewOne(y, s0, v, p - if y.user then y.ustart else y.kstart);
      assert OneTaken(y, s0, s1, p - if y.user then y.ustart else y.kstart);
      halt := PageTableAdd(v, p);
      if halt == Live { MappedGrew(y, s0, s1, View(), v, p); }
    }

    /** vaddr_get: the first n free virtual pages, all marked. */
    method VaddrGet(n: nat) returns (r: PageResult)
      requires Valid() && n >= 1
      modifies vmap.bits
      ensures Valid() && pte == old(pte) && tables == old(tables)
      ensures View().kbits == old(View()).kbits && View().ubits == old(View()).ubits
      ensures r.Null? ==> View() == old(View()) && FirstFit(old(View()).vbits, n) == None
      ensures r.Halted? ==>
                || (Full(old(View()).vbits) && View() == old(View()))
                || (TooHigh(y, old(View()), n) && r.at == Stopped("kernel/memory.c", 85))
      ensures r.Got? ==> var s := old(View());
                && FirstFit(s.vbits, n) == Some(r.v - y.vstart) && 0 <= r.v - y.vstart <= |s.vbits| - n
                && View() == s.(vbits := Marked(s.vbits, r.v - y.vstart, n, true))
                && forall v :: v in PageRange(r.v, n) ==> v !in s.pte && InUse(y.vstart, View().vbits, v)
    {
      hide PagesOk, FirstFit, Full, InUse;
      var start, halt := vmap.Scan(n);
      if halt != Live {
        return Halted(halt);
      }
      if start == -1 {
        return Null;
      }
      FitFromExact(vmap.Bits(), n, 0);
      FitIs(vmap.Bits(), n, start);
      ghost var s := View();
      MarkKeeps(y, s, start, n);
      var cnt := 0;
      assert vmap.Bits() == Marked(s.vbits, start, 0, true);
      while cnt < n
        invariant cnt <= n && pte == s.pte && tables == s.tables
        invariant vmap.Bits() == Marked(s.vbits, start, cnt, true) && kmap.Bits() == s.kbits && umap.Bits() == s.ubits
      {
        vmap.Set(start + cnt, true);
        MarkOne(s.vbits, start, cnt, true);
        cnt := cnt + 1;
      }
      assert View() == s.(vbits := Marked(s.vbits, start, n, true));
      if y.user && y.vstart + start >= 0xbffff {
        return Halted(Stopped("kernel/memory.c", 85));
      }
      r := Got(y.vstart + start);
    }

    /** malloc_page.  On exhaustion of the physical pool the ASSERT in bitmap_scan stops the
        kernel; what has been mapped by then is still consistent. */
    method MallocPage(n: nat) returns (r: PageResult)
      requires Valid()
      modifies this`pte, this`tables, vmap.bits, kmap.bits, umap.bits
      ensures Valid()
      ensures n == 0 || n >= 3840 ==> r == Halted(Stopped("kernel/memory.c", 157)) && View() == old(View())
      ensures r.Null? ==> View() == old(View()) && FirstFit(old(View()).vbits, n) == None
      ensures r.Halted? && 0 < n < 3840 ==> OutOfPages(y, old(View()), View(), n)
      ensures r.Got? ==> Mapped(y, old(View()), View(), n, r.v)
    {
      hide PagesOk, FirstFit, Grew, InUse, Marked, Full, Exhausted;
      if !(0 < n < 3840) {
        return Halted(Stopped("kernel/memory.c", 157));
      }
      r := VaddrGet(n);
      if !r.Got? {
        return;
      }
      ghost var s1 := View();
      var k, v := 0, r.v;
      GrewNone(y, s1);
      assert PageRange(v, 0) == {};
      while k < n
        invariant k <= n && Valid() && View().vbits == s1.vbits
        invariant Grew(y, s1, View(), PageRange(v, k)) && View().pte.Keys == s1.pte.Keys + PageRange(v, k)
      {
        ghost var s2 := View();
        assert v + k in PageRange(v, n) && v + k !in PageRange(v, k);
        var halt := MapPage(v + k);
        if halt != Live {
          assert Midway(y, s1, View(), v, k);
          assert PartMapped(y, s1, View(), v, n);
          return Halted(halt);
        }
        GrewMore(y, s1, s2, View(), PageRange(v, k), v + k);
        assert PageRange(v, k) + {v + k} == PageRange(v, k + 1);
        GrewKeys(y, s1, View(), PageRange(v, k + 1));
        k := k + 1;
      }
    }

    /** pfree and page_table_pte_remove for one mapped page. */
    method FreePage(v: nat)
      requires Valid() && v in pte
      modifies this`pte, kmap.bits, umap.bits
      ensures Valid() && Shrunk(y, old(View()), View(), {v})
    {
      hide PagesOk, Shrunk, Backed, InUse, LayoutOk;
      var p := pte[v];
      ghost var s := View();
      InPool(y, s, v);
      assert 0x102 <= p && (p >= y.ustart <==> y.user);  // ASSERT, lines 495, 503 and 518
      if p >= y.ustart {
        umap.Set(p - y.ustart, false);
      } else {
        kmap.Set(p - y.kstart, false);
      }
      pte := pte - {v};
      assert View() == WithBit(s, !y.user, p - (if y.user then y.ustart else y.kstart), false).(pte := s.pte - {v});
      FreeKeeps(y, s, v);
      FreeShrinks(y, s, v);
    }

    /** mfree_page of n mapped pages. */
    method MfreePage(v: nat, n: nat) returns (halt: Halt)
      requires Valid() && PageRange(v, n) <= pte.Keys
      modifies this`pte, vmap.bits, kmap.bits, umap.bits
      ensures n == 0 ==> halt == Stopped("kernel/memory.c", 487) && View() == old(View())
      ensures n > 0 ==> halt == Live && Valid() && Unmapped(y, old(View()), View(), n, v)
    {
      hide PagesOk, Shrunk;
      if n == 0 {
        return Stopped("kernel/memory.c", 487);
      }
      ghost var s := View();
      var k := 0;
      assert PageRange(v, 0) == {};
      ShrunkNone(y, s);
      while k < n
        invariant k <= n && Valid() && View().vbits == s.vbits
        invariant Shrunk(y, s, View(), PageRange(v, k)) && pte.Keys == s.pte.Keys - PageRange(v, k)
      {
        ghost var s1 := View();
        assert v + k in PageRange(v, n) && v + k !in PageRange(v, k);
        FreePage(v + k);
        ShrunkMore(y, s, s1, View(), PageRange(v, k), v + k);
        assert PageRange(v, k) + {v + k} == PageRange(v, k + 1);
        k := k + 1;
      }
      ghost var s2 := View();
      RangeInside(y, s, v, n);
      ghost var a := v - y.vstart;
      k := 0;
      assert vmap.Bits() == Marked(s.vbits, a, 0, false);
      while k < n
        invariant k <= n && pte == s2.pte && tables == s2.tables
        invariant vmap.Bits() == Marked(s.vbits, a, k, false) && kmap.Bits() == s2.kbits && umap.Bits() == s2.ubits
      {
        vmap.Set(v - y.vstart + k, false);
        MarkOne(s.vbits, a, k, false);
        k := k + 1;
      }
      UnmarkKeeps(y, s2, a, n);
      assert View() == s2.(vbits := Marked(s.vbits, a, n, false));
      halt := Live;
    }
  }

  /** An address space without pages that shares another's pools and some of its tables. */
  lemma ProcessOk(y: Layout, s: Space, y1: Layout, s1: Space)
    requires PagesOk(y, s) && y1.kstart == y.kstart && y1.ustart == y.ustart && s1.kbits == s.kbits && s1.ubits == s.ubits
    requires s1.pte == map[] && (forall i :: i in s1.tables ==> i != 0 && i in s.tables && s1.tables[i] == s.tables[i])
    ensures PagesOk(y1, s1)
  {
    hide Backed, InUse, DirIndex;
  }

  /** What a process takes from the shared pools was not the kernel's, and the kernel's own pages and
      tables stay in order. */
  lemma KernelStays(y: Layout, s: Space, s1: Space, vs: set<nat>, yk: Layout, sk: Space)
    requires Grew(y, s, s1, vs) && sk.kbits == s.kbits && sk.ubits == s.ubits && yk.kstart == y.kstart && yk.ustart == y.ustart
    requires y.user && !yk.user && PagesOk(yk, sk)
    ensures PagesOk(yk, sk.(kbits := s1.kbits, ubits := s1.ubits))
    ensures forall i :: i in s1.tables && i !in s.tables ==>
              (forall v :: v in sk.pte ==> sk.pte[v] != s1.tables[i]) && (forall j :: j in sk.tables ==> sk.tables[j] < yk.kstart || sk.tables[j] != s1.tables[i])
  {
    var sk1 := sk.(kbits := s1.kbits, ubits := s1.ubits);
    assert forall p: nat :: InUse(y.kstart, s.kbits, p) <==> p in Used(y.kstart, s.kbits);
    assert forall p: nat :: InUse(y.kstart, s1.kbits, p) <==> p in Used(y.kstart, s1.kbits);
    assert forall p: nat :: InUse(y.kstart, s.kbits, p) ==> InUse(y.kstart, s1.kbits, p);
    assert forall p: nat :: Backed(yk, sk, p) ==> Backed(yk, sk1, p);
    NewTablesFree(y, s, s1, vs);
    hide Used, Frames, InUse, Grew;
  }

  lemma NewTablesFree(y: Layout, s: Space, s1: Space, vs: set<nat>)
    requires Grew(y, s, s1, vs)
    ensures forall i :: i in s1.tables && i !in s.tables ==> !InUse(y.kstart, s.kbits, s1.tables[i])
  {
    var fresh' := s1.tables.Keys - s.tables.Keys;
    forall i | i in s1.tables && i !in s.tables ensures !InUse(y.kstart, s.kbits, s1.tables[i]) {
      assert i in fresh';
      assert s1.tables[i] in Frames(s1.tables, fresh');
    }
  }

  lemma FitIs(b: seq<bool>, n: nat, start: int)
    requires start >= 0 && FirstFit(b, n) == Some(start)
    ensures start + n <= |b| && forall k :: start <= k < start + n ==> !b[k]
  {
    FitFromExact(b, n, 0);
  }

  lemma MarkOne(b: seq<bool>, i: nat, k: nat, v: bool)
    requires i + k < |b|
    ensures Marked(b, i, k, v)[i + k := v] == Marked(b, i, k + 1, v)
  {
  }

  lemma MarkKeeps(y: Layout, s: Space, i: nat, n: nat)
    requires PagesOk(y, s) && i + n <= |s.vbits| && forall k :: i <= k < i + n ==> !s.vbits[k]
    ensures PagesOk(y, s.(vbits := Marked(s.vbits, i, n, true)))
    ensures forall v :: v in PageRange(y.vstart + i, n) ==>
              v !in s.pte && InUse(y.vstart, Marked(s.vbits, i, n, true), v)
  {
  }

  lemma UnmarkKeeps(y: Layout, s: Space, i: nat, n: nat)
    requires PagesOk(y, s) && i + n <= |s.vbits| && forall v :: v in s.pte ==> v !in PageRange(y.vstart + i, n)
    ensures PagesOk(y, s.(vbits := Marked(s.vbits, i, n, false)))
  {
  }

  lemma GrewKeys(y: Layout, s: Space, s1: Space, vs: set<nat>)
    requires Grew(y, s, s1, vs)
    ensures s1.pte.Keys == s.pte.Keys + vs && s1.vbits == s.vbits
  {
  }

  lemma InPool(y: Layout, s: Space, v: nat)
    requires PagesOk(y, s) && v in s.pte
    ensures Backed(y, s, s.pte[v]) && LayoutOk(y, s)
    ensures var p := s.pte[v];
            && 0x102 <= p && (p >= y.ustart <==> y.user)
            && if y.user then p - y.ustart < |s.ubits| else y.kstart <= p < y.kstart + |s.kbits|
  {
  }

  lemma RangeInside(y: Layout, s: Space, v: nat, n: nat)
    requires PagesOk(y, s) && n > 0 && PageRange(v, n) <= s.pte.Keys
    ensures y.vstart <= v && v - y.vstart + n <= |s.vbits|
  {
    assert v in PageRange(v, n) && v + n - 1 in PageRange(v, n);
  }

  lemma FreeKeeps(y: Layout, s: Space, v: nat)
    requires PagesOk(y, s) && v in s.pte && Backed(y, s, s.pte[v])
    ensures var i := s.pte[v] - if y.user then y.ustart else y.kstart;
            PagesOk(y, WithBit(s, !y.user, i, false).(pte := s.pte - {v}))
  {
    hide PagesOk, Backed, InUse, LayoutOk;
    Ordered(y, s);
    ClearedBit(y, s, v);
    var i := s.pte[v] - if y.user then y.ustart else y.kstart;
    ClearedKeeps(y, s, WithBit(s, !y.user, i, false).(pte := s.pte - {v}), v);
  }

  /** Clearing frame p's bit leaves every other frame as it is. */
  lemma ClearedBit(y: Layout, s: Space, v: nat)
    requires LayoutOk(y, s) && v in s.pte && Backed(y, s, s.pte[v])
    ensures var p := s.pte[v]; var i := p - if y.user then y.ustart else y.kstart;
            && 0 <= i < (if y.user then |s.ubits| else |s.kbits|)
            && var s1 := WithBit(s, !y.user, i, false).(pte := s.pte - {v});
               && |s1.kbits| == |s.kbits| && s1.vbits == s.vbits && s1.tables == s.tables
               && (forall x: nat :: x != p && Backed(y, s, x) ==> Backed(y, s1, x))
               && (forall x: nat :: x != p && InUse(y.kstart, s.kbits, x) ==> InUse(y.kstart, s1.kbits, x))
  {
    var p := s.pte[v];
    if y.user { ClearedOne(y.ustart, s.ubits, p); } else { ClearedOne(y.kstart, s.kbits, p); }
    hide InUse;
  }

  lemma ClearedOne(start: nat, bits: seq<bool>, p: nat)
    requires InUse(start, bits, p)
    ensures 0 <= p - start < |bits|
    ensures forall x: nat :: x != p && InUse(start, bits, x) ==> InUse(start, bits[p - start := false], x)
  {
  }

  lemma ClearedKeeps(y: Layout, s: Space, s1: Space, v: nat)
    requires PagesOk(y, s) && v in s.pte && s1.pte == s.pte - {v} && s1.tables == s.tables && s1.vbits == s.vbits && |s1.kbits| == |s.kbits|
    requires forall x: nat :: x != s.pte[v] && Backed(y, s, x) ==> Backed(y, s1, x)
    requires forall x: nat :: x != s.pte[v] && InUse(y.kstart, s.kbits, x) ==> InUse(y.kstart, s1.kbits, x)
    ensures PagesOk(y, s1)
  {
    hide Backed, InUse, DirIndex;
  }

  lemma FreeShrinks(y: Layout, s: Space, v: nat)
    requires v in s.pte && Backed(y, s, s.pte[v])
    ensures var i := s.pte[v] - if y.user then y.ustart else y.kstart;
            Shrunk(y, s, WithBit(s, !y.user, i, false).(pte := s.pte - {v}), {v})
  {
  }

  lemma ShrunkNone(y: Layout, s: Space)
    ensures Shrunk(y, s, s, {})
  {
  }

  lemma ShrunkMore(y: Layout, s: Space, s1: Space, s2: Space, vs: set<nat>, v: nat)
    requires Shrunk(y, s, s1, vs) && Shrunk(y, s1, s2, {v})
    ensures Shrunk(y, s, s2, vs + {v}) && s2.vbits == s.vbits && s2.pte.Keys == s.pte.Keys - (vs + {v})
  {
  }

  lemma Ordered(y: Layout, s: Space)
    requires PagesOk(y, s)
    ensures LayoutOk(y, s)
  {
  }

  /** malloc_page followed by mfree_page gives everything back: the virtual bitmap, the
      mappings and both physical pools, except that page tables made on the way are kept.
      So the whole space is restored exactly when no page table was missing. */
  lemma MallocFreeRestores(y: Layout, s: Space, s1: Space, s2: Space, n: nat, v: nat)
    requires PagesOk(y, s) && Mapped(y, s, s1, n, v) && PagesOk(y, s1) && Unmapped(y, s1, s2, n, v)
    ensures s2.vbits == s.vbits && s2.pte == s.pte && s2.ubits == s.ubits
    ensures s2 == s <==> forall x :: x in PageRange(v, n) ==> DirIndex(x) in s.tables
  {
    hide Used, Frames, FirstFit, Marked, PagesOk, DirIndex;
    var vs := PageRange(v, n);
    RestoresBits(y, s, s1, s2, n, v);
    RestoresPte(y, s.(vbits := s1.vbits), s1, s2.(vbits := s1.vbits), vs);
    RestoresPools(y, s.(vbits := s1.vbits), s1, s2.(vbits := s1.vbits), vs);
    SameUsed(y.ustart, s2.ubits, s.ubits);
    RestoresTables(y, s.(vbits := s1.vbits), s1, vs);
    if s1.tables == s.tables {
      NoFrames(s1.tables);
      assert s1.tables.Keys - s.tables.Keys == {};
      SameUsed(y.kstart, s2.kbits, s.kbits);
    }
  }

  lemma RestoresBits(y: Layout, s: Space, s1: Space, s2: Space, n: nat, v: nat)
    requires Mapped(y, s, s1, n, v) && Unmapped(y, s1, s2, n, v)
    ensures s2.vbits == s.vbits
  {
    hide Grew, Shrunk;
    FitIs(s.vbits, n, v - y.vstart);
  }

  /** No table was made exactly when none was missing. */
  lemma RestoresTables(y: Layout, s: Space, s1: Space, vs: set<nat>)
    requires Grew(y, s, s1, vs) && PagesOk(y, s1)
    ensures s1.tables == s.tables <==> forall x :: x in vs ==> DirIndex(x) in s.tables
  {
    hide Used, Frames, InUse, DirIndex;
    if x :| x in vs && DirIndex(x) !in s.tables {
      assert x in s1.pte && DirIndex(x) in s1.tables;
    } else {
      assert s1.tables.Keys == s.tables.Keys;
    }
  }

  lemma RestoresPte(y: Layout, s: Space, s1: Space, s2: Space, vs: set<nat>)
    requires Grew(y, s, s1, vs) && Shrunk(y, s1, s2, vs)
    ensures s2.pte == s.pte
  {
  }

  lemma RestoresPools(y: Layout, s: Space, s1: Space, s2: Space, vs: set<nat>)
    requires Grew(y, s, s1, vs) && Shrunk(y, s1, s2, vs) && PagesOk(y, s1)
    ensures Used(y.ustart, s2.ubits) == Used(y.ustart, s.ubits)
    ensures Used(y.kstart, s2.kbits) == Used(y.kstart, s.kbits) + Frames(s1.tables, s1.tables.Keys - s.tables.Keys)
  {
  }
}
