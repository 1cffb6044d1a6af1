/** SelfMap's words realise the maps `pte` and `tables` of Pages: page_table_add and
    page_table_pte_remove on physical memory do to translations what Pages says of the maps. */
module PageTables {
  import opened Basics
  import opened Pages
  import opened SelfMap

  /** The pages of the virtual pool, by number: they lie above the first 4 MB and below the window of
      the self map. */
  datatype Pool = Pool(first: nat, count: nat)

  predicate PoolOk(q: Pool) { 1024 <= q.first && q.first + q.count <= 1023 * 1024 }

  predicate In(q: Pool, v: nat) { q.first <= v < q.first + q.count }

  /** The directory's present entries are `tables`. */
  ghost predicate DirectoryIs(m: Mem, cr3: nat, tables: map<nat, nat>) {
    && Tables(m, cr3)
    && (forall i: nat :: i < 1023 ==> (Present(Entry(m, cr3, i)) <==> i in tables))
    && (forall i: nat :: i < 1023 && i in tables ==> Page(Entry(m, cr3, i)) == tables[i] * 4096)
  }

  /** Every address of the pool translates as `pte` says. */
  ghost predicate PoolIs(m: Mem, cr3: nat, q: Pool, pte: map<nat, nat>) {
    forall x: nat :: In(q, x / 4096) ==>
      Translate(m, cr3, x) == if x / 4096 in pte then Some(pte[x / 4096] * 4096 + x % 4096) else None
  }

  ghost predicate Realises(m: Mem, cr3: nat, q: Pool, pte: map<nat, nat>, tables: map<nat, nat>) {
    PoolOk(q) && DirectoryIs(m, cr3, tables) && PoolIs(m, cr3, q, pte) && TablesApart(tables)
  }

  lemma PoolAddress(q: Pool, x: nat)
    requires PoolOk(q) && In(q, x / 4096)
    ensures Mappable(x) && 0 < PdeIdx(x) < 1023 && PdeIdx(x) == DirIndex(x / 4096) && Offset(x) == x % 4096
  {
  }

  lemma PageAddress(v: nat)
    ensures (v * 4096) / 4096 == v && Offset(v * 4096) == 0
  {
  }

  lemma PageNumber(x: nat, v: nat)
    ensures Page(x) == v * 4096 <==> x / 4096 == v
  {
  }

  /** In the pool only a page itself shares its entry: entry 0 is not used there. */
  lemma PoolShares(m: Mem, cr3: nat, q: Pool, tables: map<nat, nat>, x: nat, v: nat)
    requires PoolOk(q) && DirectoryIs(m, cr3, tables) && TablesApart(tables) && In(q, x / 4096) && In(q, v) && DirIndex(v) in tables
    ensures Shares(m, cr3, x, v * 4096) <==> x / 4096 == v
  {
    hide Page, Offset, Present, PdeIdx, PteIdx, Tables, DirIndex;
    PageAddress(v);
    PoolAddress(q, x);
    PoolAddress(q, v * 4096);
    PageNumber(x, v);
    var i, j := PdeIdx(x), PdeIdx(v * 4096);
    assert Pde(m, cr3, v * 4096) == Entry(m, cr3, j) && Pde(m, cr3, x) == Entry(m, cr3, i);
    PageNumber(v * 4096, v);
    if i == j && PteIdx(x) == PteIdx(v * 4096) { SamePage(x, v * 4096); }
    if Page(x) == v * 4096 { SameIndices(x, v * 4096); }
  }

  /** What page_table_add does to the table map. */
  function WithTable(tables: map<nat, nat>, v: nat, f: nat): map<nat, nat> {
    if DirIndex(v) in tables then tables else tables[DirIndex(v) := f]
  }

  lemma DirectoryAdded(m: Mem, m1: Mem, cr3: nat, q: Pool, tables: map<nat, nat>, v: nat, f: nat)
    requires PoolOk(q) && DirectoryIs(m, cr3, tables) && In(q, v) && Tables(m1, cr3)
    requires forall x :: Mappable(x) && PdeIdx(x) != PdeIdx(v * 4096) ==> Pde(m1, cr3, x) == Pde(m, cr3, x)
    requires Pde(m1, cr3, v * 4096) == if Present(Pde(m, cr3, v * 4096)) then Pde(m, cr3, v * 4096) else f * 4096 + 7
    ensures DirectoryIs(m1, cr3, WithTable(tables, v, f))
  {
    hide Page, Offset, Present, Tables;
    PageAddress(v);
    PoolAddress(q, v * 4096);
    PageAddress(f);
    Flags(f * 4096);
    var j := PdeIdx(v * 4096);
    forall i: nat | i < 1023
      ensures Entry(m1, cr3, i) == if i != j || i in tables then Entry(m, cr3, i) else f * 4096 + 7
    {
      Parts(i, 0, 0);
      assert Pde(m1, cr3, i * 0x40_0000) == Entry(m1, cr3, i) && Pde(m, cr3, i * 0x40_0000) == Entry(m, cr3, i);
      assert Pde(m, cr3, v * 4096) == Entry(m, cr3, j) && Pde(m1, cr3, v * 4096) == Entry(m1, cr3, j);
    }
  }

  /** Two states in which every pool address but those of page v translates alike. */
  lemma PoolChanged(m: Mem, m1: Mem, cr3: nat, q: Pool, pte: map<nat, nat>, pte1: map<nat, nat>, tables: map<nat, nat>, v: nat)
    requires PoolOk(q) && PoolIs(m, cr3, q, pte) && DirectoryIs(m1, cr3, tables) && TablesApart(tables) && In(q, v) && DirIndex(v) in tables
    requires forall u :: u != v ==> (u in pte1 <==> u in pte) && (u in pte ==> pte1[u] == pte[u])
    requires forall x :: Mappable(x) ==>
               Translate(m1, cr3, x) == if !Shares(m1, cr3, x, v * 4096) then Translate(m, cr3, x)
                                        else if v in pte1 then Some(pte1[v] * 4096 + Offset(x)) else None
    ensures PoolIs(m1, cr3, q, pte1)
  {
    hide Shares, Translate, DirectoryIs, Offset, DirIndex;
    forall x: nat | In(q, x / 4096)
      ensures Translate(m1, cr3, x) == if x / 4096 in pte1 then Some(pte1[x / 4096] * 4096 + x % 4096) else None
    {
      PoolAddress(q, x);
      PoolShares(m1, cr3, q, tables, x, v);
    }
  }

  /** page_table_add of page v to frame p on memory; `f` is the frame palloc would hand out for a new
      page table.  The maps change as Pages.PageAllocator.PageTableAdd changes them. */
  method AddPage(mmu: Mmu, q: Pool, ghost pte: map<nat, nat>, ghost tables: map<nat, nat>, v: nat, p: nat, f: nat) returns (halt: Halt)
    requires Realises(mmu.mem, mmu.cr3, q, pte, tables) && In(q, v) && v !in pte
    requires DirIndex(v) !in tables ==> f * 4096 != mmu.cr3 && forall i :: i in tables ==> tables[i] != f
    modifies mmu`mem
    ensures halt == Live && Realises(mmu.mem, mmu.cr3, q, pte[v := p], WithTable(tables, v, f))
  {
    hide Page, Offset, Present, Tables, Shares, Translate, Pde, PdeIdx, TablesApart, PoolIs, DirectoryIs, FreshTable;
    ghost var m := mmu.mem;
    PageAddress(v);
    PageAddress(p);
    PoolAddress(q, v * 4096);
    AddReady(m, mmu.cr3, q, pte, tables, v, f);
    halt := mmu.PageTableAdd(v * 4096, p * 4096, f * 4096);
    DirectoryAdded(m, mmu.mem, mmu.cr3, q, tables, v, f);
    StillApart(tables, v, f);
    PoolChanged(m, mmu.mem, mmu.cr3, q, pte, pte[v := p], WithTable(tables, v, f), v);
  }

  lemma StillApart(tables: map<nat, nat>, v: nat, f: nat)
    requires TablesApart(tables) && (DirIndex(v) !in tables ==> forall i :: i in tables ==> tables[i] != f)
    ensures TablesApart(WithTable(tables, v, f)) && DirIndex(v) in WithTable(tables, v, f)
  {
  }

  lemma AddReady(m: Mem, cr3: nat, q: Pool, pte: map<nat, nat>, tables: map<nat, nat>, v: nat, f: nat)
    requires Realises(m, cr3, q, pte, tables) && In(q, v) && v !in pte
    requires DirIndex(v) !in tables ==> f * 4096 != cr3 && forall i :: i in tables ==> tables[i] != f
    ensures Tables(m, cr3) && Translate(m, cr3, v * 4096) == None
    ensures !Present(Pde(m, cr3, v * 4096)) ==> FreshTable(m, cr3, f * 4096)
  {
    hide Page, Offset, Present, Tables, Translate, PdeIdx, TablesApart;
    PageAddress(v);
    PageAddress(f);
    PoolAddress(q, v * 4096);
    assert Pde(m, cr3, v * 4096) == Entry(m, cr3, PdeIdx(v * 4096));
  }

  /** page_table_pte_remove of page v. */
  method RemovePage(mmu: Mmu, q: Pool, ghost pte: map<nat, nat>, ghost tables: map<nat, nat>, v: nat)
    requires Realises(mmu.mem, mmu.cr3, q, pte, tables) && In(q, v) && v in pte && DirIndex(v) in tables
    modifies mmu`mem
    ensures Realises(mmu.mem, mmu.cr3, q, pte - {v}, tables)
  {
    hide Page, Offset, Present, Tables, Shares, Translate, Pde, PdeIdx, TablesApart, PoolIs, DirectoryIs;
    ghost var m := mmu.mem;
    PageAddress(v);
    PoolAddress(q, v * 4096);
    RemoveReady(m, mmu.cr3, q, tables, v);
    mmu.PageTableRemove(v * 4096);
    DirectoryAdded(m, mmu.mem, mmu.cr3, q, tables, v, 0);
    PoolChanged(m, mmu.mem, mmu.cr3, q, pte, pte - {v}, tables, v);
  }

  lemma RemoveReady(m: Mem, cr3: nat, q: Pool, tables: map<nat, nat>, v: nat)
    requires PoolOk(q) && DirectoryIs(m, cr3, tables) && In(q, v) && DirIndex(v) in tables
    ensures Tables(m, cr3) && Present(Pde(m, cr3, v * 4096))
  {
    hide Page, Offset, Present, Tables, PdeIdx, DirIndex;
    PageAddress(v);
    PoolAddress(q, v * 4096);
    assert Pde(m, cr3, v * 4096) == Entry(m, cr3, PdeIdx(v * 4096));
  }

  /** A directory as create_page_dir leaves it: the kernel's entries from 768 on, itself at 1023, and
      nothing below 3 GB. */
  ghost predicate ProcessDirectory(m: Mem, cr3: nat) {
    && Offset(cr3) == 0 && cr3 >= 0x20_0000 && Entry(m, cr3, 1023) == cr3 + 7 && Entry(m, cr3, 768) == 0x10_1007
    && (forall i :: 769 <= i < 1023 ==> Entry(m, cr3, i) == 0x10_2005 + (i - 769) * 4096)
    && (forall i :: 0 <= i < 768 ==> Entry(m, cr3, i) == 0)
  }

  lemma ProcessEntry(m: Mem, cr3: nat, i: nat)
    requires ProcessDirectory(m, cr3) && i < 1023
    ensures var e := Entry(m, cr3, i); if i >= 768 then Present(e) && Page(e) == (0x101 + (i - 768)) * 4096 != cr3 else !Present(e)
  {
    if i >= 768 { FlaggedPage((0x101 + (i - 768)) * 4096, if i == 768 then 7 else 5); }
  }

  /** It realises what PageAllocator.ForProcess starts from, for every pool below 3 GB. */
  lemma ProcessStart(m: Mem, cr3: nat, q: Pool, tables: map<nat, nat>)
    requires ProcessDirectory(m, cr3) && PoolOk(q) && q.first + q.count <= 0xc0000
    requires tables.Keys == PageRange(768, 255) && forall i :: 768 <= i < 1023 ==> tables[i] == 0x101 + (i - 768)
    ensures Realises(m, cr3, q, map[], tables)
  {
    hide Page, Offset, Present, PdeIdx, ProcessDirectory;
    ProcessSelf(m, cr3);
    forall i: nat | i < 1023
      ensures Present(Entry(m, cr3, i)) <==> i in tables
      ensures Present(Entry(m, cr3, i)) ==> Page(Entry(m, cr3, i)) != cr3 && Page(Entry(m, cr3, i)) == tables[i] * 4096
    {
      ProcessEntry(m, cr3, i);
    }
    forall x: nat | In(q, x / 4096) ensures Translate(m, cr3, x) == None {
      PoolAddress(q, x);
      LowIndex(x);
      assert Pde(m, cr3, x) == Entry(m, cr3, PdeIdx(x));
      ProcessEntry(m, cr3, PdeIdx(x));
    }
  }

  lemma LowIndex(x: nat)
    requires x / 4096 < 0xc0000
    ensures PdeIdx(x) < 768
  {
  }

  lemma ProcessSelf(m: Mem, cr3: nat)
    requires ProcessDirectory(m, cr3)
    ensures SelfMapped(m, cr3)
  {
    FlaggedPage(cr3, 7);
    assert Entry(m, cr3, 1023) == Rd(m, cr3 + 4092);
  }

  /** What the loader and mem_pool_init leave is realised: 256 tables, none of the pool mapped. */
  lemma KernelStart(m: Mem, q: Pool, tables: map<nat, nat>)
    requires LoaderDirectory(m) && PoolOk(q) && 769 * 1024 > q.first >= 768 * 1024
    requires tables.Keys == {0} + PageRange(768, 255) && tables[0] == 0x101
    requires forall i :: 768 <= i < 1023 ==> i in tables && tables[i] == 0x101 + (i - 768)
    requires forall x :: Mappable(x) && In(q, x / 4096) ==> !Present(Pte(m, 0x10_0000, x))
    ensures Realises(m, 0x10_0000, q, map[], tables)
  {
    hide Page, Offset, Present, PdeIdx, LoaderDirectory, Pte, Tables;
    LoaderTables(m);
    forall i: nat | i < 1023
      ensures Present(Entry(m, 0x10_0000, i)) <==> i in tables
      ensures i in tables ==> Page(Entry(m, 0x10_0000, i)) == tables[i] * 4096
    {
      LoaderEntry(m, i);
    }
    forall x: nat | In(q, x / 4096) ensures Translate(m, 0x10_0000, x) == None {
      PoolAddress(q, x);
    }
  }
}
