/** The self-mapped page tables of kernel/memory.c: pte_ptr, pde_ptr, page_table_add,
    page_table_pte_remove and addr_v2p, against the two-level walk of 32-bit paging
    (section 4.3 of the Intel 64 and IA-32 Architectures Software Developer's Manual,
    Volume 3A).  Physical memory is a map of 32-bit words; words never written read as 0.
    Masks and shifts of the source are written as division and remainder. */
module SelfMap {
  import opened Basics

  type Mem = map<nat, nat>

  predicate IsWord(v: int) { 0 <= v < 0x1_0000_0000 }

  function Rd(m: Mem, a: nat): nat {
    if a in m then m[a] else 0
  }

  /** Bits 31..22 and 21..12 of an address. */
  function PdeIdx(v: nat): nat { v / 4096 / 1024 }
  function PteIdx(v: nat): nat { v / 4096 % 1024 }
  function Page(v: nat): nat { v - v % 4096 }
  function Offset(v: nat): nat { v % 4096 }
  predicate Present(e: nat) { e % 2 == 1 }

  /** The entry with its present bit cleared. */
  function Absent(e: nat): nat { e / 2 * 2 }

  /** pte_ptr and pde_ptr */
  function PtePtr(v: nat): nat { 0xffc0_0000 + PdeIdx(v) * 4096 + PteIdx(v) * 4 }
  function PdePtr(v: nat): nat { 0xffff_f000 + PdeIdx(v) * 4 }

  /** v's directory entry, the page table it names, v's table entry and its physical address. */
  function Pde(m: Mem, cr3: nat, v: nat): nat { Rd(m, cr3 + PdeIdx(v) * 4) }
  function Table(m: Mem, cr3: nat, v: nat): nat { Page(Pde(m, cr3, v)) }
  function PteWord(m: Mem, cr3: nat, v: nat): nat { Table(m, cr3, v) + PteIdx(v) * 4 }
  function Pte(m: Mem, cr3: nat, v: nat): nat { Rd(m, PteWord(m, cr3, v)) }

  /** The hardware walk. */
  function Translate(m: Mem, cr3: nat, v: nat): Option<nat> {
    if Present(Pde(m, cr3, v)) && Present(Pte(m, cr3, v))
    then Some(Page(Pte(m, cr3, v)) + Offset(v))
    else None
  }

  /** Entry 1023 of the directory points to the directory itself. */
  predicate SelfMapped(m: Mem, cr3: nat) {
    Offset(cr3) == 0 && Present(Rd(m, cr3 + 4092)) && Page(Rd(m, cr3 + 4092)) == cr3
  }

  /** An address is its directory index, table index and offset. */
  lemma Parts(i: nat, j: nat, o: nat)
    requires i < 1024 && j < 1024 && o < 4096
    ensures var v := i * 0x40_0000 + j * 4096 + o; IsWord(v) && PdeIdx(v) == i && PteIdx(v) == j && Offset(v) == o
  {
    var v := i * 0x40_0000 + j * 4096 + o;
    assert v == (i * 1024 + j) * 4096 + o;
    assert v / 4096 == i * 1024 + j;
    assert (i * 1024 + j) / 1024 == i;
  }

  lemma PtePtrIndices(v: nat)
    requires IsWord(v)
    ensures IsWord(PtePtr(v))
    ensures PdeIdx(PtePtr(v)) == 1023 && PteIdx(PtePtr(v)) == PdeIdx(v) && Offset(PtePtr(v)) == PteIdx(v) * 4
  {
    Parts(1023, PdeIdx(v), PteIdx(v) * 4);
  }

  /** Through the self map, the virtual address pte_ptr(v) is v's page-table entry, for every v
      whose directory entry is present. */
  lemma PtePtrReachesPte(m: Mem, cr3: nat, v: nat)
    requires IsWord(v) && SelfMapped(m, cr3) && Present(Pde(m, cr3, v))
    ensures Translate(m, cr3, PtePtr(v)) == Some(PteWord(m, cr3, v))
  {
    PtePtrIndices(v);
  }

  /** ... and pde_ptr(v) is v's directory entry, present or not. */
  lemma PdePtrReachesPde(m: Mem, cr3: nat, v: nat)
    requires IsWord(v) && SelfMapped(m, cr3)
    ensures Translate(m, cr3, PdePtr(v)) == Some(cr3 + PdeIdx(v) * 4)
  {
  }

  // ------------------------------------------------------------- adding a mapping

  function Entry(m: Mem, cr3: nat, i: nat): nat { Rd(m, cr3 + i * 4) }

  /** Only entry 1023 names the directory itself.  Two entries may name the same page table. */
  ghost predicate Tables(m: Mem, cr3: nat) {
    && SelfMapped(m, cr3)
    && (forall i :: 0 <= i < 1023 && Present(Entry(m, cr3, i)) ==> Page(Entry(m, cr3, i)) != cr3)
  }

  /** x and v are translated by the same page-table entry. */
  predicate Shares(m: Mem, cr3: nat, x: nat, v: nat) {
    Present(Pde(m, cr3, x)) && Table(m, cr3, x) == Table(m, cr3, v) && PteIdx(x) == PteIdx(v)
  }

  /** No page table is named twice. */
  ghost predicate Unshared(m: Mem, cr3: nat) {
    forall i, j :: 0 <= i < j < 1023 && Present(Entry(m, cr3, i)) && Present(Entry(m, cr3, j)) ==>
      Page(Entry(m, cr3, i)) != Page(Entry(m, cr3, j))
  }

  ghost predicate FreshTable(m: Mem, cr3: nat, f: nat) {
    Offset(f) == 0 && f != cr3 && forall i :: 0 <= i < 1023 && Present(Entry(m, cr3, i)) ==> Page(Entry(m, cr3, i)) != f
  }

  /** Ordinary virtual addresses: not in the 4 MB window of the self map. */
  predicate Mappable(v: int) { 0 <= v < 0xffc0_0000 }

  lemma Ranges(x: nat, e: nat)
    requires Mappable(x)
    ensures PdeIdx(x) < 1023 && PteIdx(x) < 1024 && Offset(Page(e)) == 0 && !Present(0)
  {
  }

  lemma Parity(k: nat, b: nat)
    requires b < 2
    ensures (2 * k + b) % 2 == b
  {
  }

  lemma FlaggedPage(e: nat, flags: nat)
    requires Offset(e) == 0 && (flags == 5 || flags == 7)
    ensures Page(e + flags) == e && Present(e + flags)
  {
    var k, b := e / 4096, flags / 2;
    assert e == 4096 * k && e + flags == 2 * (2048 * k + b) + 1;
    Parity(2048 * k + b, 1);
  }

  /** addr | PG_US_U | PG_RW_W | PG_P_1 for a page address, and the P bit cleared. */
  lemma Flags(e: nat)
    ensures Offset(e) == 0 ==> Page(e + 7) == e && Present(e + 7)
    ensures !Present(Absent(e))
  {
    hide Offset, Page;
    if Offset(e) == 0 { FlaggedPage(e, 7); }
    Parity(e / 2, e % 2);
    Parity(e / 2, 0);
  }

  lemma WordOf(a: nat, i: nat)
    requires Offset(a) == 0 && i < 1024
    ensures Page(a + i * 4) == a
  {
  }

  lemma SameWord(a: nat, b: nat, i: nat, j: nat)
    requires Offset(a) == 0 && Offset(b) == 0 && i < 1024 && j < 1024 && a + i * 4 == b + j * 4
    ensures a == b && i == j
  {
  }

  /** Writing one table entry changes the translation of exactly the addresses that share it. */
  lemma WriteEntry(m: Mem, cr3: nat, v: nat, e: nat, x: nat)
    requires Tables(m, cr3) && Mappable(v) && Mappable(x) && Present(Pde(m, cr3, v))
    ensures var m1 := m[PteWord(m, cr3, v) := e];
            && Pde(m1, cr3, x) == Pde(m, cr3, x) && (Shares(m1, cr3, x, v) <==> Shares(m, cr3, x, v))
            && Translate(m1, cr3, x) == if !Shares(m, cr3, x, v) then Translate(m, cr3, x)
                                        else if Present(e) then Some(Page(e) + Offset(x)) else None
  {
    hide Page, Offset, Present, PdeIdx, PteIdx;
    var m1, w := m[PteWord(m, cr3, v) := e], PteWord(m, cr3, v);
    Ranges(v, Pde(m, cr3, v));
    Ranges(x, Pde(m, cr3, x));
    WordOf(Table(m, cr3, v), PteIdx(v));
    WordOf(cr3, PdeIdx(x));
    WordOf(cr3, PdeIdx(v));
    assert Pde(m, cr3, v) == Entry(m, cr3, PdeIdx(v)) && Pde(m, cr3, x) == Entry(m, cr3, PdeIdx(x));
    assert Pde(m1, cr3, x) == Pde(m, cr3, x) && Pde(m1, cr3, v) == Pde(m, cr3, v);
    if PteWord(m, cr3, x) == w {
      SameWord(Table(m, cr3, x), Table(m, cr3, v), PteIdx(x), PteIdx(v));
    }
  }

  /** x's translation depends on v's entry if and only if x shares it. */
  lemma DependsIff(m: Mem, cr3: nat, v: nat, x: nat)
    requires Tables(m, cr3) && Mappable(v) && Mappable(x) && Present(Pde(m, cr3, v))
    ensures Shares(m, cr3, x, v) <==>
            Translate(m[PteWord(m, cr3, v) := 0], cr3, x) != Translate(m[PteWord(m, cr3, v) := 1], cr3, x)
  {
    hide Translate, Shares, PteWord, Pde;
    WriteEntry(m, cr3, v, 0, x);
    WriteEntry(m, cr3, v, 1, x);
  }

  /** Where no table is named twice, only v's own page shares its entry. */
  lemma UnsharedPage(m: Mem, cr3: nat, x: nat, v: nat)
    requires Unshared(m, cr3) && Mappable(v) && Mappable(x) && Present(Pde(m, cr3, v))
    ensures Shares(m, cr3, x, v) <==> Page(x) == Page(v)
  {
    hide Page, Offset, Present, PdeIdx, PteIdx;
    Ranges(v, 0);
    Ranges(x, 0);
    assert Pde(m, cr3, v) == Entry(m, cr3, PdeIdx(v)) && Pde(m, cr3, x) == Entry(m, cr3, PdeIdx(x));
    if PdeIdx(x) == PdeIdx(v) && PteIdx(x) == PteIdx(v) { SamePage(x, v); }
    if Page(x) == Page(v) { SameIndices(x, v); }
  }

  // -------------------------------------------------------------- the loader's directory

  /** What the loader leaves at 0x100000: entries 0 and 768 name the table at 0x101000, entries 769
      to 1022 the tables behind it, without the write flag, and entry 1023 the directory; nothing
      else is present. */
  ghost predicate LoaderDirectory(m: Mem) {
    && Entry(m, 0x10_0000, 0) == Entry(m, 0x10_0000, 768) == 0x10_1007 && Entry(m, 0x10_0000, 1023) == 0x10_0007
    && (forall i :: 769 <= i < 1023 ==> Entry(m, 0x10_0000, i) == 0x10_2005 + (i - 769) * 4096)
    && (forall i :: 1 <= i < 768 ==> !Present(Entry(m, 0x10_0000, i)))
  }

  lemma LoaderEntry(m: Mem, i: nat)
    requires LoaderDirectory(m) && i < 1023
    ensures var e := Entry(m, 0x10_0000, i);
            if i == 0 || i >= 768 then Present(e) && Page(e) == 0x10_1000 + (if i == 0 then 0 else i - 768) * 4096 else !Present(e)
  {
    if i == 0 || i >= 768 {
      var k := if i == 0 then 0 else i - 768;
      FlaggedPage((0x101 + k) * 4096, if i <= 768 then 7 else 5);
    }
  }

  /** The kernel's directory meets the condition of page_table_add, and in it x shares v's entry if and
      only if they are one page, or the same page of the first 4 MB seen from 0 and from 3 GB. */
  lemma LoaderShares(m: Mem, x: nat, v: nat)
    requires LoaderDirectory(m) && Mappable(x) && Mappable(v) && Present(Pde(m, 0x10_0000, v))
    ensures Tables(m, 0x10_0000)
    ensures Shares(m, 0x10_0000, x, v) <==>
            Page(x) == Page(v) || (PteIdx(x) == PteIdx(v) && ((PdeIdx(x) == 0 && PdeIdx(v) == 768) || (PdeIdx(x) == 768 && PdeIdx(v) == 0)))
  {
    hide Page, Offset, Present, PdeIdx, PteIdx, LoaderDirectory, Tables, Pde, Table;
    LoaderTables(m);
    LoaderTable(m, x);
    LoaderTable(m, v);
    if PdeIdx(x) == PdeIdx(v) && PteIdx(x) == PteIdx(v) { SamePage(x, v); }
    if Page(x) == Page(v) { SameIndices(x, v); }
  }

  /** The directory index and the page table of an address. */
  lemma LoaderTable(m: Mem, x: nat)
    requires LoaderDirectory(m) && Mappable(x)
    ensures PdeIdx(x) < 1023 && (Present(Pde(m, 0x10_0000, x)) <==> PdeIdx(x) == 0 || PdeIdx(x) >= 768)
    ensures Present(Pde(m, 0x10_0000, x)) ==> Table(m, 0x10_0000, x) == 0x10_1000 + (if PdeIdx(x) == 0 then 0 else PdeIdx(x) - 768) * 4096
  {
    hide Page, Offset, Present, PdeIdx, PteIdx, LoaderDirectory;
    Ranges(x, 0);
    assert Pde(m, 0x10_0000, x) == Entry(m, 0x10_0000, PdeIdx(x));
    LoaderEntry(m, PdeIdx(x));
  }

  lemma LoaderTables(m: Mem)
    requires LoaderDirectory(m)
    ensures Tables(m, 0x10_0000) && !Unshared(m, 0x10_0000)
  {
    forall i | 0 <= i < 1023 && Present(Entry(m, 0x10_0000, i)) ensures Page(Entry(m, 0x10_0000, i)) != 0x10_0000 {
      LoaderEntry(m, i);
    }
    FlaggedPage(0x10_0000, 7);
    assert Entry(m, 0x10_0000, 1023) == Rd(m, 0x10_0000 + 4092);
    LoaderEntry(m, 0);
    LoaderEntry(m, 768);
  }

  /** The failing input of "no other page is affected": mapping the first heap page, 0xc0100000, also
      maps 0x00100000. */
  lemma FirstHeapPageAliases(m: Mem, p: nat)
    requires LoaderDirectory(m) && Offset(p) == 0
    ensures var m1 := m[PteWord(m, 0x10_0000, 0xc010_0000) := p + 7];
            Translate(m1, 0x10_0000, 0xc010_0000) == Some(p) && Translate(m1, 0x10_0000, 0x10_0000) == Some(p)
  {
    hide Translate, PteWord, Shares;
    Parts(768, 256, 0);
    Parts(0, 256, 0);
    LoaderEntry(m, 768);
    assert Pde(m, 0x10_0000, 0xc010_0000) == Entry(m, 0x10_0000, 768);
    Flags(p);
    LoaderShares(m, 0xc010_0000, 0xc010_0000);
    LoaderShares(m, 0x10_0000, 0xc010_0000);
    WriteEntry(m, 0x10_0000, 0xc010_0000, p + 7, 0xc010_0000);
    WriteEntry(m, 0x10_0000, 0xc010_0000, p + 7, 0x10_0000);
  }

  lemma SamePage(x: nat, v: nat)
    requires PdeIdx(x) == PdeIdx(v) && PteIdx(x) == PteIdx(v)
    ensures Page(x) == Page(v)
  {
    Digits(x / 4096);
    Digits(v / 4096);
  }

  lemma Digits(n: nat)
    ensures n == 1024 * (n / 1024) + n % 1024
  {
  }

  lemma SameIndices(x: nat, v: nat)
    requires Page(x) == Page(v)
    ensures PdeIdx(x) == PdeIdx(v) && PteIdx(x) == PteIdx(v)
  {
    assert Page(x) == 4096 * (x / 4096) && Page(v) == 4096 * (v / 4096);
  }

  lemma WriteKeepsTables(m: Mem, cr3: nat, v: nat, e: nat)
    requires Tables(m, cr3) && Mappable(v) && Present(Pde(m, cr3, v))
    ensures Tables(m[PteWord(m, cr3, v) := e], cr3)
  {
    hide Page, Offset, Present, PdeIdx, PteIdx;
    var m1 := m[PteWord(m, cr3, v) := e];
    assert Pde(m, cr3, v) == Entry(m, cr3, PdeIdx(v));
    Ranges(v, Pde(m, cr3, v));
    WordOf(Table(m, cr3, v), PteIdx(v));
    forall i | 0 <= i < 1024 ensures Entry(m1, cr3, i) == Entry(m, cr3, i) {
      WordOf(cr3, i);
    }
    assert Entry(m1, cr3, 1023) == Rd(m1, cr3 + 4092);
  }

  /** A new, zeroed page table `f` installed at v's directory slot. */
  ghost predicate NewTable(m: Mem, m1: Mem, cr3: nat, v: nat, f: nat) {
    && Entry(m1, cr3, PdeIdx(v)) == f + 7
    && (forall i: nat :: i < 1024 ==> Entry(m1, f, i) == 0)
    && (forall a: nat :: Page(a) != f && a != cr3 + PdeIdx(v) * 4 ==> Rd(m1, a) == Rd(m, a))
  }

  /** Between m and m1 nothing has been written but v's entries and, if its table is new, that table's
      other entries, which are zero. */
  ghost predicate OnlyEntries(m: Mem, m1: Mem, cr3: nat, v: nat, f: nat) {
    var fresh' := !Present(Pde(m, cr3, v));
    && (forall a: nat :: a != PteWord(m1, cr3, v) && !(fresh' && (Page(a) == f || a == cr3 + PdeIdx(v) * 4)) ==> Rd(m1, a) == Rd(m, a))
    && (fresh' ==> forall i: nat :: i < 1024 && f + i * 4 != PteWord(m1, cr3, v) ==> Entry(m1, f, i) == 0)
  }

  lemma EntriesOnly(m: Mem, m1: Mem, m2: Mem, cr3: nat, v: nat, f: nat, e: nat)
    requires if Present(Pde(m, cr3, v)) then m1 == m else NewTable(m, m1, cr3, v, f)
    requires m2 == m1[PteWord(m1, cr3, v) := e] && PteWord(m2, cr3, v) == PteWord(m1, cr3, v)
    ensures OnlyEntries(m, m2, cr3, v, f)
  {
    hide Page, PdeIdx, PteIdx, Present, PteWord;
    var w := PteWord(m1, cr3, v);
    assert forall a: nat :: a != w ==> Rd(m2, a) == Rd(m1, a);
    if !Present(Pde(m, cr3, v)) {
      forall i: nat | i < 1024 && f + i * 4 != w ensures Entry(m2, f, i) == 0 {
        assert Entry(m1, f, i) == 0;
      }
    }
  }

  lemma InstallEntries(m: Mem, m1: Mem, cr3: nat, v: nat, f: nat)
    requires Tables(m, cr3) && Mappable(v) && FreshTable(m, cr3, f) && NewTable(m, m1, cr3, v, f)
    ensures forall i :: 0 <= i < 1024 && i != PdeIdx(v) ==> Entry(m1, cr3, i) == Entry(m, cr3, i)
    ensures Tables(m1, cr3)
  {
    forall i | 0 <= i < 1024 && i != PdeIdx(v) ensures Entry(m1, cr3, i) == Entry(m, cr3, i) {
      WordOf(cr3, i);
    }
    Flags(f);
    hide Page, Offset, Present, PdeIdx, Rd, NewTable;
    assert Entry(m1, cr3, 1023) == Rd(m1, cr3 + 4092) && Entry(m, cr3, 1023) == Rd(m, cr3 + 4092);
  }

  lemma InstallTranslates(m: Mem, m1: Mem, cr3: nat, v: nat, f: nat, x: nat)
    requires Tables(m, cr3) && Mappable(v) && !Present(Pde(m, cr3, v)) && FreshTable(m, cr3, f) && NewTable(m, m1, cr3, v, f)
    requires Mappable(x)
    ensures Translate(m1, cr3, x) == Translate(m, cr3, x)
  {
    hide Page, Offset, Present, PdeIdx, PteIdx;
    InstallEntries(m, m1, cr3, v, f);
    var i, t, j := PdeIdx(x), Table(m, cr3, x), PteIdx(x);
    Ranges(x, Pde(m, cr3, x));
    Ranges(v, 0);
    WordOf(t, j);
    WordOf(cr3, PdeIdx(v));
    Flags(f);
    assert Pde(m, cr3, x) == Entry(m, cr3, i) && Pde(m1, cr3, x) == Entry(m1, cr3, i);
    if i == PdeIdx(v) {
      assert Pte(m1, cr3, x) == Entry(m1, f, j);
    } else if Present(Entry(m, cr3, i)) {
      assert Pte(m1, cr3, x) == Pte(m, cr3, x);
    }
  }

  lemma InstallTable(m: Mem, m1: Mem, cr3: nat, v: nat, f: nat)
    requires Tables(m, cr3) && Mappable(v) && !Present(Pde(m, cr3, v)) && FreshTable(m, cr3, f) && NewTable(m, m1, cr3, v, f)
    ensures Tables(m1, cr3) && Present(Pde(m1, cr3, v)) && Pte(m1, cr3, v) == 0 && Pde(m1, cr3, v) == f + 7
    ensures forall x :: Mappable(x) && PdeIdx(x) != PdeIdx(v) ==> Pde(m1, cr3, x) == Pde(m, cr3, x)
    ensures forall x :: Mappable(x) ==> Translate(m1, cr3, x) == Translate(m, cr3, x)
  {
    hide Page, Offset, Present, PdeIdx, PteIdx, Translate, Tables;
    InstallEntries(m, m1, cr3, v, f);
    Ranges(v, 0);
    Flags(f);
    assert Pde(m1, cr3, v) == Entry(m1, cr3, PdeIdx(v));
    assert Table(m1, cr3, v) == f && Pte(m1, cr3, v) == Entry(m1, f, PteIdx(v));
    forall x | Mappable(x) ensures Translate(m1, cr3, x) == Translate(m, cr3, x) {
      InstallTranslates(m, m1, cr3, v, f, x);
    }
    forall x: nat | Mappable(x) && PdeIdx(x) != PdeIdx(v) ensures Pde(m1, cr3, x) == Pde(m, cr3, x) {
      Ranges(x, 0);
      assert Pde(m1, cr3, x) == Entry(m1, cr3, PdeIdx(x)) && Pde(m, cr3, x) == Entry(m, cr3, PdeIdx(x));
    }
  }

  lemma Aligned(v: nat)
    requires Offset(v) == 0
    ensures Page(v) == v
  {
  }

  lemma OwnPageShares(m: Mem, cr3: nat, x: nat, v: nat)
    requires Present(Pde(m, cr3, v)) && Page(x) == Page(v)
    ensures Shares(m, cr3, x, v)
  {
    hide Page, Present;
    SameIndices(x, v);
  }

  /** The page tables of one address space, reached only through the self map. */
  class Mmu {
    var mem: Mem
    const cr3: nat

    constructor (mem: Mem, cr3: nat)
      ensures this.mem == mem && this.cr3 == cr3
    {
      this.mem, this.cr3 := mem, cr3;
    }

    /** `*p` and `*p = e` for a virtual address that is mapped. */
    method Load(p: nat) returns (e: nat)
      requires Translate(mem, cr3, p).Some?
      ensures e == Rd(mem, Translate(mem, cr3, p).value)
    {
      e := Rd(mem, Translate(mem, cr3, p).value);
    }

    method Store(p: nat, e: nat)
      requires Translate(mem, cr3, p).Some?
      modifies this`mem
      ensures mem == old(mem)[Translate(old(mem), cr3, p).value := e]
    {
      mem := mem[Translate(mem, cr3, p).value := e];
    }

    /** `*pte = e` for v's own entry: exactly the pages that share it are affected. */
    method StorePte(v: nat, e: nat)
      requires Tables(mem, cr3) && Mappable(v) && Offset(v) == 0 && Present(Pde(mem, cr3, v))
      modifies this`mem
      ensures Tables(mem, cr3) && mem == old(mem)[PteWord(old(mem), cr3, v) := e]
      ensures Pte(mem, cr3, v) == e && PteWord(mem, cr3, v) == PteWord(old(mem), cr3, v)
      ensures forall x :: Mappable(x) ==> Pde(mem, cr3, x) == Pde(old(mem), cr3, x)
      ensures forall x :: Mappable(x) ==>
                Translate(mem, cr3, x) == if !Shares(mem, cr3, x, v) then Translate(old(mem), cr3, x)
                                          else if Present(e) then Some(Page(e) + Offset(x)) else None
    {
      PtePtrReachesPte(mem, cr3, v);
      Store(PtePtr(v), e);
      WriteKeepsTables(old(mem), cr3, v, e);
      forall x | Mappable(x)
        ensures Pde(mem, cr3, x) == Pde(old(mem), cr3, x)
        ensures Translate(mem, cr3, x) == if !Shares(mem, cr3, x, v) then Translate(old(mem), cr3, x)
                                          else if Present(e) then Some(Page(e) + Offset(x)) else None
      {
        WriteEntry(old(mem), cr3, v, e, x);
      }
    }

    /** `*pte` for v. */
    method LoadPte(v: nat) returns (e: nat)
      requires SelfMapped(mem, cr3) && IsWord(v) && Present(Pde(mem, cr3, v))
      ensures e == Pte(mem, cr3, v)
    {
      PtePtrReachesPte(mem, cr3, v);
      e := Load(PtePtr(v));
    }

    /** page_table_add; `f` is the page palloc hands out if a new table is needed. */
    method PageTableAdd(v: nat, p: nat, f: nat) returns (halt: Halt)
      requires Tables(mem, cr3) && Mappable(v) && Offset(v) == 0 && Offset(p) == 0
      requires !Present(Pde(mem, cr3, v)) ==> FreshTable(mem, cr3, f)
      modifies this`mem
      ensures halt == if Translate(old(mem), cr3, v).Some? then Stopped("kernel/memory.c", 130) else Live
      ensures halt == Live ==> Tables(mem, cr3) && Present(Pde(mem, cr3, v))
      ensures halt == Live ==> forall x :: Mappable(x) && PdeIdx(x) != PdeIdx(v) ==> Pde(mem, cr3, x) == Pde(old(mem), cr3, x)
      ensures halt == Live ==>
                Pde(mem, cr3, v) == if Present(Pde(old(mem), cr3, v)) then Pde(old(mem), cr3, v) else f + 7
      ensures halt == Live ==> Pte(mem, cr3, v) == p + 7 && OnlyEntries(old(mem), mem, cr3, v, f)
      ensures halt == Live ==> forall x :: Mappable(x) && Page(x) == v ==> Translate(mem, cr3, x) == Some(p + Offset(x))
      ensures halt == Live ==> forall x :: Mappable(x) ==>
                Translate(mem, cr3, x) == if Shares(mem, cr3, x, v) then Some(p + Offset(x)) else Translate(old(mem), cr3, x)
    {
      hide Page, Offset, Present, PdeIdx, PteIdx, PtePtr, PdePtr, FreshTable, NewTable, PteWord, Rd, Shares;
      Flags(p);
      PdePtrReachesPde(mem, cr3, v);
      var pde := Load(PdePtr(v));
      if Present(pde) {
        var pte := LoadPte(v);
        if Present(pte) {
          return Stopped("kernel/memory.c", 130);
        }
      } else {
        Store(PdePtr(v), f + 7);
        ZeroTable(v, f, old(mem));
        InstallTable(old(mem), mem, cr3, v, f);
        var pte := LoadPte(v);
        assert !Present(pte);  // ASSERT, line 147
      }
      ghost var m1 := mem;
      StorePte(v, p + 7);
      EntriesOnly(old(mem), m1, mem, cr3, v, f, p + 7);
      Aligned(v);
      forall x | Mappable(x) && Page(x) == v ensures Shares(mem, cr3, x, v) { OwnPageShares(mem, cr3, x, v); }
      halt := Live;
    }

    /** page_table_pte_remove: undoes page_table_add. */
    method PageTableRemove(v: nat)
      requires Tables(mem, cr3) && Mappable(v) && Offset(v) == 0 && Present(Pde(mem, cr3, v))
      modifies this`mem
      ensures Tables(mem, cr3) && forall x :: Mappable(x) ==> Pde(mem, cr3, x) == Pde(old(mem), cr3, x)
      ensures mem == old(mem)[PteWord(old(mem), cr3, v) := Absent(Pte(old(mem), cr3, v))]
      ensures forall x :: Mappable(x) ==>
                Translate(mem, cr3, x) == if Shares(mem, cr3, x, v) then None else Translate(old(mem), cr3, x)
    {
      hide Page, Offset, Present, PdeIdx, PteIdx, Translate, Pde, Rd, Shares;
      var pte := LoadPte(v);
      Flags(pte);
      StorePte(v, Absent(pte));
    }

    /** addr_v2p */
    method AddrV2p(v: nat) returns (p: nat)
      requires SelfMapped(mem, cr3) && IsWord(v) && Present(Pde(mem, cr3, v))
      ensures Translate(mem, cr3, v).Some? ==> p == Translate(mem, cr3, v).value
    {
      var pte := LoadPte(v);
      p := Page(pte) + Offset(v);
    }

    /** memset((void*)((int)pte & 0xfffff000), 0, PG_SIZE), word by word through the self map. */
    method ZeroTable(v: nat, f: nat, ghost m0: Mem)
      requires Tables(m0, cr3) && Mappable(v) && Offset(v) == 0 && FreshTable(m0, cr3, f)
      requires mem == m0[cr3 + PdeIdx(v) * 4 := f + 7]
      modifies this`mem
      ensures NewTable(m0, mem, cr3, v, f)
    {
      hide Page, Offset, Present, PdeIdx, PteIdx, PtePtr, Translate;
      var k := 0;
      ZeroStart(m0, cr3, v, f);
      while k < 1024
        invariant k <= 1024 && ZeroedUpTo(m0, mem, cr3, v, f, k)
      {
        TableSlot(v, k);
        SlotAddress(mem, cr3, PdeIdx(v) * 0x40_0000 + k * 4096, f, k);
        ZeroSlot(m0, mem, cr3, v, f, k);
        Store(Page(PtePtr(v)) + k * 4, 0);
        k := k + 1;
      }
    }
  }

  /** The new directory entry stands, the first k words of the new table are 0, the rest is as before. */
  ghost predicate ZeroedUpTo(m0: Mem, m: Mem, cr3: nat, v: nat, f: nat, k: nat) {
    && Entry(m, cr3, PdeIdx(v)) == f + 7 && SelfMapped(m, cr3)
    && (forall i: nat :: i < k ==> Entry(m, f, i) == 0)
    && (forall a: nat :: Page(a) != f && a != cr3 + PdeIdx(v) * 4 ==> Rd(m, a) == Rd(m0, a))
  }

  lemma ZeroStart(m0: Mem, cr3: nat, v: nat, f: nat)
    requires Tables(m0, cr3) && Mappable(v) && FreshTable(m0, cr3, f)
    ensures ZeroedUpTo(m0, m0[cr3 + PdeIdx(v) * 4 := f + 7], cr3, v, f, 0)
  {
  }

  lemma ZeroSlot(m0: Mem, m: Mem, cr3: nat, v: nat, f: nat, k: nat)
    requires ZeroedUpTo(m0, m, cr3, v, f, k) && Offset(cr3) == 0 && Mappable(v) && Offset(f) == 0 && f != cr3 && k < 1024
    ensures ZeroedUpTo(m0, m[f + k * 4 := 0], cr3, v, f, k + 1)
  {
    WordOf(f, k);
    WordOf(cr3, PdeIdx(v));
    WordOf(cr3, 1023);
    var m1, a := m[f + k * 4 := 0], f + k * 4;
    assert forall x: nat :: x != a ==> Rd(m1, x) == Rd(m, x);
    assert Rd(m1, a) == 0;
    assert Entry(m1, cr3, PdeIdx(v)) == f + 7;
    assert SelfMapped(m1, cr3);
    hide PdeIdx;
    forall i: nat | i < k + 1 ensures Entry(m1, f, i) == 0 {
      assert i < k ==> Entry(m, f, i) == 0;
    }
  }

  lemma SlotAddress(m: Mem, cr3: nat, u: nat, f: nat, k: nat)
    requires SelfMapped(m, cr3) && IsWord(u) && PteIdx(u) == k && Entry(m, cr3, PdeIdx(u)) == f + 7 && Offset(f) == 0
    ensures Translate(m, cr3, PtePtr(u)) == Some(f + k * 4)
  {
    Flags(f);
    assert Pde(m, cr3, u) == Entry(m, cr3, PdeIdx(u));
    PtePtrReachesPte(m, cr3, u);
  }

  /** Word k of the window page of v's table is pte_ptr of the k-th page of v's 4 MB. */
  lemma TableSlot(v: nat, k: nat)
    requires Mappable(v) && k < 1024
    ensures var u := PdeIdx(v) * 0x40_0000 + k * 4096;
            IsWord(u) && PdeIdx(u) == PdeIdx(v) && PteIdx(u) == k && PtePtr(u) == Page(PtePtr(v)) + k * 4
  {
  }
}
