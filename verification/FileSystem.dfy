/** Operations that span several inodes: inode_release (fs/inode.c), dir_is_empty and dir_remove
    (fs/dir.c), and the part of sys_mkdir (fs/fs.c) that follows the path search. */
module FileSystem {
  import opened Basics
  import opened Bitmap
  import opened Entries
  import opened Sectors
  import opened Volume
  import opened DirModel
  import opened FileWrite
  import opened Directory

  // ------------------------------------------------------------------ inode_release

  ghost predicate Cleared(v: Vol, bits: seq<bool>, gone: set<nat>) {
    |bits| == |v.bits| && forall j :: 0 <= j < |bits| ==> (bits[j] <==> v.bits[j] && v.start + j !in gone)
  }

  /** Inode a is gone, and exactly the bits of its blocks are clear. */
  ghost predicate Released(v: Vol, v1: Vol, a: nat) {
    a in v.inodes && Cleared(v, v1.bits, Owned(v, a)) && v1 == v.(bits := v1.bits, inodes := v.inodes - {a})
  }

  lemma ReleaseKeeps(v: Vol, v1: Vol, a: nat)
    requires OwnOk(v) && Released(v, v1, a)
    ensures OwnOk(v1) && Isolated(v, v1, a)
  {
    forall b | b in v1.inodes ensures forall k: nat :: k <= INDEX ==> Block(v1, b, k) == Block(v, b, k) {
      SameBlocks(v, v1, b);
    }
    hide Block;
    forall b, k: nat | b in v1.inodes && k <= INDEX && Block(v1, b, k) != 0 ensures InUse(v1, Block(v1, b, k)) {
      assert InUse(v, Block(v, b, k)) && Block(v, b, k) !in Owned(v, a);
    }
  }

  lemma ClearMore(v: Vol, bits: seq<bool>, gone: set<nat>, x: nat)
    requires Cleared(v, bits, gone) && InRange(v, x)
    ensures Cleared(v, bits[x - v.start := false], gone + {x})
  {
  }

  /** inode_release.  It stops exactly when the inode owns the root directory's block. */
  method InodeRelease(p: Partition, a: nat) returns (halt: Halt)
    requires OwnOk(p.View()) && a in p.inodes
    modifies p`inodes, p.bmap.bits
    ensures halt == Live <==> p.start !in Owned(old(p.View()), a)
    ensures halt == Live ==> Released(old(p.View()), p.View(), a) && OwnOk(p.View()) && Isolated(old(p.View()), p.View(), a)
  {
    hide Block, Cleared, OwnOk, Isolated;
    ghost var v := p.View();
    var all := AllBlocks(p, a);
    var index := p.inodes[a].sectors[12];
    OwnedIs(v, a, all, index);
    ghost var gone: set<nat> := {};
    assert Cleared(v, p.bmap.Bits(), gone) by { NoneCleared(v); }
    if index != 0 {
      if index == p.start {
        return Stopped("fs/inode.c", 201);
      }
      OwnedInRange(v, a, index);
      ClearMore(v, p.bmap.Bits(), gone, index);
      p.bmap.Set(index - p.start, false);
      gone := gone + {index};
    }
    var k := 0;
    while k < BLOCKS
      invariant k <= BLOCKS && p.inodes == v.inodes && Cleared(v, p.bmap.Bits(), gone) && p.start !in gone
      invariant gone == Chosen(all, k) + (if index == 0 then {} else {index})
    {
      if all[k] != 0 {
        if all[k] == p.start {
          assert all[k] in Chosen(all, BLOCKS);
          return Stopped("fs/inode.c", 212);
        }
        assert all[k] in Chosen(all, BLOCKS);
        OwnedInRange(v, a, all[k]);
        ClearMore(v, p.bmap.Bits(), gone, all[k]);
        p.bmap.Set(all[k] - p.start, false);
        gone := gone + {all[k]};
      }
      k := k + 1;
    }
    p.inodes := p.inodes - {a};
    ReleaseKeeps(v, p.View(), a);
    halt := Live;
  }

  ghost function Chosen(all: seq<nat>, n: nat): set<nat>
    requires n <= |all|
  {
    set k: nat | k < n && all[k] != 0 :: all[k]
  }

  lemma OwnedIs(v: Vol, a: nat, all: seq<nat>, index: nat)
    requires a in v.inodes && |all| == BLOCKS && index == v.inodes[a].sectors[12]
    requires forall k: nat :: k < BLOCKS ==> all[k] == Block(v, a, k)
    ensures Owned(v, a) == Chosen(all, BLOCKS) + (if index == 0 then {} else {index})
  {
    assert Block(v, a, INDEX) == index;
    hide Block;
    forall x ensures x in Owned(v, a) <==> x in Chosen(all, BLOCKS) + (if index == 0 then {} else {index}) {
      if x in Chosen(all, BLOCKS) {
        var k: nat :| k < BLOCKS && all[k] != 0 && all[k] == x;
        assert Block(v, a, k) == x;
      }
    }
  }

  lemma OwnedInRange(v: Vol, a: nat, x: nat)
    requires OwnOk(v) && a in v.inodes && x in Owned(v, a)
    ensures InRange(v, x)
  {
  }

  lemma NoneCleared(v: Vol)
    ensures Cleared(v, v.bits, {})
  {
  }

  // ------------------------------------------------------------ emptiness and removal

  /** dir_is_empty compares i_size with two entries: exact, and then only block 0 is left. */
  lemma EmptyExact(v: Vol, a: nat)
    requires DirOk(v, a)
    ensures v.inodes[a].size == 2 * ENTRY <==> forall e :: e in Listing(v, a) ==> Dot(e)
    ensures v.inodes[a].size == 2 * ENTRY ==> forall k :: 1 <= k < 13 ==> v.inodes[a].sectors[k] == 0
  {
    hide From, Entered, Here, DotsOk, CleanOk;
    var l := Listing(v, a);
    if |l| > 2 {
      assert l[2] in l && Proper(l[2].name);
    }
    assert Block(v, a, INDEX) == v.inodes[a].sectors[12];
    forall k: nat | 1 <= k <= DIRECT && |l| == 2 ensures Block(v, a, k) == 0 {
      DotsFirst(v, a, k);
      ListingSplit(v, a, k);
    }
    forall k: nat | k < DIRECT ensures Block(v, a, k) == v.inodes[a].sectors[k] {}
  }

  /** Another inode's operation leaves a directory as it is. */
  lemma DirStays(v: Vol, v1: Vol, a: nat, b: nat)
    requires Isolated(v, v1, a) && b != a && DirOk(v, b)
    ensures DirOk(v1, b) && Listing(v1, b) == Listing(v, b)
  {
    hide Block, Entered, ListOk, SlotsOf;
    forall k: nat | k < BLOCKS ensures Here(v1, b, k) == Here(v, b, k) {}
    FromSame(v, v1, b, 0);
    hide Isolated, From;
  }

  /** What a completed dir_remove does: the parent's entry for the child goes, if there is one,
      and then the child itself.  The two may be the same directory. */
  ghost predicate Removed(v: Vol, v1: Vol, parent: nat, child: nat) {
    exists mid :: (Deleted(v, mid, parent, child) || mid == v) && Released(mid, v1, child)
  }

  /** Some entry after the dots has the number. */
  ghost predicate Lists(v: Vol, a: nat, ino: nat)
    requires a in v.inodes
  {
    exists i :: 2 <= i < |Listing(v, a)| && Listing(v, a)[i].ino == ino
  }

  /** The parent's listing after dir_remove. */
  ghost predicate EntryGone(v: Vol, v1: Vol, parent: nat, c: nat) {
    && parent in v.inodes && parent in v1.inodes
    && var l, l1 := Listing(v, parent), Listing(v1, parent);
       if Lists(v, parent, c) then exists q: nat, e: Entry :: q >= 2 && e.ino == c && InsertedAt(l1, l, q, e) else l1 == l
  }

  /** All inodes but a and c, their blocks and every byte in them, are as before. */
  ghost predicate IsolatedTwo(v: Vol, v1: Vol, a: nat, c: nat) {
    exists mid :: Isolated(v, mid, a) && Isolated(mid, v1, c)
  }

  /** dir_remove.  It stops exactly when the child has another sector than its first or that is the
      root directory's, and hangs exactly when delete_dir_entry does. */
  method DirRemove(p: Partition, parent: nat, child: nat) returns (ok: bool, halt: Halt)
    requires OwnOk(p.View()) && DirOk(p.View(), parent) && DirOk(p.View(), child)
    modifies p`disk, p`inodes, p.bmap.bits
    ensures halt == Live <==>
            old((forall k :: 1 <= k < 13 ==> p.inodes[child].sectors[k] == 0) && !AloneBehind(p.View(), parent, child) && p.start !in Owned(p.View(), child))
    ensures halt == Live ==> Removed(old(p.View()), p.View(), parent, child) && (ok <==> old(Lists(p.View(), parent, child)))
    ensures halt == Live ==> OwnOk(p.View()) && IsolatedTwo(old(p.View()), p.View(), parent, child) && p.inodes.Keys == old(p.inodes.Keys) - {child}
    ensures halt == Live && parent != child ==> DirOk(p.View(), parent) && EntryGone(old(p.View()), p.View(), parent, child)
  {
    hide OwnOk, Isolated, Listing, Owned, DirOk, Block, Deleted, Released, AloneBehind;
    ghost var v := p.View();
    DirHasInode(v, child);
    DirHasInode(v, parent);
    var k := 1;
    while k < 13
      invariant 1 <= k <= 13 && forall j :: 1 <= j < k ==> p.inodes[child].sectors[j] == 0
    {
      if p.inodes[child].sectors[k] != 0 {
        return false, Stopped("fs/dir.c", 393);
      }
      k := k + 1;
    }
    ok, halt := DeleteDirEntry(p, parent, child);
    if halt != Live {
      return;
    }
    ghost var v1 := p.View();
    IsolatedSelf(v, parent);
    if ok {
      DeletedOwn(v, v1, parent, child);
      OwnedStays(v, v1, parent, child);
    }
    halt := InodeRelease(p, child);
    if halt == Live {
      ReleasedKeys(v1, p.View(), child);
      if parent != child { DirStays(v1, p.View(), child, parent); }
    }
  }

  lemma ReleasedKeys(v: Vol, v1: Vol, a: nat)
    requires Released(v, v1, a)
    ensures v1.inodes.Keys == v.inodes.Keys - {a}
  {
  }

  lemma DirHasInode(v: Vol, a: nat)
    requires DirOk(v, a)
    ensures a in v.inodes
  {
  }

  /** The blocks of a directory of one block do not change when it loses an entry, and another's
      do not in any case. */
  lemma OwnedStays(v: Vol, v1: Vol, a: nat, b: nat)
    requires OwnOk(v) && DirOk(v, a) && Deleted(v, v1, a, b) && Isolated(v, v1, a) && b in v.inodes && b in v1.inodes
    requires forall k :: 1 <= k < 13 ==> v.inodes[b].sectors[k] == 0
    ensures Owned(v1, b) == Owned(v, b)
  {
    hide Block, DirOk, OwnOk, Here, Others, Patch;
    if a == b {
      var k: nat, i: nat :| DeletedAt(v, v1, a, k, i, b);
      OneBlockOnly(v, a, k, i);
      SlotPut(v, a, 0, i, Zeros(ENTRY), v.inodes[a].size - ENTRY);
    }
  }

  lemma OneBlockOnly(v: Vol, a: nat, k: nat, i: nat)
    requires DirOk(v, a) && k < BLOCKS && i < |Here(v, a, k)| && forall k :: 1 <= k < 13 ==> v.inodes[a].sectors[k] == 0
    ensures k == 0 && Block(v, a, 0) != 0 && !Alone(Here(v, a, 0))
  {
    hide Listing, CleanOk, ListOk, SlotsOf, Others;
    FirstHasDot(v, a);
  }

  /** Deleting the entry just inserted gives the listing and the size back, whatever blocks were
      allocated or freed on the way. */
  lemma DeleteUndoesInsert(v: Vol, v1: Vol, v2: Vol, a: nat, e: Entry, f: Entry)
    requires Added(v, v1, a, e) && DirOk(v1, a) && Taken(v1, v2, a, f) && e.ino == f.ino
    ensures Listing(v2, a) == Listing(v, a) && v2.inodes[a].size == v.inodes[a].size
  {
    hide Listing, Isolated, OwnOk, Block;
    var p :| p >= 2 && InsertedAt(Listing(v, a), Listing(v1, a), p, e);
    var q :| q >= 2 && InsertedAt(Listing(v2, a), Listing(v1, a), q, f);
    RemoveUndoesInsert(Listing(v, a), Listing(v1, a), Listing(v2, a), p, q, e, f, a);
  }

  // ---------------------------------------------------------------------- sys_mkdir

  /** What inode_init makes. */
  function Blank(): Inode { Inode(0, seq(13, _ => 0)) }

  function WithNew(v: Vol, n: nat): Vol { v.(inodes := v.inodes[n := Blank()]) }

  /** inode_init for a number that is not in use. */
  lemma NewInode(v: Vol, n: nat)
    requires OwnOk(v) && n !in v.inodes
    ensures var v1 := WithNew(v, n);
            OwnOk(v1) && Isolated(v, v1, n) && forall k: nat :: k <= INDEX ==> Block(v1, n, k) == 0
  {
    var v1 := WithNew(v, n);
    forall b | b in v.inodes ensures forall k: nat :: k <= INDEX ==> Block(v1, b, k) == Block(v, b, k) {
      SameBlocks(v, v1, b);
    }
    forall k: nat | k <= INDEX ensures Block(v1, n, k) == 0 {}
    hide Block;
  }

  lemma DotsSlots(n: nat, parent: nat)
    requires n < U32 && parent < U32
    ensures var l, dots := SlotsOf(DotsBlock(n, parent)), [Entry(".", n, Directory), Entry("..", parent, Directory)];
            l == dots + seq(PER_SECTOR - 2, _ => EMPTY) && Entered(l) == dots
  {
    var e, f := Entry(".", n, Directory), Entry("..", parent, Directory);
    hide SlotsOf, EntryBytes, EntryOf, Patch, Entered;
    ZeroSlots();
    EntryRoundTrip(e);
    EntryRoundTrip(f);
    assert ENTRY * 0 == 0 && ENTRY * 1 == ENTRY;
    PatchSlot(Zeros(SECTOR), 0, EntryBytes(e));
    PatchSlot(Patch(Zeros(SECTOR), 0, EntryBytes(e)), 1, EntryBytes(f));
    var l, rest := SlotsOf(DotsBlock(n, parent)), seq(PER_SECTOR - 2, _ => EMPTY);
    assert l == [e, f] + rest;
    LiveAppend([e, f], rest);
    NoneLive(rest);
    assert [e, f] == [e] + [f];
    LiveAppend([e], [f]);
    LiveOne(e);
    LiveOne(f);
  }

  /** A directory whose only block is DotsBlock. */
  lemma NewDirOk(v: Vol, n: nat, parent: nat)
    requires n in v.inodes && n < U32 && parent < U32 && v.inodes[n].size == 2 * ENTRY
    requires Block(v, n, 0) != 0 && Read(v.disk, Block(v, n, 0)) == DotsBlock(n, parent)
    requires forall k: nat :: 0 < k <= INDEX ==> Block(v, n, k) == 0
    ensures DirOk(v, n) && Listing(v, n) == [Entry(".", n, Directory), Entry("..", parent, Directory)]
  {
    hide Block, SlotsOf, Entered, From, DotsBlock;
    DotsSlots(n, parent);
    NoneFrom(v, n, 1);
    ListingSplit(v, n, 0);
    UptoNone(v, n);
    NoneLive([]);
  }

  /** What the first half of sys_mkdir does: an inode with one block, which holds the dots. */
  ghost predicate NewDir(v: Vol, v1: Vol, n: nat, parent: nat) {
    && n !in v.inodes && n < U32 && parent < U32
    && exists v0, got :: DirPut(WithNew(v, n), v0, v1, got, n, parent)
  }

  ghost predicate DirPut(v: Vol, v0: Vol, v1: Vol, got: seq<nat>, n: nat, parent: nat)
    requires n < U32 && parent < U32
  {
    && Placed(v, v0, n, got, 0, 1, 0, false) && n in v0.inodes
    && v1 == WithSize(WithSector(v0, Block(v0, n, 0), DotsBlock(n, parent)), n, 2 * ENTRY)
  }

  /** The new directory is in order, holds the dots and touches nothing else. */
  lemma NewDirKeeps(v: Vol, v1: Vol, n: nat, parent: nat)
    requires OwnOk(v) && NewDir(v, v1, n, parent)
    ensures OwnOk(v1) && Isolated(v, v1, n) && v1.inodes.Keys == v.inodes.Keys + {n}
    ensures DirOk(v1, n) && Listing(v1, n) == [Entry(".", n, Directory), Entry("..", parent, Directory)]
  {
    hide OwnOk, Isolated, Listing, DirOk, Block, Placed, DotsBlock;
    var v' := WithNew(v, n);
    var v0, got :| DirPut(v', v0, v1, got, n, parent);
    NewInode(v, n);
    NewDirPlaced(v', v0, v1, n, got, DotsBlock(n, parent));
    IsolatedTrans(v, v', v1, n);
    NewDirOk(v1, n, parent);
  }

  /** All that the part of sys_mkdir after the path search does to the blocks. */
  ghost predicate MadeDir(v: Vol, v1: Vol, parent: nat, n: nat, name: string) {
    exists mid :: NewDir(v, mid, n, parent) && Inserted(mid, v1, parent, Entry(name, n, Directory))
  }

  /** The parent gains exactly the new entry, the new directory holds exactly the dots, nothing
      else changes. */
  lemma MadeDirKeeps(v: Vol, v1: Vol, parent: nat, n: nat, name: string)
    requires OwnOk(v) && DirOk(v, parent) && CanAdd(v, parent, Entry(name, n, Directory)) && Roomy(v, parent) && MadeDir(v, v1, parent, n, name)
    ensures OwnOk(v1) && v1.inodes.Keys == v.inodes.Keys + {n} && IsolatedTwo(v, v1, n, parent)
    ensures DirOk(v1, n) && Listing(v1, n) == [Entry(".", n, Directory), Entry("..", parent, Directory)]
    ensures DirOk(v1, parent) && exists q :: q >= 2 && InsertedAt(Listing(v, parent), Listing(v1, parent), q, Entry(name, n, Directory))
  {
    hide OwnOk, Isolated, Listing, DirOk, NewDir, Inserted, Roomy, Proper, InsertedAt, Fits;
    DirHasInode(v, parent);
    var mid :| NewDir(v, mid, n, parent) && Inserted(mid, v1, parent, Entry(name, n, Directory));
    FreshNumber(v, mid, n, parent);
    NewDirKeeps(v, mid, n, parent);
    DirStays(v, mid, n, parent);
    RoomStays(v, mid, n, parent);
    InsertedKeeps(mid, v1, parent, Entry(name, n, Directory));
    DirStays(mid, v1, parent, n);
  }

  lemma FreshNumber(v: Vol, v1: Vol, n: nat, parent: nat)
    requires NewDir(v, v1, n, parent)
    ensures n !in v.inodes
  {
  }

  /** sys_mkdir once the path search has found the parent and not the name, on blocks and inodes;
      `n` is the number that inode_bitmap_alloc has returned. */
  method Mkdir(p: Partition, parent: nat, n: nat, name: string) returns (halt: Halt)
    requires OwnOk(p.View()) && DirOk(p.View(), parent) && n !in p.inodes && parent < U32
    requires Writable(Entry(name, n, Directory))
    modifies p`disk, p`inodes, p.bmap.bits
    ensures halt != Live ==> p.NoSpace(halt) || (halt == Stopped("fs/fs.c", 605) && !InUse(old(p.View()), p.start))
    ensures halt == Live ==> MadeDir(old(p.View()), p.View(), parent, n, name) && OwnOk(p.View())
  {
    hide OwnOk, Isolated, DirOk, Listing, Full, NewDir, Inserted, InUse;
    ghost var v := p.View();
    DirShape(v, parent);
    halt := NewDirectory(p, parent, n);
    if halt != Live {
      return;
    }
    ghost var v1 := p.View();
    NewDirKeeps(v, v1, n, parent);
    DirStays(v, v1, n, parent);
    DirShape(v1, parent);
    halt := SyncDirEntry(p, parent, Entry(name, n, Directory));
  }

  /** The new directory's inode and first block. */
  method NewDirectory(p: Partition, parent: nat, n: nat) returns (halt: Halt)
    requires OwnOk(p.View()) && n !in p.inodes && n < U32 && parent < U32
    modifies p`disk, p`inodes, p.bmap.bits
    ensures halt != Live ==> p.NoSpace(halt) || (halt == Stopped("fs/fs.c", 605) && !InUse(old(p.View()), p.start))
    ensures halt == Live ==> NewDir(old(p.View()), p.View(), n, parent) && OwnOk(p.View())
  {
    hide OwnOk, Isolated, Block, Placed, Took, Full, DotsBlock;
    ghost var v := p.View();
    p.inodes := p.inodes[n := Blank()];
    ghost var v0 := p.View();
    ghost var got: seq<nat>;
    halt, got := AddDirect(p, n, 0);
    if halt != Live {
      return;
    }
    ghost var v1 := p.View();
    var all := AllBlocks(p, n);
    FirstWasFree(v0, v1, n, got);
    if all[0] == p.start {
      return Stopped("fs/fs.c", 605);
    }
    p.disk := p.disk[all[0] := DotsBlock(n, parent)];
    p.inodes := p.inodes[n := p.inodes[n].(size := 2 * ENTRY)];
    assert DirPut(WithNew(v, n), v1, p.View(), got, n, parent);
    NewDirKeeps(v, p.View(), n, parent);
  }

  lemma FirstWasFree(v: Vol, v1: Vol, n: nat, got: seq<nat>)
    requires Placed(v, v1, n, got, 0, 1, 0, false)
    ensures !InUse(v, Block(v1, n, 0))
  {
  }

  lemma NewDirPlaced(v: Vol, v0: Vol, v1: Vol, n: nat, got: seq<nat>, s: Sector)
    requires OwnOk(v) && n in v.inodes && (forall k: nat :: k <= INDEX ==> Block(v, n, k) == 0)
    requires Placed(v, v0, n, got, 0, 1, 0, false) && v1 == WithSize(WithSector(v0, Block(v0, n, 0), s), n, 2 * ENTRY)
    ensures OwnOk(v1) && Isolated(v, v1, n) && Block(v1, n, 0) != 0 && Read(v1.disk, Block(v1, n, 0)) == s
    ensures v1.inodes.Keys == v.inodes.Keys && forall k: nat :: 0 < k <= INDEX ==> Block(v1, n, k) == 0
  {
    hide Block;
    PlacedKeeps(v, v0, n, got, 0, 1, 0, false);
    PlacedIsolated(v, v0, n, got, 0, 1, 0, false);
    assert got[0] in got;
    var vw := WithSector(v0, Block(v0, n, 0), s);
    DataKeeps(v0, n, 0, s);
    SizeKeeps(vw, n, 2 * ENTRY);
    IsolatedTrans(v, v0, vw, n);
    IsolatedTrans(v, vw, v1, n);
  }

  lemma RoomStays(v: Vol, v1: Vol, a: nat, b: nat)
    requires Isolated(v, v1, a) && b != a && b in v.inodes
    ensures b in v1.inodes && (Roomy(v1, b) <==> Roomy(v, b))
  {
  }
}
