/** Regular files on a mounted partition: file_create (fs/file.c) and sys_unlink (fs/fs.c) with block
    bitmap, directory, inode bitmap and inode table.  inode_sync stores a file's inode in the slot of
    its number modulo 256, which may be a directory's. */
module MountFiles {
  import opened Basics
  import opened Bitmap
  import opened Entries
  import opened Sectors
  import opened Volume
  import opened DirModel
  import opened FileWrite
  import opened Directory
  import opened FileSystem
  import opened Layout
  import opened InodeTable
  import opened Paths
  import opened DirTree
  import opened Mount

  // ----------------------------------------------------------- whose slot is overwritten

  /** A directory below 256 that could be read can still be read after the inode_sync of another inode
      if and only if its number is not the other's modulo 256. */
  lemma SlotIff(v: Vol, v1: Vol, itable: map<nat, Sector>, itable1: map<nat, Sector>, table: nat, i: DiskInode, d: nat)
    requires Readable(v, itable, table, d) && d in v1.inodes && v1.inodes[d] == v.inodes[d] && d < 256 && d != i.no
    requires Storable(i) && Synced(itable, itable1, table, i)
    ensures Readable(v1, itable1, table, d) <==> d != i.no % 256
  {
    hide InodeOf, Synced, Storable;
    SyncStores(itable, itable1, table, i, d);
  }

  /** The volume with its directories as inode_open reads them from the table. */
  ghost function Reopened(v: Vol, itable: map<nat, Sector>, table: nat, dirs: set<nat>): Vol {
    v.(inodes := map a | a in v.inodes ::
         if a in dirs then var i := InodeOf(InodeTable.Stored(itable, table, a)); Inode(i.size, i.sectors) else v.inodes[a])
  }

  lemma ReopenedSame(v: Vol, itable: map<nat, Sector>, table: nat, dirs: set<nat>, d: nat)
    requires d in dirs && Readable(v, itable, table, d)
    ensures var v1 := Reopened(v, itable, table, dirs); d in v1.inodes && Listing(v1, d) == Listing(v, d)
  {
    hide InodeOf, SlotsOf;
    var v1 := Reopened(v, itable, table, dirs);
    assert SameIndex(v, v1, d);
    SameBlocks(v, v1, d);
    hide Block, Entered;
    FromSame(v, v1, d, 0);
  }

  lemma ReopenedEmpty(v: Vol, itable: map<nat, Sector>, table: nat, dirs: set<nat>, d: nat)
    requires d in dirs && d in v.inodes && InodeOf(InodeTable.Stored(itable, table, d)).sectors == seq(13, _ => 0)
    ensures var v1 := Reopened(v, itable, table, dirs); d in v1.inodes && Listing(v1, d) == []
  {
    hide InodeOf, SlotsOf;
    var v1 := Reopened(v, itable, table, dirs);
    forall k: nat | k < BLOCKS ensures Block(v1, d, k) == 0 {}
    NoneFrom(v1, d, 0);
    NoneLive([]);
  }

  // --------------------------------------------------------------------- file_create

  /** What file_create does to blocks and inodes. */
  ghost predicate FileMade(v: Vol, v1: Vol, parent: nat, n: nat, name: string) {
    n !in v.inodes && Inserted(WithNew(v, n), v1, parent, Entry(name, n, Regular))
  }

  lemma NewStays(v: Vol, parent: nat, n: nat, e: Entry)
    requires OwnOk(v) && DirModel.DirOk(v, parent) && n !in v.inodes
    ensures var v0 := WithNew(v, n);
            && OwnOk(v0) && DirModel.DirOk(v0, parent) && Listing(v0, parent) == Listing(v, parent) && Isolated(v, v0, n)
            && (CanAdd(v, parent, e) ==> CanAdd(v0, parent, e)) && (Roomy(v0, parent) <==> Roomy(v, parent))
  {
    hide OwnOk, DirModel.DirOk, Listing, Isolated, Roomy, Proper, Fits;
    DirHasInode(v, parent);
    NewInode(v, n);
    DirStays(v, WithNew(v, n), n, parent);
    RoomStays(v, WithNew(v, n), n, parent);
  }

  lemma FileMadeOwn(v: Vol, v1: Vol, parent: nat, n: nat, name: string)
    requires OwnOk(v) && DirModel.DirOk(v, parent) && FileMade(v, v1, parent, n, name)
    ensures OwnOk(v1) && v1.inodes.Keys == v.inodes.Keys + {n} && v1.inodes[n] == Blank() && v1.start == v.start
    ensures forall b :: b in v.inodes && b != parent ==> v1.inodes[b] == v.inodes[b]
  {
    hide OwnOk, DirModel.DirOk, Isolated, Inserted;
    var e := Entry(name, n, Regular);
    DirHasInode(v, parent);
    NewStays(v, parent, n, e);
    InsertedOwn(WithNew(v, n), v1, parent, e);
    InsertedStart(WithNew(v, n), v1, parent, e);
    forall b | b in WithNew(v, n).inodes && b != parent ensures v1.inodes[b] == WithNew(v, n).inodes[b] {
      SameInode(WithNew(v, n), v1, parent, b);
    }
  }

  /** In a parent with room: one file more in the tree, and every directory in order. */
  lemma FileMadeKeeps(v: Vol, v1: Vol, dirs: set<nat>, parent: nat, n: nat, name: string)
    requires DirsOk(v, dirs) && parent in dirs && CanAdd(v, parent, Entry(name, n, Regular)) && Roomy(v, parent)
    requires FileMade(v, v1, parent, n, name) && NewName(TreeOf(v, dirs), parent, name) && forall e :: e in Listing(v, parent) ==> e.ino != n
    ensures DirsOk(v1, dirs) && Filed(TreeOf(v, dirs), TreeOf(v1, dirs), parent, n, name)
  {
    hide OwnOk, DirModel.DirOk, Isolated, Inserted, Listing, Roomy, CanAdd, NewName, Filed;
    var v0, e := WithNew(v, n), Entry(name, n, Regular);
    NewStays(v, parent, n, e);
    forall d | d in dirs ensures DirModel.DirOk(v0, d) && Listing(v0, d) == Listing(v, d) { DirStays(v, v0, n, d); }
    assert TreeOf(v0, dirs) == TreeOf(v, dirs);
    InsertIsFiled(v0, v1, dirs, parent, n, name);
    InsertedKeeps(v0, v1, parent, e);
    AddedIs(v0, v1, parent, e);
    forall d | d in dirs && d != parent ensures DirModel.DirOk(v1, d) { DirStays(v0, v1, parent, d); }
  }

  lemma AddedIs(v: Vol, v1: Vol, a: nat, e: Entry)
    requires Added(v, v1, a, e)
    ensures OwnOk(v1) && Isolated(v, v1, a) && v1.inodes.Keys == v.inodes.Keys
  {
  }

  lemma FileOrderIff(v: Vol, v1: Vol, parent: nat, n: nat, name: string)
    requires OwnOk(v) && DirModel.DirOk(v, parent) && CanAdd(v, parent, Entry(name, n, Regular)) && FileMade(v, v1, parent, n, name)
    ensures DirModel.DirOk(v1, parent) <==> Roomy(v, parent)
  {
    hide OwnOk, DirModel.DirOk, Isolated, Inserted, Listing, Roomy, CanAdd;
    NewStays(v, parent, n, Entry(name, n, Regular));
    InsertOrderIff(WithNew(v, n), v1, parent, Entry(name, n, Regular));
  }

  lemma FileNumbers(v: Vol, v1: Vol, ibits: seq<bool>, dirs: set<nat>, parent: nat, n: nat, name: string)
    requires dirs <= v.inodes.Keys && dirs <= v1.inodes.Keys && NumbersOk(v, ibits, dirs) && n < |ibits| && v1.inodes.Keys == v.inodes.Keys + {n}
    requires Filed(TreeOf(v, dirs), TreeOf(v1, dirs), parent, n, name)
    ensures NumbersOk(v1, ibits[n := true], dirs)
  {
    hide Listing, NewName;
    var t, t1 := TreeOf(v, dirs), TreeOf(v1, dirs);
    var p :| p >= 2 && InsertedAt(t[parent], t1[parent], p, Entry(name, n, Regular));
    forall d, e | d in dirs && e in Listing(v1, d) ensures e.ino < INODES && ibits[n := true][e.ino] {
      assert t1[d] == Listing(v1, d) && t[d] == Listing(v, d);
      if d == parent { assert e in t[d] || e == Entry(name, n, Regular); }
    }
  }

  lemma FileFirst(v: Vol, v1: Vol, parent: nat, n: nat, name: string)
    requires OwnOk(v) && DirModel.DirOk(v, parent) && RootsFirst(v) && FileMade(v, v1, parent, n, name)
    ensures RootsFirst(v1)
  {
    hide OwnOk, DirModel.DirOk, Isolated, Inserted, Block;
    var v0, e := WithNew(v, n), Entry(name, n, Regular);
    DirHasInode(v, parent);
    NewStays(v, parent, n, e);
    StartPositive(v);
    SameFirst(v, v0, n);
    InsertedOwn(v0, v1, parent, e);
    InsertedStart(v0, v1, parent, e);
    if parent == 0 { InsertedFirst(v0, v1, parent, e); } else { SameFirst(v0, v1, parent); }
  }

  lemma SameFirst(v: Vol, v1: Vol, a: nat)
    requires Isolated(v, v1, a) && a != 0 && 0 in v.inodes
    ensures 0 in v1.inodes && Block(v1, 0, 0) == Block(v, 0, 0)
  {
  }

  /** Blocks, tree, numbers and table after file_create in a parent with room. */
  lemma FileMounts(v: Vol, v1: Vol, ibits: seq<bool>, itable: map<nat, Sector>, it1: map<nat, Sector>, it2: map<nat, Sector>,
                   table: nat, dirs: set<nat>, depth: map<nat, nat>, parent: nat, n: nat, name: string)
    requires MountOk(v, ibits, itable, table, dirs, depth) && parent in dirs && n < |ibits| && !ibits[n] && forall k :: 0 <= k < n ==> ibits[k]
    requires NewEntryName(Listing(v, parent), name) && FileMade(v, v1, parent, n, name) && Roomy(v, parent)
    requires n in v1.inodes && parent in v1.inodes
    requires Synced(itable, it1, table, OnDisk(v1, parent)) && Synced(it1, it2, table, OnDisk(v1, n))
    ensures dirs <= v1.inodes.Keys && Filed(TreeOf(v, dirs), TreeOf(v1, dirs), parent, n, name)
    ensures InodeOf(InodeTable.Stored(it2, table, n % 256)) == OnDisk(v1, n) && v1.inodes[n] == Blank()
    ensures forall d :: d in dirs ==> (Readable(v1, it2, table, d) <==> d != n % 256)
    ensures n % 256 !in dirs ==> MountOk(v1, ibits[n := true], it2, table, dirs, depth)
  {
    hide OwnOk, DirModel.DirOk, WellFormed, Listing, FileMade, Roomy, Filed, NumbersOk, HighSlotsOk, FreeSlotsOk, SlotsOwn, OneLink, Storable, InodeOf, NewEntryName, Readable, Replaced, InodeBytes, Block, RootsFirst, CanAdd, NewName, InodeTable.Stored, Synced, TreeOf, Blank;
    FileNumberFree(v, ibits, dirs, depth, parent, n, name);
    FileMadeKeeps(v, v1, dirs, parent, n, name);
    FileMadeOwn(v, v1, parent, n, name);
    DirStorable(v1, parent);
    FileStorable(v1, n);
    HighSlotsStay(itable, it1, table, OnDisk(v1, parent));
    HighSlotsStay(it1, it2, table, OnDisk(v1, n));
    SyncStores(it1, it2, table, OnDisk(v1, n), parent);
    forall d | d in dirs ensures Readable(v1, it2, table, d) <==> d != n % 256 {
      FileReadable(v, v1, itable, it1, it2, table, parent, n, d);
    }
    if n % 256 !in dirs {
      FiledEdits(TreeOf(v, dirs), TreeOf(v1, dirs), depth, parent, n, name);
      EditedKeeps(TreeOf(v, dirs), TreeOf(v1, dirs), depth, parent);
      FileNumbers(v, v1, ibits, dirs, parent, n, name);
      FiledOneLink(TreeOf(v, dirs), TreeOf(v1, dirs), parent, n, name);
      FileFirst(v, v1, parent, n, name);
      MadeOwn(v, v1, ibits, itable, it1, it2, table, dirs, parent, n);
      FileSlots(v, v1, ibits, itable, it1, it2, table, dirs, parent, n);
    }
  }

  lemma FileNumberFree(v: Vol, ibits: seq<bool>, dirs: set<nat>, depth: map<nat, nat>, parent: nat, n: nat, name: string)
    requires dirs <= v.inodes.Keys && parent in dirs && NumbersOk(v, ibits, dirs) && WellFormed(TreeOf(v, dirs), depth)
    requires n < |ibits| && !ibits[n] && NewEntryName(Listing(v, parent), name)
    ensures n !in v.inodes && 0 < n < INODES && (forall e :: e in Listing(v, parent) ==> e.ino != n)
    ensures CanAdd(v, parent, Entry(name, n, Regular)) && NewName(TreeOf(v, dirs), parent, name)
    ensures forall d, e :: d in TreeOf(v, dirs) && e in TreeOf(v, dirs)[d] ==> e.ino != n
  {
    hide WellFormed, Listing;
    FreeNumber(v, ibits, dirs, depth, n);
    NewNameIs(v, dirs, parent, name);
    NameFits(v, parent, n, name);
  }

  lemma FileStorable(v: Vol, n: nat)
    requires n in v.inodes && n < INODES && v.inodes[n] == Blank()
    ensures Storable(OnDisk(v, n))
  {
  }

  lemma FileReadable(v: Vol, v1: Vol, itable: map<nat, Sector>, it1: map<nat, Sector>, it2: map<nat, Sector>,
                     table: nat, parent: nat, n: nat, d: nat)
    requires Readable(v, itable, table, d) && d < 256 && d != n && d in v1.inodes && n in v1.inodes && parent in v1.inodes && parent < 256
    requires (d != parent ==> v1.inodes[d] == v.inodes[d]) && Storable(OnDisk(v1, parent)) && Storable(OnDisk(v1, n))
    requires Synced(itable, it1, table, OnDisk(v1, parent)) && Synced(it1, it2, table, OnDisk(v1, n))
    ensures Readable(v1, it2, table, d) <==> d != n % 256
  {
    hide InodeOf, Synced, Storable;
    SyncReadable(v1, itable, it1, table, parent, d);
    assert Readable(v1, it1, table, d);
    SlotIff(v1, v1, it1, it2, table, OnDisk(v1, n), d);
  }

  /** First fit: the number modulo 256 is in use, so no free slot is written. */
  lemma FileSlots(v: Vol, v1: Vol, ibits: seq<bool>, itable: map<nat, Sector>, it1: map<nat, Sector>, it2: map<nat, Sector>,
                  table: nat, dirs: set<nat>, parent: nat, n: nat)
    requires dirs <= v.inodes.Keys && NumbersOk(v, ibits, dirs) && FreeSlotsOk(v, itable, table) && parent in v.inodes && parent < 256
    requires n < INODES && v1.inodes.Keys == v.inodes.Keys + {n} && forall k :: 0 <= k < n ==> ibits[k]
    requires Synced(itable, it1, table, OnDisk(v1, parent)) && Synced(it1, it2, table, OnDisk(v1, n))
    ensures FreeSlotsOk(v1, it2, table)
  {
    hide FreeSlotsOk, Replaced, InodeBytes, Listing;
    assert parent % 256 == parent;
    FreeSlotsStay(v, v1, itable, it1, table, parent, InodeBytes(OnDisk(v1, parent)));
    assert n % 256 in v1.inodes by { if n >= 256 { assert ibits[n % 256]; } }
    FreeSlotsStay(v1, v1, it1, it2, table, n % 256, InodeBytes(OnDisk(v1, n)));
  }

  /** All that file_create achieves.  What the table then holds is Linked of the tree. */
  lemma FileDone(v: Vol, v1: Vol, ibits: seq<bool>, itable: map<nat, Sector>, it1: map<nat, Sector>, it2: map<nat, Sector>,
                 table: nat, dirs: set<nat>, depth: map<nat, nat>, parent: nat, n: nat, name: string)
    requires MountOk(v, ibits, itable, table, dirs, depth) && parent in dirs && n < |ibits| && !ibits[n] && forall k :: 0 <= k < n ==> ibits[k]
    requires NewEntryName(Listing(v, parent), name) && FileMade(v, v1, parent, n, name) && n in v1.inodes && parent in v1.inodes
    requires Synced(itable, it1, table, OnDisk(v1, parent)) && Synced(it1, it2, table, OnDisk(v1, n))
    ensures MountOk(v1, ibits[n := true], it2, table, dirs, depth) <==> n % 256 !in dirs && Roomy(v, parent)
    ensures Roomy(v, parent) ==>
              && dirs <= v1.inodes.Keys && (forall d :: d in dirs ==> (Readable(v1, it2, table, d) <==> d != n % 256))
              && dirs <= Reopened(v1, it2, table, dirs).inodes.Keys
              && Linked(TreeOf(v, dirs), TreeOf(Reopened(v1, it2, table, dirs), dirs), parent, n, name)
  {
    hide OwnOk, DirModel.DirOk, WellFormed, Listing, FileMade, Roomy, Filed, NumbersOk, HighSlotsOk, FreeSlotsOk, SlotsOwn, OneLink, Synced, InodeOf, NewEntryName, Readable, RootsFirst, Reopened;
    FileNumberFree(v, ibits, dirs, depth, parent, n, name);
    FileOrderIff(v, v1, parent, n, name);
    if Roomy(v, parent) {
      FileMounts(v, v1, ibits, itable, it1, it2, table, dirs, depth, parent, n, name);
      assert forall d :: d in dirs ==> (Readable(v1, it2, table, d) <==> d != n % 256);
      TableTree(v1, it2, table, dirs, n);
    }
  }

  lemma TableTree(v: Vol, itable: map<nat, Sector>, table: nat, dirs: set<nat>, n: nat)
    requires dirs <= v.inodes.Keys && (forall d :: d in dirs ==> (Readable(v, itable, table, d) <==> d != n % 256)) && n in v.inodes
    requires InodeOf(InodeTable.Stored(itable, table, n % 256)) == OnDisk(v, n) && v.inodes[n] == Blank()
    ensures dirs <= Reopened(v, itable, table, dirs).inodes.Keys
    ensures TreeOf(Reopened(v, itable, table, dirs), dirs) == Overwritten(TreeOf(v, dirs), n, [])
  {
    hide InodeOf, Listing, Readable;
    var v1 := Reopened(v, itable, table, dirs);
    forall d | d in dirs ensures d in v1.inodes && Listing(v1, d) == if d == n % 256 then [] else Listing(v, d) {
      if d == n % 256 { ReopenedEmpty(v, itable, table, dirs, d); } else { ReopenedSame(v, itable, table, dirs, d); }
    }
  }

  lemma FirstIsFree(b: seq<bool>, n: nat)
    requires FirstFit(b, 1) == Some(n)
    ensures n < |b| && !b[n] && forall k :: 0 <= k < n ==> b[k]
  {
    FitFromExact(b, 1, 0);
    forall k | 0 <= k < n ensures b[k] { assert !FreeRun(b, k, 1); }
  }

  /** file_create in a directory that does not have the name.  Every directory can be read afterwards
      but the one, if any, with the file's number modulo 256; everything stays in order exactly when
      there is none and the parent had room. */
  method FileCreate(m: Mounted, parent: nat, name: string) returns (n: nat, halt: Halt)
    requires m.Valid() && parent in m.dirs && NewEntryName(Listing(m.part.View(), parent), name)
    modifies m`itable, m.part`disk, m.part`inodes, m.part.bmap.bits, m.ibmap.bits
    ensures halt != Live ==> m.part.NoSpace(halt) || (halt == Stopped("lib/kernel/bitmap.c", 33) && Full(old(m.ibmap.Bits())))
    ensures halt == Live ==>
              && FirstFit(old(m.ibmap.Bits()), 1) == Some(n) && FileMade(old(m.part.View()), m.part.View(), parent, n, name)
              && (m.Valid() <==> n % 256 !in m.dirs && old(Roomy(m.part.View(), parent)))
    ensures halt == Live && old(Roomy(m.part.View(), parent)) ==>
              && m.dirs <= m.part.inodes.Keys
              && (forall d :: d in m.dirs ==> (Readable(m.part.View(), m.itable, m.table, d) <==> d != n % 256))
              && m.dirs <= Reopened(m.part.View(), m.itable, m.table, m.dirs).inodes.Keys
              && Linked(old(TreeOf(m.part.View(), m.dirs)), TreeOf(Reopened(m.part.View(), m.itable, m.table, m.dirs), m.dirs), parent, n, name)
  {
    hide MountOk, DirsOk, OwnOk, DirModel.DirOk, WellFormed, Listing, Inserted, Roomy, Linked, Synced, InodeOf, NewEntryName, Readable, FirstFit, Full, InodeBytes, RootsFirst, Writable, TreeOf, Reopened, InodeTable.Stored;
    ghost var v, ibits, it := m.part.View(), m.ibmap.Bits(), m.itable;
    MountFacts(v, ibits, it, m.table, m.dirs, m.depth);
    n, halt := m.InodeAlloc();
    if halt != Live {
      return;
    }
    FirstIsFree(ibits, n);
    NewFile(v, ibits, it, m.table, m.dirs, m.depth, parent, n, name);
    m.part.inodes := m.part.inodes[n := Blank()];
    assert m.part.View() == WithNew(v, n);
    halt := SyncDirEntry(m.part, parent, Entry(name, n, Regular));
    if halt != Live {
      return;
    }
    FileMadeOwn(v, m.part.View(), parent, n, name);
    ghost var it1 := m.WriteBack(parent, n);
    FileDone(v, m.part.View(), ibits, it, it1, m.itable, m.table, m.dirs, m.depth, parent, n, name);
  }

  lemma NewFile(v: Vol, ibits: seq<bool>, itable: map<nat, Sector>, table: nat, dirs: set<nat>, depth: map<nat, nat>, parent: nat, n: nat, name: string)
    requires MountOk(v, ibits, itable, table, dirs, depth) && parent in dirs && n < |ibits| && !ibits[n] && NewEntryName(Listing(v, parent), name)
    ensures n !in v.inodes && n < INODES && Writable(Entry(name, n, Regular)) && OwnOk(WithNew(v, n)) && DirModel.DirOk(v, parent)
    ensures v.inodes[parent].size % ENTRY == 0
  {
    hide OwnOk, DirModel.DirOk, WellFormed, Listing, RootsFirst, HighSlotsOk, FreeSlotsOk, SlotsOwn, OneLink, NumbersOk, NewEntryName, CanAdd, NewName, Block, Readable;
    FileNumberFree(v, ibits, dirs, depth, parent, n, name);
    CanFit(v, parent, Entry(name, n, Regular));
    NewInode(v, n);
    DirShape(v, parent);
  }

  // ----------------------------------------------------------------------- sys_unlink

  lemma OwnedSame(v: Vol, v1: Vol, a: nat, b: nat)
    requires Isolated(v, v1, a) && b != a && b in v.inodes
    ensures b in v1.inodes && Owned(v1, b) == Owned(v, b)
  {
    hide Block;
  }

  /** Only one entry has the file's number, and it is the one that delete_dir_entry takes out. */
  lemma TakenFile(v: Vol, v1: Vol, dirs: set<nat>, depth: map<nat, nat>, parent: nat, e: Entry)
    requires dirs <= v.inodes.Keys && parent in dirs && WellFormed(TreeOf(v, dirs), depth) && Taken(v, v1, parent, e)
    requires e.ino !in dirs
    ensures e.kind == Regular
  {
    hide WellFormed, Listing, OwnOk, Isolated;
    var t := TreeOf(v, dirs);
    var p :| p >= 2 && InsertedAt(Listing(v1, parent), Listing(v, parent), p, e);
    assert t[parent][p] == e;
    HasRoot(t, depth);
    EntryKinds(t, depth, parent, e);
  }

  /** delete_dir_entry and inode_release of a file: directories in order, one file fewer in the tree. */
  lemma UnlinkKeeps(v: Vol, mid: Vol, v1: Vol, dirs: set<nat>, depth: map<nat, nat>, parent: nat, n: nat)
    requires DirsOk(v, dirs) && parent in dirs && WellFormed(TreeOf(v, dirs), depth) && n in v.inodes && n !in dirs
    requires Deleted(v, mid, parent, n) && Released(mid, v1, n)
    ensures DirsOk(v1, dirs) && v1.inodes.Keys == v.inodes.Keys - {n} && Unfiled(TreeOf(v, dirs), TreeOf(v1, dirs), parent, n)
    ensures forall b :: b in v1.inodes && b != parent ==> v1.inodes[b] == v.inodes[b]
  {
    hide OwnOk, DirModel.DirOk, WellFormed, Listing, Isolated, Deleted, Released, Unfiled;
    DeletedOwn(v, mid, parent, n);
    DeletedKeeps(v, mid, parent, n);
    ReleaseKeeps(mid, v1, n);
    ReleasedKeys(mid, v1, n);
    var e :| Taken(v, mid, parent, e) && e.ino == n;
    TakenFile(v, mid, dirs, depth, parent, e);
    DeleteIsUnfiled(v, mid, dirs, parent, e);
    forall d | d in dirs ensures DirModel.DirOk(v1, d) && Listing(v1, d) == Listing(mid, d) {
      if d != parent { DirStays(v, mid, parent, d); }
      DirStays(mid, v1, n, d);
    }
    assert TreeOf(v1, dirs) == TreeOf(mid, dirs);
    forall b | b in v1.inodes && b != parent ensures v1.inodes[b] == v.inodes[b] {
      SameInode(v, mid, parent, b);
      SameInode(mid, v1, n, b);
    }
  }

  /** The number is free everywhere once the file's only entry is gone. */
  lemma UnlinkNumbers(v: Vol, v1: Vol, ibits: seq<bool>, dirs: set<nat>, depth: map<nat, nat>, parent: nat, n: nat)
    requires dirs <= v.inodes.Keys && dirs <= v1.inodes.Keys && NumbersOk(v, ibits, dirs) && v1.inodes.Keys == v.inodes.Keys - {n}
    requires n in v.inodes && n !in dirs && OneLink(TreeOf(v, dirs)) && WellFormed(TreeOf(v, dirs), depth)
    requires Unfiled(TreeOf(v, dirs), TreeOf(v1, dirs), parent, n)
    ensures NumbersOk(v1, ibits[n := false], dirs)
  {
    hide Listing, WellFormed, InsertedAt, NoRepeats;
    var t, t1 := TreeOf(v, dirs), TreeOf(v1, dirs);
    var p: nat, e: Entry :| p >= 2 && e.ino == n && e.kind == Regular && InsertedAt(t1[parent], t[parent], p, e);
    InsertedIn(t1[parent], t[parent], p, e);
    assert ListsFile(t, parent, n);
    forall d, f | d in dirs && f in Listing(v1, d) ensures f.ino < INODES && ibits[n := false][f.ino] {
      assert t1[d] == Listing(v1, d) && t[d] == Listing(v, d) && f in t[d];
      OnlyEntry(t, t1, depth, parent, p, e, d, f);
    }
  }

  lemma OnlyEntry(t: Tree, t1: Tree, depth: map<nat, nat>, parent: nat, p: nat, e: Entry, d: nat, f: Entry)
    requires WellFormed(t, depth) && OneLink(t) && parent in t && d in t && d in t1 && parent in t1 && e.ino !in t && e.kind == Regular
    requires p >= 2 && InsertedAt(t1[parent], t[parent], p, e) && f in t[d] && f in t1[d]
    ensures f.ino != e.ino
  {
    hide WellFormed;
    HasRoot(t, depth);
    EntryKinds(t, depth, d, f);
    assert t[parent][p] == e;
    if f.ino == e.ino {
      assert ListsFile(t, parent, e.ino) && ListsFile(t, d, e.ino);
      var i :| 0 <= i < |t1[d]| && t1[d][i] == f;
      NamesOnce(t, depth, d);
      DotKinds(t, depth, d);
      TwicePlaced(t1[d], t[d], p, e, i);
    }
  }

  /** What is left after taking out place p stood elsewhere. */
  lemma TwicePlaced(l: seq<Entry>, l1: seq<Entry>, p: nat, e: Entry, i: nat)
    requires InsertedAt(l, l1, p, e) && p >= 2 && i < |l| && NoRepeats(l1) && e.kind != Unknown && l[i].kind == Regular
    requires l1[0].kind == Directory && l1[1].kind == Directory
    ensures l[i].ino != e.ino
  {
    var j := if i < p then i else i + 1;
    assert l1[j] == l[i] && l1[p] == e && j != p;
  }

  lemma DotKinds(t: Tree, depth: map<nat, nat>, d: nat)
    requires WellFormed(t, depth) && d in t
    ensures |t[d]| >= 2 && t[d][0].kind == Directory && t[d][1].kind == Directory
  {
    assert Paths.DirOk(t, depth, d);
  }

  lemma UnlinkMounts(v: Vol, mid: Vol, v1: Vol, ibits: seq<bool>, itable: map<nat, Sector>, it1: map<nat, Sector>, it2: map<nat, Sector>,
                     table: nat, dirs: set<nat>, depth: map<nat, nat>, parent: nat, n: nat)
    requires MountOk(v, ibits, itable, table, dirs, depth) && parent in dirs && n in v.inodes && n !in dirs
    requires Deleted(v, mid, parent, n) && Released(mid, v1, n) && parent in v1.inodes
    requires Synced(itable, it1, table, OnDisk(v1, parent)) && Replaced(it1, it2, table, n, Zeros(INODE_BYTES))
    ensures MountOk(v1, ibits[n := false], it2, table, dirs, depth) && Unfiled(TreeOf(v, dirs), TreeOf(v1, dirs), parent, n)
  {
    hide OwnOk, DirModel.DirOk, WellFormed, Listing, NumbersOk, HighSlotsOk, FreeSlotsOk, SlotsOwn, OneLink, Storable, InodeOf, InodeBytes, Block, Deleted, Released, Replaced, Readable, Unfiled, RootsFirst, TreeOf;
    UnlinkKeeps(v, mid, v1, dirs, depth, parent, n);
    UnfiledEdits(TreeOf(v, dirs), TreeOf(v1, dirs), depth, parent, n);
    EditedKeeps(TreeOf(v, dirs), TreeOf(v1, dirs), depth, parent);
    UnfiledNoFile(TreeOf(v, dirs), TreeOf(v1, dirs), parent, n);
    OneLinkStays(TreeOf(v, dirs), TreeOf(v1, dirs));
    UnlinkNumbers(v, v1, ibits, dirs, depth, parent, n);
    DirStorable(v1, parent);
    HighSlotsStay(itable, it1, table, OnDisk(v1, parent));
    HighSlotsErased(it1, it2, table, n);
    UnlinkSlots(v, v1, itable, it1, it2, table, parent, n);
    LeftOwn(v, v1, ibits, itable, it1, it2, table, dirs, parent, n);
    UnlinkFirst(v, mid, v1, dirs, depth, parent, n);
    forall d | d in dirs ensures d < 256 && Readable(v1, it2, table, d) {
      LeftReadable(v, v1, itable, it1, it2, table, parent, n, d);
    }
  }

  lemma UnlinkSlots(v: Vol, v1: Vol, itable: map<nat, Sector>, it1: map<nat, Sector>, it2: map<nat, Sector>, table: nat, parent: nat, n: nat)
    requires FreeSlotsOk(v, itable, table) && parent in v.inodes && parent in v1.inodes && parent < 256 && v1.inodes.Keys == v.inodes.Keys - {n}
    requires Synced(itable, it1, table, OnDisk(v1, parent)) && Replaced(it1, it2, table, n, Zeros(INODE_BYTES))
    ensures FreeSlotsOk(v1, it2, table)
  {
    hide FreeSlotsOk, Replaced, InodeBytes;
    assert parent % 256 == parent;
    FreeSlotsStay(v, v, itable, it1, table, parent, InodeBytes(OnDisk(v1, parent)));
    FreeSlotsStay(v, v1, it1, it2, table, n, Zeros(INODE_BYTES));
  }

  lemma UnlinkFirst(v: Vol, mid: Vol, v1: Vol, dirs: set<nat>, depth: map<nat, nat>, parent: nat, n: nat)
    requires DirsOk(v, dirs) && WellFormed(TreeOf(v, dirs), depth) && parent in dirs && n !in dirs && RootsFirst(v)
    requires Deleted(v, mid, parent, n) && Released(mid, v1, n)
    ensures RootsFirst(v1)
  {
    hide OwnOk, DirModel.DirOk, WellFormed, Deleted, Released, Block;
    HasRoot(TreeOf(v, dirs), depth);
    assert Removed(v, v1, parent, n);
    RemovedFirst(v, v1, parent, n);
    RemovedStart(v, v1, parent, n);
  }

  /** delete_dir_entry and inode_release of a file that is not open.  The latter stops exactly when the
      number read back from the file's slot is another's. */
  method RemoveFile(m: Mounted, parent: nat, n: nat) returns (halt: Halt)
    requires m.Valid() && parent in m.dirs && n in m.part.inodes && n !in m.dirs && Lists(m.part.View(), parent, n)
    modifies m`itable, m.part`disk, m.part`inodes, m.part.bmap.bits, m.ibmap.bits
    ensures halt == Live <==> old(!AloneBehind(m.part.View(), parent, n) && InodeOf(InodeTable.Stored(m.itable, m.table, n)).no == n)
    ensures halt == Live ==> m.Valid() && Unfiled(old(TreeOf(m.part.View(), m.dirs)), TreeOf(m.part.View(), m.dirs), parent, n)
    ensures halt == Live ==> Removed(old(m.part.View()), m.part.View(), parent, n)
  {
    hide MountOk, DirsOk, OwnOk, DirModel.DirOk, WellFormed, Listing, Deleted, Released, Synced, Replaced, InodeBytes, InodeOf, AloneBehind, Owned, Lists, RootsFirst, TreeOf, Unfiled, InodeTable.Stored, Isolated;
    ghost var v, ibits, it := m.part.View(), m.ibmap.Bits(), m.itable;
    MountFacts(v, ibits, it, m.table, m.dirs, m.depth);
    FileNumber(v, ibits, it, m.table, m.dirs, m.depth, n);
    ListsIs(v, parent, n);
    var ok;
    ok, halt := DeleteDirEntry(m.part, parent, n);
    if halt != Live {
      return;
    }
    ghost var mid := m.part.View();
    DeletedOwn(v, mid, parent, n);
    OwnedSame(v, mid, parent, n);
    RootOnly(v, n);
    m.itable := InodeSync(m.itable, m.table, DiskInode(parent, m.part.inodes[parent].size, m.part.inodes[parent].sectors));
    ghost var it1 := m.itable;
    OtherSlot(v, mid, it, it1, m.table, m.dirs, m.depth, parent, n);
    var i := InodeRead(m.itable, m.table, n);
    if i.no != n {
      return Stopped("fs/inode.c", 182);
    }
    halt := InodeRelease(m.part, n);
    ReleasedSame(mid, m.part.View(), n, parent);
    ghost var it2 := m.Forget(parent, n, false);
    UnlinkMounts(v, mid, m.part.View(), ibits, it, it1, m.itable, m.table, m.dirs, m.depth, parent, n);
    MountFacts(m.part.View(), m.ibmap.Bits(), m.itable, m.table, m.dirs, m.depth);
  }

  lemma ListsIs(v: Vol, a: nat, n: nat)
    requires a in v.inodes
    ensures Lists(v, a, n) <==> exists i :: 2 <= i < |Listing(v, a)| && Listing(v, a)[i].ino == n
  {
  }

  lemma FileNumber(v: Vol, ibits: seq<bool>, itable: map<nat, Sector>, table: nat, dirs: set<nat>, depth: map<nat, nat>, n: nat)
    requires MountOk(v, ibits, itable, table, dirs, depth) && n in v.inodes && n !in dirs
    ensures 0 < n < INODES && |ibits| == INODES
  {
    hide OwnOk, DirModel.DirOk, WellFormed, NumbersOk, HighSlotsOk, FreeSlotsOk, SlotsOwn, OneLink, RootsFirst, Listing, Readable;
    HasRoot(TreeOf(v, dirs), depth);
    InRange4096(v, ibits, dirs);
  }

  lemma InRange4096(v: Vol, ibits: seq<bool>, dirs: set<nat>)
    requires dirs <= v.inodes.Keys && NumbersOk(v, ibits, dirs)
    ensures |ibits| == INODES && forall n :: n in v.inodes ==> n < INODES
  {
    hide Listing;
  }

  lemma OtherSlot(v: Vol, mid: Vol, itable: map<nat, Sector>, it1: map<nat, Sector>, table: nat, dirs: set<nat>, depth: map<nat, nat>, parent: nat, n: nat)
    requires OwnOk(mid) && DirModel.DirOk(mid, parent) && parent < 256 && n != parent && Synced(itable, it1, table, OnDisk(mid, parent))
    ensures InodeTable.Stored(it1, table, n) == InodeTable.Stored(itable, table, n)
  {
    hide OwnOk, DirModel.DirOk, Synced, Storable, InodeOf;
    DirHasInode(mid, parent);
    DirStorable(mid, parent);
    SyncReadable(mid, itable, it1, table, parent, n);
  }

  lemma ReleasedSame(v: Vol, v1: Vol, n: nat, b: nat)
    requires Released(v, v1, n) && b in v.inodes && b != n
    ensures b in v1.inodes && v1.inodes[b] == v.inodes[b]
  {
  }

  /** sys_unlink of a file that is not open, for every path but those of nothing but slashes.  It
      stops for a path of 512 characters, a bad path, the root, or a file whose slot holds another inode;
      it hangs when delete_dir_entry does; otherwise it removes the file found, if it is one, and
      everything stays in order. */
  method SysUnlink(m: Mounted, path: string, junk: nat) returns (ok: bool, halt: Halt)
    requires m.Valid() && (forall w :: w in Components(path) ==> |w| <= 15) && (Components(path) != [] || path == "/")
    modifies m`itable, m.part`disk, m.part`inodes, m.part.bmap.bits, m.ibmap.bits
    ensures halt == Live <==>
            old(var r := SearchFile(TreeOf(m.part.View(), m.dirs), path, junk);
                && |path| < 512 && !r.Stop? && !(r.Hit? && r.ino == 0)
                && (r.Hit? && r.kind == Regular ==>
                      !HangsOn(m.part.View(), r.parent, r.ino) && InodeOf(InodeTable.Stored(m.itable, m.table, r.ino)).no == r.ino))
    ensures halt == Live ==> m.Valid() && m.dirs <= m.part.inodes.Keys
    ensures halt == Live ==>
              var r, t, t1 := old(SearchFile(TreeOf(m.part.View(), m.dirs), path, junk)), old(TreeOf(m.part.View(), m.dirs)), TreeOf(m.part.View(), m.dirs);
              && (ok <==> r.Hit? && r.kind == Regular)
              && if ok then Unfiled(t, t1, r.parent, r.ino) && Removed(old(m.part.View()), m.part.View(), r.parent, r.ino)
                 else t1 == t && m.part.View() == old(m.part.View()) && m.itable == old(m.itable)
  {
    hide MountOk, DirsOk, OwnOk, DirModel.DirOk, WellFormed, SearchFile, Components, Listing, AloneBehind, TreeOf, Unfiled, InodeOf, InodeTable.Stored, RootsFirst, Lists, Removed;
    ok, halt := false, Live;
    if |path| >= 512 {
      return false, Stopped("fs/fs.c", 495);
    }
    MountFacts(m.part.View(), m.ibmap.Bits(), m.itable, m.table, m.dirs, m.depth);
    TreeKeys(m.part.View(), m.dirs);
    var r := m.SearchPath(path, junk, "");
    if r.Stop? {
      return false, r.at;
    }
    if r.Hit? && r.ino == 0 {
      return false, Stopped("fs/fs.c", 501);
    }
    if r.Missing? || r.kind == Directory {
      return;
    }
    FoundKind(TreeOf(m.part.View(), m.dirs), path, junk);
    FoundFile(m.part.View(), m.ibmap.Bits(), m.itable, m.table, m.dirs, m.depth, path, junk);
    ok := true;
    halt := RemoveFile(m, r.parent, r.ino);
  }

  /** search_file reports files and directories, nothing else. */
  lemma FoundKind(t: Tree, path: string, junk: nat)
    ensures var r := SearchFile(t, path, junk); r.Hit? ==> r.kind == Regular || r.kind == Directory
  {
    hide Components, Walk;
    WalkKind(t, 0, 0, junk, Components(path));
  }

  lemma {:induction false} WalkKind(t: Tree, at: nat, parent: nat, last: nat, names: seq<string>)
    ensures var r := Walk(t, at, parent, last, names); r.Hit? ==> r.kind == Regular || r.kind == Directory
    decreases |names|
  {
    if names != [] {
      match ByName(Slots(t, at), names[0])
      case None =>
      case Some(e) =>
        match e.kind
        case Directory => WalkKind(t, e.ino, at, e.ino, names[1..]);
        case Regular =>
        case Unknown => WalkKind(t, at, parent, e.ino, names[1..]);
    }
  }

  lemma FoundFile(v: Vol, ibits: seq<bool>, itable: map<nat, Sector>, table: nat, dirs: set<nat>, depth: map<nat, nat>, path: string, junk: nat)
    requires MountOk(v, ibits, itable, table, dirs, depth)
    requires var r := SearchFile(TreeOf(v, dirs), path, junk); r.Hit? && r.kind == Regular
    ensures var r := SearchFile(TreeOf(v, dirs), path, junk);
            r.parent in dirs && r.parent in v.inodes && r.ino in v.inodes && r.ino !in dirs && Lists(v, r.parent, r.ino)
  {
    hide OwnOk, DirModel.DirOk, WellFormed, HighSlotsOk, FreeSlotsOk, SlotsOwn, OneLink, RootsFirst, SearchFile, Listing;
    var t := TreeOf(v, dirs);
    SearchFinds(t, depth, path, junk);
    var r := SearchFile(t, path, junk);
    var e :| At(t[r.parent], e) && e.ino == r.ino && e.kind == Regular;
    var j :| 2 <= j < |t[r.parent]| && t[r.parent][j] == e;
    assert Listing(v, r.parent)[j] == e;
    assert e in Listing(v, r.parent);
  }
}
