/** A mounted partition with everything that sys_mkdir, sys_rmdir and sys_chdir of fs/fs.c touch:
    data blocks, inodes, the inode bitmap and the inode table on disk.  An inode number comes from
    inode_bitmap_alloc (fs/file.c), and a directory that no one has open exists only in the table,
    so what inode_sync stores there is what the directory is. */
module Mount {
  import opened Basics
  import opened Bitmap
  import opened Entries
  import opened Sectors
  import opened Volume
  import opened DirModel
  import opened FileWrite
  import opened Directory
  import opened FileSystem
  import opened Layout
  import opened InodeTable
  import opened Paths
  import opened DirTree
  import FsRuns

  /** Inode n as inode_sync stores it. */
  function OnDisk(v: Vol, n: nat): DiskInode
    requires n in v.inodes
  {
    DiskInode(n, v.inodes[n].size, v.inodes[n].sectors)
  }

  /** A fresh inode_open(n) finds inode n as it is. */
  ghost predicate Readable(v: Vol, itable: map<nat, Sector>, table: nat, n: nat) {
    n in v.inodes && InodeOf(InodeTable.Stored(itable, table, n)) == OnDisk(v, n)
  }

  /** The inode bitmap marks exactly the numbers in use, and directories list no others. */
  ghost predicate NumbersOk(v: Vol, ibits: seq<bool>, dirs: set<nat>)
    requires dirs <= v.inodes.Keys
  {
    && |ibits| == INODES && (forall n :: n in v.inodes ==> n < INODES) && (forall n: nat :: n < INODES ==> (ibits[n] <==> n in v.inodes))
    && (forall d, e :: d in dirs && e in Listing(v, d) ==> e.ino < INODES && ibits[e.ino])
  }

  /** The slots from 256 on have never been written. */
  ghost predicate HighSlotsOk(itable: map<nat, Sector>, table: nat) {
    forall n: nat :: 256 <= n < INODES ==> InodeOf(InodeTable.Stored(itable, table, n)).no == 0
  }

  /** The slots of numbers that are not in use hold zeros. */
  ghost predicate FreeSlotsOk(v: Vol, itable: map<nat, Sector>, table: nat) {
    forall n: nat :: n < INODES && n !in v.inodes ==> InodeTable.Stored(itable, table, n) == Zeros(INODE_BYTES)
  }

  /** A slot that carries its own number holds that inode; the slot of a file may carry another's. */
  ghost predicate SlotsOwn(v: Vol, itable: map<nat, Sector>, table: nat) {
    forall n :: n in v.inodes && InodeOf(InodeTable.Stored(itable, table, n)).no == n ==> Readable(v, itable, table, n)
  }

  ghost predicate DirsOk(v: Vol, dirs: set<nat>) {
    OwnOk(v) && dirs <= v.inodes.Keys && forall d :: d in dirs ==> DirModel.DirOk(v, d)
  }

  /** The root directory owns the first block of the data area. */
  ghost predicate RootsFirst(v: Vol) {
    0 in v.inodes && Block(v, 0, 0) == v.start
  }

  /** Blocks, directories, tree, numbers and the inode table agree. */
  ghost predicate MountOk(v: Vol, ibits: seq<bool>, itable: map<nat, Sector>, table: nat, dirs: set<nat>, depth: map<nat, nat>) {
    && DirsOk(v, dirs) && WellFormed(TreeOf(v, dirs), depth) && NumbersOk(v, ibits, dirs) && RootsFirst(v)
    && HighSlotsOk(itable, table) && FreeSlotsOk(v, itable, table) && SlotsOwn(v, itable, table) && OneLink(TreeOf(v, dirs))
    && forall d :: d in dirs ==> d < 256 && Readable(v, itable, table, d)
  }

  // ------------------------------------------------------------------ new numbers

  /** A number whose bit is clear is used nowhere. */
  lemma FreeNumber(v: Vol, ibits: seq<bool>, dirs: set<nat>, depth: map<nat, nat>, n: nat)
    requires dirs <= v.inodes.Keys && NumbersOk(v, ibits, dirs) && WellFormed(TreeOf(v, dirs), depth) && n < |ibits| && !ibits[n]
    ensures n !in v.inodes && n != 0 && n < INODES && (n < 256 ==> Unused(TreeOf(v, dirs), n))
    ensures forall d, e :: d in dirs && e in Listing(v, d) ==> e.ino != n
  {
    hide WellFormed, Listing;
    HasRoot(TreeOf(v, dirs), depth);
  }

  /** A name new to the parent can be inserted with that number. */
  lemma NameFits(v: Vol, parent: nat, n: nat, name: string)
    requires parent in v.inodes && NewEntryName(Listing(v, parent), name) && n < U32
    requires forall e :: e in Listing(v, parent) ==> e.ino != n
    ensures CanAdd(v, parent, Entry(name, n, Directory)) && CanAdd(v, parent, Entry(name, n, Regular))
  {
    hide Listing;
    forall i | 2 <= i < |Listing(v, parent)| ensures Listing(v, parent)[i].name != name && Listing(v, parent)[i].ino != n {
      assert Listing(v, parent)[i] in Listing(v, parent);
    }
  }

  /** A name of 1 to 15 bytes without a slash that no entry has. */
  predicate NewEntryName(l: seq<Entry>, name: string) {
    && name != "" && '/' !in name && |name| <= 15 && name != "." && name != ".."
    && (forall i :: 0 <= i < |name| ==> 0 < name[i] as int < 256) && forall e :: e in l ==> e.name != name
  }

  lemma NumbersMade(v: Vol, v1: Vol, ibits: seq<bool>, dirs: set<nat>, parent: nat, n: nat, name: string)
    requires dirs <= v.inodes.Keys && NumbersOk(v, ibits, dirs) && parent in dirs && n < |ibits| && n !in v.inodes
    requires v1.inodes.Keys == v.inodes.Keys + {n} && Made(TreeOf(v, dirs), TreeOf(v1, dirs + {n}), parent, n, name)
    ensures NumbersOk(v1, ibits[n := true], dirs + {n})
  {
    hide Listing;
    var t, t1 := TreeOf(v, dirs), TreeOf(v1, dirs + {n});
    forall d, e | d in dirs + {n} && e in Listing(v1, d) ensures e.ino < INODES && ibits[n := true][e.ino] {
      assert t1[d] == Listing(v1, d);
      if d == n {
        assert e.ino == n || e.ino == parent;
      } else if d == parent {
        assert t[d] == Listing(v, d);
        var p :| p >= 2 && InsertedAt(t[d], t1[d], p, Entry(name, n, Directory));
        assert e in t[d] || e == Entry(name, n, Directory);
      } else {
        assert t[d] == Listing(v, d);
      }
    }
  }

  // ------------------------------------------------------------- inodes on the disk

  lemma {:induction false} FewEntries(v: Vol, a: nat, k: nat)
    requires a in v.inodes && k <= BLOCKS
    ensures |Entered(From(v, a, k))| <= PER_SECTOR * (BLOCKS - k)
    decreases BLOCKS - k
  {
    hide Block, SlotsOf;
    if k < BLOCKS {
      FewEntries(v, a, k + 1);
      LiveAppend(Here(v, a, k), From(v, a, k + 1));
      NotMore(Here(v, a, k));
    } else {
      NoneLive([]);
    }
  }

  lemma {:induction false} NotMore(l: seq<Entry>)
    ensures |Entered(l)| <= |l|
  {
    if l != [] { NotMore(l[1..]); }
  }

  /** Every directory's inode can be stored in 32-bit words. */
  lemma DirStorable(v: Vol, d: nat)
    requires OwnOk(v) && DirModel.DirOk(v, d) && d < U32
    ensures Storable(OnDisk(v, d))
  {
    FewEntries(v, d, 0);
    SectorsInRange(v, d);
    hide OwnOk, Block, ListOk, DotsOk, CleanOk, NoIdleBlock, Entered, From;
  }

  lemma SectorsInRange(v: Vol, d: nat)
    requires OwnOk(v) && d in v.inodes
    ensures forall k :: 0 <= k < 13 ==> v.inodes[d].sectors[k] < U32
  {
    forall k | 0 <= k < 13 ensures v.inodes[d].sectors[k] < U32 {
      var j := if k < 12 then k else INDEX;
      assert Block(v, d, j) == v.inodes[d].sectors[k];
      assert v.inodes[d].sectors[k] != 0 ==> Volume.InUse(v, Block(v, d, j));
    }
  }

  /** inode_sync of a directory below 256: it becomes readable, and nothing else changes. */
  lemma SyncReadable(v: Vol, itable: map<nat, Sector>, itable1: map<nat, Sector>, table: nat, n: nat, m: nat)
    requires n in v.inodes && n < 256 && Storable(OnDisk(v, n)) && Synced(itable, itable1, table, OnDisk(v, n))
    ensures Readable(v, itable1, table, n)
    ensures m != n ==> InodeTable.Stored(itable1, table, m) == InodeTable.Stored(itable, table, m)
  {
    hide InodeOf, Synced, Storable;
    SyncStores(itable, itable1, table, OnDisk(v, n), m);
  }

  /** Any inode_sync leaves the slots from 256 on alone. */
  lemma HighSlotsStay(itable: map<nat, Sector>, itable1: map<nat, Sector>, table: nat, i: DiskInode)
    requires HighSlotsOk(itable, table) && Storable(i) && Synced(itable, itable1, table, i)
    ensures HighSlotsOk(itable1, table)
  {
    hide InodeOf, Synced, Storable;
    forall n: nat | 256 <= n < INODES ensures InodeOf(InodeTable.Stored(itable1, table, n)).no == 0 {
      SyncStores(itable, itable1, table, i, n);
    }
  }

  /** Storing an inode that is in use, and clearing one that no longer is. */
  lemma FreeSlotsStay(v: Vol, v1: Vol, itable: map<nat, Sector>, itable1: map<nat, Sector>, table: nat, n: nat, b: seq<byte>)
    requires FreeSlotsOk(v, itable, table) && |b| == INODE_BYTES && Replaced(itable, itable1, table, n, b)
    requires forall m :: m in v.inodes && m != n ==> m in v1.inodes
    requires n in v1.inodes || b == Zeros(INODE_BYTES)
    ensures FreeSlotsOk(v1, itable1, table)
  {
    hide Replaced;
    forall m: nat | m < INODES && m !in v1.inodes ensures InodeTable.Stored(itable1, table, m) == Zeros(INODE_BYTES) {
      ReplacedOne(itable, itable1, table, n, b, m);
    }
  }

  /** inode_sync of an inode of v1, the only one in which v1 differs from v. */
  lemma SlotsOwnStay(v: Vol, v1: Vol, itable: map<nat, Sector>, itable1: map<nat, Sector>, table: nat, n: nat)
    requires SlotsOwn(v, itable, table) && HighSlotsOk(itable, table) && n in v1.inodes && n < INODES
    requires (forall m :: m in v1.inodes ==> m < INODES) && (forall m :: m in v1.inodes && m != n ==> m in v.inodes && v1.inodes[m] == v.inodes[m])
    requires Storable(OnDisk(v1, n)) && Synced(itable, itable1, table, OnDisk(v1, n))
    ensures SlotsOwn(v1, itable1, table)
  {
    hide InodeOf, Synced, Storable;
    forall m | m in v1.inodes && InodeOf(InodeTable.Stored(itable1, table, m)).no == m ensures Readable(v1, itable1, table, m) {
      SyncStores(itable, itable1, table, OnDisk(v1, n), m);
      if m != n % 256 && m != n { assert Readable(v, itable, table, m); }
    }
  }

  lemma SlotsOwnErased(v: Vol, v1: Vol, itable: map<nat, Sector>, itable1: map<nat, Sector>, table: nat, n: nat)
    requires SlotsOwn(v, itable, table) && Replaced(itable, itable1, table, n, Zeros(INODE_BYTES))
    requires forall m :: m in v1.inodes ==> m != n && m in v.inodes && v1.inodes[m] == v.inodes[m]
    ensures SlotsOwn(v1, itable1, table)
  {
    hide InodeOf, Replaced;
    forall m | m in v1.inodes && InodeOf(InodeTable.Stored(itable1, table, m)).no == m ensures Readable(v1, itable1, table, m) {
      ReplacedOne(itable, itable1, table, n, Zeros(INODE_BYTES), m);
      assert Readable(v, itable, table, m);
    }
  }

  function WithInode(v: Vol, v1: Vol, n: nat): Vol
    requires n in v1.inodes
  {
    v.(inodes := v.inodes[n := v1.inodes[n]])
  }

  lemma ZeroInode()
    ensures InodeOf(Zeros(INODE_BYTES)).no == 0 && InodeOf(Zeros(INODE_BYTES)).sectors[0] == 0
  {
  }

  lemma HighSlotsErased(itable: map<nat, Sector>, itable1: map<nat, Sector>, table: nat, n: nat)
    requires HighSlotsOk(itable, table) && Replaced(itable, itable1, table, n, Zeros(INODE_BYTES))
    ensures HighSlotsOk(itable1, table)
  {
    hide InodeOf, Replaced;
    ZeroInode();
    forall m: nat | 256 <= m < INODES ensures InodeOf(InodeTable.Stored(itable1, table, m)).no == 0 {
      ReplacedOne(itable, itable1, table, n, Zeros(INODE_BYTES), m);
    }
  }

  // ------------------------------------------------------------ the root's own block

  lemma InsertedFirst(v: Vol, v1: Vol, a: nat, e: Entry)
    requires OwnOk(v) && a in v.inodes && a in v1.inodes && Inserted(v, v1, a, e) && Block(v, a, 0) != 0
    ensures Block(v1, a, 0) == Block(v, a, 0)
  {
    hide OwnOk, Isolated, Block, EntryBytes, Patch, Placed, FullUpTo, Here;
    if k: nat, i: nat :| SlotFills(v, v1, a, k, i, e) {
      SlotPut(v, a, k, i, EntryBytes(e), v.inodes[a].size + ENTRY);
    } else {
      var k: nat :| BlockFills(v, v1, a, k, e);
      var vx := if k < DIRECT then v else Unindexed(v, a);
      var v0, got, off :| BlockPut(vx, v0, v1, a, got, k, off, e);
      UnindexedKeeps(v, a);
      FirstStays(vx, v0, v1, a, got, k, off, Patch(Zeros(SECTOR), 0, EntryBytes(e)), v.inodes[a].size + ENTRY);
    }
  }

  lemma FirstStays(v: Vol, v0: Vol, v1: Vol, a: nat, got: seq<nat>, k: nat, off: int, s: Sector, n: nat)
    requires OwnOk(v) && 0 < k < BLOCKS && a in v.inodes && Placed(v, v0, a, got, k, k + 1, off, k == DIRECT)
    requires v1 == WithSize(WithSector(v0, Block(v0, a, k), s), a, n)
    ensures Block(v1, a, 0) == Block(v, a, 0)
  {
  }

  lemma DeletedFirst(v: Vol, v1: Vol, a: nat, ino: nat)
    requires OwnOk(v) && DirModel.DirOk(v, a) && a in v1.inodes && Deleted(v, v1, a, ino)
    ensures Block(v1, a, 0) == Block(v, a, 0)
  {
    hide OwnOk, DirModel.DirOk, Block, Here, Alone, Target, NotBefore, DropBlock, PutSlot;
    var k: nat, i: nat :| DeletedAt(v, v1, a, k, i, ino);
    HereIs(v, a, k);
    if Alone(Here(v, a, k)) {
      DroppedLater(v, v1, a, k, i, ino);
      DropFirst(v, v1, a, k);
    } else {
      ClearFirst(v, v1, a, k, i);
    }
  }

  lemma DropFirst(v: Vol, v1: Vol, a: nat, k: nat)
    requires OwnOk(v) && a in v.inodes && v.inodes[a].size >= ENTRY && 0 < k < DIRECT && Block(v, a, k) != 0 && InRange(v, v.inodes[a].sectors[k])
    requires v1 == DropBlock(v, a, k, v.inodes[a].size - ENTRY)
    ensures Block(v1, a, 0) == Block(v, a, 0)
  {
    hide OwnOk, Block, OnlyBlock, InUse;
    BlockDropped(v, a, k, v.inodes[a].size - ENTRY);
  }

  lemma ClearFirst(v: Vol, v1: Vol, a: nat, k: nat, i: nat)
    requires OwnOk(v) && a in v.inodes && v.inodes[a].size >= ENTRY && k < BLOCKS && i < PER_SECTOR && Block(v, a, k) != 0
    requires v1 == PutSlot(v, a, k, i, Zeros(ENTRY), v.inodes[a].size - ENTRY)
    ensures Block(v1, a, 0) == Block(v, a, 0)
  {
    hide OwnOk, Block, OnlyBlock, Patch;
    SlotPut(v, a, k, i, Zeros(ENTRY), v.inodes[a].size - ENTRY);
  }

  lemma DroppedLater(v: Vol, v1: Vol, a: nat, k: nat, i: nat, ino: nat)
    requires DirModel.DirOk(v, a) && DeletedAt(v, v1, a, k, i, ino) && Alone(Here(v, a, k)) && Block(v, a, k) != 0
    ensures 0 < k < DIRECT
  {
    hide DirModel.DirOk, Block, Here, Others, DropBlock;
    OnlyOne(v, a, k, i);
  }

  lemma MadeFirst(v: Vol, v1: Vol, parent: nat, n: nat, name: string)
    requires OwnOk(v) && DirModel.DirOk(v, parent) && MadeDir(v, v1, parent, n, name) && 0 in v.inodes && Block(v, 0, 0) != 0
    ensures 0 in v1.inodes && Block(v1, 0, 0) == Block(v, 0, 0)
  {
    hide OwnOk, DirModel.DirOk, Block, NewDir, Inserted, Listing;
    DirHasInode(v, parent);
    var mid :| NewDir(v, mid, n, parent) && Inserted(mid, v1, parent, Entry(name, n, Directory));
    NewDirKeeps(v, mid, n, parent);
    FreshNumber(v, mid, n, parent);
    InsertedOwn(mid, v1, parent, Entry(name, n, Directory));
    if parent == 0 { InsertedFirst(mid, v1, parent, Entry(name, n, Directory)); }
  }

  lemma RemovedFirst(v: Vol, v1: Vol, parent: nat, c: nat)
    requires OwnOk(v) && DirModel.DirOk(v, parent) && Removed(v, v1, parent, c) && 0 in v.inodes && c != 0
    ensures 0 in v1.inodes && Block(v1, 0, 0) == Block(v, 0, 0)
  {
    hide OwnOk, DirModel.DirOk, Block, Deleted, Released;
    var mid :| (Deleted(v, mid, parent, c) || mid == v) && Released(mid, v1, c);
    if Deleted(v, mid, parent, c) {
      DeletedOwn(v, mid, parent, c);
      if parent == 0 { DeletedFirst(v, mid, parent, c); }
    }
    ReleaseKeeps(mid, v1, c);
  }

  /** Only the root owns the first block of the data area. */
  lemma RootOnly(v: Vol, c: nat)
    requires OwnOk(v) && RootsFirst(v) && c in v.inodes
    ensures v.start in Owned(v, c) <==> c == 0
  {
    hide Block;
  }

  // ----------------------------------------------------------------- mkdir and rmdir

  /** sys_mkdir with number n, on blocks and table.  In a parent with room it adds one leaf to the
      tree; a fresh inode_open finds the new directory exactly when n is below 256, and then all is
      in order; in any case its inode now stands in slot n % 256. */
  lemma MkdirMounts(v: Vol, v1: Vol, ibits: seq<bool>, itable: map<nat, Sector>, it1: map<nat, Sector>, it2: map<nat, Sector>,
                    table: nat, dirs: set<nat>, depth: map<nat, nat>, parent: nat, n: nat, name: string)
    requires MountOk(v, ibits, itable, table, dirs, depth) && parent in dirs && n < |ibits| && !ibits[n]
    requires NewEntryName(Listing(v, parent), name) && MadeDir(v, v1, parent, n, name) && Roomy(v, parent)
    requires n in v1.inodes && parent in v1.inodes
    requires Synced(itable, it1, table, OnDisk(v1, parent)) && Synced(it1, it2, table, OnDisk(v1, n))
    ensures dirs + {n} <= v1.inodes.Keys && Made(TreeOf(v, dirs), TreeOf(v1, dirs + {n}), parent, n, name)
    ensures InodeOf(InodeTable.Stored(it2, table, n % 256)) == OnDisk(v1, n)
    ensures (Readable(v1, it2, table, n) <==> n < 256) && (n >= 256 ==> InodeOf(InodeTable.Stored(it2, table, n)).no != n)
    ensures n < 256 ==> parent in depth && MountOk(v1, ibits[n := true], it2, table, dirs + {n}, depth[n := depth[parent] + 1])
  {
    hide OwnOk, DirModel.DirOk, WellFormed, Listing, MadeDir, Roomy, Made, NumbersOk, HighSlotsOk, FreeSlotsOk, SlotsOwn, OneLink, Storable, InodeOf, NewEntryName, Unused, Block, Readable, Replaced, InodeBytes;
    FreeNumber(v, ibits, dirs, depth, n);
    NameFits(v, parent, n, name);
    MkdirIsMade(v, v1, dirs, parent, n, name);
    MadeDirs(v, v1, dirs, parent, n, name);
    DirStorable(v1, parent);
    DirStorable(v1, n);
    HighSlotsStay(itable, it1, table, OnDisk(v1, parent));
    HighSlotsStay(it1, it2, table, OnDisk(v1, n));
    SyncStores(it1, it2, table, OnDisk(v1, n), parent);
    HighUnreadable(v1, it2, table, n);
    if n < 256 {
      assert Readable(v1, it2, table, n) by { SlotReadable(v1, it2, table, n); }
      NewNameIs(v, dirs, parent, name);
      MkdirKeepsTree(TreeOf(v, dirs), TreeOf(v1, dirs + {n}), depth, parent, n, name);
      MadeNoFile(TreeOf(v, dirs), TreeOf(v1, dirs + {n}), parent, n, name);
      OneLinkStays(TreeOf(v, dirs), TreeOf(v1, dirs + {n}));
      NumbersMade(v, v1, ibits, dirs, parent, n, name);
      RootKept(v, v1, dirs, depth, parent, n, name);
      MadeReadable(v, v1, itable, it1, it2, table, dirs, parent, n, name);
      FreeSlotsStay(v, v1, itable, it1, table, parent, InodeBytes(OnDisk(v1, parent)));
      FreeSlotsStay(v1, v1, it1, it2, table, n, InodeBytes(OnDisk(v1, n)));
      MadeOwn(v, v1, ibits, itable, it1, it2, table, dirs, parent, n);
    }
  }

  lemma MadeOwn(v: Vol, v1: Vol, ibits: seq<bool>, itable: map<nat, Sector>, it1: map<nat, Sector>, it2: map<nat, Sector>,
                table: nat, dirs: set<nat>, parent: nat, n: nat)
    requires dirs <= v.inodes.Keys && NumbersOk(v, ibits, dirs) && SlotsOwn(v, itable, table) && HighSlotsOk(itable, table) && HighSlotsOk(it1, table)
    requires parent in v.inodes && n < INODES && v1.inodes.Keys == v.inodes.Keys + {n} && n !in v.inodes
    requires forall d :: d in v.inodes && d != parent ==> v1.inodes[d] == v.inodes[d]
    requires Storable(OnDisk(v1, parent)) && Storable(OnDisk(v1, n))
    requires Synced(itable, it1, table, OnDisk(v1, parent)) && Synced(it1, it2, table, OnDisk(v1, n))
    ensures SlotsOwn(v1, it2, table)
  {
    hide SlotsOwn, HighSlotsOk, Storable, Synced, Listing;
    SlotsOwnStay(v, WithInode(v, v1, parent), itable, it1, table, parent);
    SlotsOwnStay(WithInode(v, v1, parent), v1, it1, it2, table, n);
  }

  lemma SlotReadable(v: Vol, itable: map<nat, Sector>, table: nat, n: nat)
    requires n in v.inodes && n < 256 && InodeOf(InodeTable.Stored(itable, table, n % 256)) == OnDisk(v, n)
    ensures Readable(v, itable, table, n)
  {
    hide InodeOf;
    assert n % 256 == n;
  }

  lemma HighUnreadable(v: Vol, itable: map<nat, Sector>, table: nat, n: nat)
    requires HighSlotsOk(itable, table) && n in v.inodes && 0 < n < INODES
    ensures n >= 256 ==> !Readable(v, itable, table, n) && InodeOf(InodeTable.Stored(itable, table, n)).no != n
  {
    hide InodeOf;
  }

  /** The number that inode_open reads back for the directory just made is its own, as inode_release
      asserts, if and only if it is below 256. */
  lemma ReadBackIff(v: Vol, v1: Vol, ibits: seq<bool>, itable: map<nat, Sector>, it1: map<nat, Sector>, it2: map<nat, Sector>,
                    table: nat, dirs: set<nat>, depth: map<nat, nat>, parent: nat, n: nat, name: string)
    requires MountOk(v, ibits, itable, table, dirs, depth) && parent in dirs && n < |ibits| && !ibits[n]
    requires NewEntryName(Listing(v, parent), name) && MadeDir(v, v1, parent, n, name) && Roomy(v, parent)
    requires n in v1.inodes && parent in v1.inodes
    requires Synced(itable, it1, table, OnDisk(v1, parent)) && Synced(it1, it2, table, OnDisk(v1, n))
    ensures InodeOf(InodeTable.Stored(it2, table, n)).no == n <==> n < 256
  {
    hide MountOk, OwnOk, DirModel.DirOk, Listing, MadeDir, Roomy, Made, Synced, InodeOf, NewEntryName;
    MkdirMounts(v, v1, ibits, itable, it1, it2, table, dirs, depth, parent, n, name);
  }

  lemma NewNameIs(v: Vol, dirs: set<nat>, parent: nat, name: string)
    requires dirs <= v.inodes.Keys && parent in dirs && NewEntryName(Listing(v, parent), name)
    ensures NewName(TreeOf(v, dirs), parent, name)
  {
    hide Listing;
  }

  lemma RootKept(v: Vol, v1: Vol, dirs: set<nat>, depth: map<nat, nat>, parent: nat, n: nat, name: string)
    requires DirsOk(v, dirs) && RootsFirst(v) && parent in dirs && MadeDir(v, v1, parent, n, name)
    ensures RootsFirst(v1)
  {
    hide OwnOk, DirModel.DirOk, MadeDir, Block;
    StartPositive(v);
    MadeFirst(v, v1, parent, n, name);
    MadeStart(v, v1, parent, n, name);
  }

  lemma StartPositive(v: Vol)
    requires OwnOk(v)
    ensures v.start > 0
  {
  }

  lemma MadeStart(v: Vol, v1: Vol, parent: nat, n: nat, name: string)
    requires MadeDir(v, v1, parent, n, name)
    ensures v1.start == v.start
  {
    var mid :| NewDir(v, mid, n, parent) && Inserted(mid, v1, parent, Entry(name, n, Directory));
    InsertedStart(mid, v1, parent, Entry(name, n, Directory));
  }

  lemma InsertedStart(v: Vol, v1: Vol, a: nat, e: Entry)
    requires Inserted(v, v1, a, e)
    ensures v1.start == v.start
  {
    hide Block, Here, EntryBytes, Patch, FullUpTo;
  }

  lemma MadeDirs(v: Vol, v1: Vol, dirs: set<nat>, parent: nat, n: nat, name: string)
    requires DirsOk(v, dirs) && parent in dirs && n !in v.inodes && CanAdd(v, parent, Entry(name, n, Directory)) && Roomy(v, parent)
    requires MadeDir(v, v1, parent, n, name)
    ensures DirsOk(v1, dirs + {n}) && v1.inodes.Keys == v.inodes.Keys + {n}
    ensures forall d :: d in v.inodes && d != parent ==> v1.inodes[d] == v.inodes[d]
  {
    hide OwnOk, DirModel.DirOk, Listing, MadeDir, Roomy, Isolated, CanAdd;
    MadeDirKeeps(v, v1, parent, n, name);
    var mid :| Isolated(v, mid, n) && Isolated(mid, v1, parent);
    forall d | d in dirs && d != parent ensures DirModel.DirOk(v1, d) {
      DirStays(v, mid, n, d);
      DirStays(mid, v1, parent, d);
    }
    forall d | d in v.inodes && d != parent ensures v1.inodes[d] == v.inodes[d] {
      SameInode(v, mid, n, d);
      SameInode(mid, v1, parent, d);
    }
  }

  lemma SameInode(v: Vol, v1: Vol, a: nat, b: nat)
    requires Isolated(v, v1, a) && b in v.inodes && b != a
    ensures b in v1.inodes && v1.inodes[b] == v.inodes[b]
  {
  }

  lemma MadeReadable(v: Vol, v1: Vol, itable: map<nat, Sector>, it1: map<nat, Sector>, it2: map<nat, Sector>,
                     table: nat, dirs: set<nat>, parent: nat, n: nat, name: string)
    requires dirs <= v.inodes.Keys && dirs + {n} <= v1.inodes.Keys && n < 256 && n !in dirs && parent in dirs
    requires forall d :: d in dirs ==> d < 256 && Readable(v, itable, table, d)
    requires forall d :: d in dirs && d != parent ==> v1.inodes[d] == v.inodes[d]
    requires Storable(OnDisk(v1, parent)) && Storable(OnDisk(v1, n))
    requires Synced(itable, it1, table, OnDisk(v1, parent)) && Synced(it1, it2, table, OnDisk(v1, n))
    ensures forall d :: d in dirs + {n} ==> d < 256 && Readable(v1, it2, table, d)
  {
    hide InodeOf, Synced, Storable;
    forall d | d in dirs + {n} ensures d < 256 && Readable(v1, it2, table, d) {
      SyncReadable(v1, itable, it1, table, parent, d);
      SyncReadable(v1, it1, it2, table, n, d);
    }
  }

  /** The entries left name only what is left. */
  lemma NumbersLeft(v: Vol, v1: Vol, ibits: seq<bool>, dirs: set<nat>, depth: map<nat, nat>, parent: nat, c: nat)
    requires dirs <= v.inodes.Keys && NumbersOk(v, ibits, dirs) && v1.inodes.Keys == v.inodes.Keys - {c} && c in dirs && parent in dirs
    requires WellFormed(TreeOf(v, dirs), depth) && WellFormed(TreeOf(v1, dirs - {c}), depth)
    requires Removal(TreeOf(v, dirs), TreeOf(v1, dirs - {c}), parent, c)
    ensures NumbersOk(v1, ibits[c := false], dirs - {c})
  {
    hide Listing, WellFormed;
    var t, t1 := TreeOf(v, dirs), TreeOf(v1, dirs - {c});
    HasRoot(t, depth);
    forall d, e | d in dirs - {c} && e in Listing(v1, d) ensures e.ino < INODES && ibits[c := false][e.ino] {
      assert t1[d] == Listing(v1, d) && t[d] == Listing(v, d);
      KeptEntry(t, t1, parent, c, d, e);
      NotRemoved(t, t1, depth, c, d, e);
    }
  }

  lemma KeptEntry(t: Tree, t1: Tree, parent: nat, c: nat, d: nat, e: Entry)
    requires Removal(t, t1, parent, c) && d in t1 && e in t1[d]
    ensures d in t && e in t[d]
  {
    if d == parent && exists i :: 2 <= i < |t[parent]| && t[parent][i].ino == c {
      var p: nat, f: Entry :| p >= 2 && f.ino == c && InsertedAt(t1[parent], t[parent], p, f);
    }
  }

  lemma NotRemoved(t: Tree, t1: Tree, depth: map<nat, nat>, c: nat, d: nat, e: Entry)
    requires WellFormed(t, depth) && WellFormed(t1, depth) && c in t && c !in t1 && d in t && d in t1 && e in t[d] && e in t1[d]
    ensures e.ino != c
  {
    hide WellFormed;
    HasRoot(t1, depth);
    EntryKinds(t, depth, d, e);
    EntryKinds(t1, depth, d, e);
  }

  /** Directory entries name directories of the tree, others do not. */
  lemma EntryKinds(t: Tree, depth: map<nat, nat>, d: nat, e: Entry)
    requires WellFormed(t, depth) && d in t && e in t[d]
    ensures match e.kind case Directory => e.ino in t case Regular => e.ino !in t case Unknown => e.ino == 0
  {
    hide Listed, NoRepeats;
    assert Paths.DirOk(t, depth, d);
    var i :| 0 <= i < |t[d]| && t[d][i] == e;
    if i >= 2 { assert SlotOk(t, d, t[d][i]); }
  }

  lemma RmdirMounts(v: Vol, v1: Vol, ibits: seq<bool>, itable: map<nat, Sector>, it1: map<nat, Sector>, it2: map<nat, Sector>,
                    table: nat, dirs: set<nat>, depth: map<nat, nat>, parent: nat, c: nat)
    requires MountOk(v, ibits, itable, table, dirs, depth) && parent in dirs && c in dirs && c != 0 && parent != c
    requires Removed(v, v1, parent, c) && OwnOk(v1) && IsolatedTwo(v, v1, parent, c) && v1.inodes.Keys == v.inodes.Keys - {c}
    requires DirModel.DirOk(v1, parent) && Removal(TreeOf(v, dirs), TreeOf(v1, dirs - {c}), parent, c)
    requires WellFormed(TreeOf(v1, dirs - {c}), depth)
    requires Synced(itable, it1, table, OnDisk(v1, parent))
    requires Replaced(it1, it2, table, c, Zeros(INODE_BYTES))
    ensures MountOk(v1, ibits[c := false], it2, table, dirs - {c}, depth)
  {
    hide OwnOk, DirModel.DirOk, WellFormed, Listing, Removal, NumbersOk, HighSlotsOk, FreeSlotsOk, SlotsOwn, OneLink, Storable, InodeOf, InodeBytes, Block, Isolated, Removed, Replaced, Readable;
    NumbersLeft(v, v1, ibits, dirs, depth, parent, c);
    RemovalNoFile(TreeOf(v, dirs), TreeOf(v1, dirs - {c}), parent, c);
    OneLinkStays(TreeOf(v, dirs), TreeOf(v1, dirs - {c}));
    DirStorable(v1, parent);
    HighSlotsStay(itable, it1, table, OnDisk(v1, parent));
    HighSlotsErased(it1, it2, table, c);
    FreeSlotsStay(v, v, itable, it1, table, parent, InodeBytes(OnDisk(v1, parent)));
    FreeSlotsStay(v, v1, it1, it2, table, c, Zeros(INODE_BYTES));
    RemovedFirst(v, v1, parent, c);
    RemovedStart(v, v1, parent, c);
    var mid :| Isolated(v, mid, parent) && Isolated(mid, v1, c);
    forall d | d in dirs - {c} && d != parent ensures DirModel.DirOk(v1, d) {
      DirStays(v, mid, parent, d);
      DirStays(mid, v1, c, d);
    }
    forall d | d in v1.inodes && d != parent ensures v1.inodes[d] == v.inodes[d] {
      SameInode(v, mid, parent, d);
      SameInode(mid, v1, c, d);
    }
    LeftOwn(v, v1, ibits, itable, it1, it2, table, dirs, parent, c);
    forall d | d in dirs - {c} ensures d < 256 && Readable(v1, it2, table, d) {
      LeftReadable(v, v1, itable, it1, it2, table, parent, c, d);
    }
  }

  lemma LeftOwn(v: Vol, v1: Vol, ibits: seq<bool>, itable: map<nat, Sector>, it1: map<nat, Sector>, it2: map<nat, Sector>,
                table: nat, dirs: set<nat>, parent: nat, c: nat)
    requires dirs <= v.inodes.Keys && NumbersOk(v, ibits, dirs) && SlotsOwn(v, itable, table) && HighSlotsOk(itable, table)
    requires parent in v1.inodes && v1.inodes.Keys == v.inodes.Keys - {c}
    requires forall d :: d in v1.inodes && d != parent ==> v1.inodes[d] == v.inodes[d]
    requires Storable(OnDisk(v1, parent)) && Synced(itable, it1, table, OnDisk(v1, parent)) && Replaced(it1, it2, table, c, Zeros(INODE_BYTES))
    ensures SlotsOwn(v1, it2, table)
  {
    hide SlotsOwn, HighSlotsOk, Storable, Synced, Replaced, Listing;
    SlotsOwnStay(v, WithInode(v, v1, parent), itable, it1, table, parent);
    SlotsOwnErased(WithInode(v, v1, parent), v1, it1, it2, table, c);
  }

  lemma LeftReadable(v: Vol, v1: Vol, itable: map<nat, Sector>, it1: map<nat, Sector>, it2: map<nat, Sector>,
                     table: nat, parent: nat, c: nat, d: nat)
    requires Readable(v, itable, table, d) && d in v1.inodes && d != c && parent in v1.inodes && parent < 256
    requires d != parent ==> v1.inodes[d] == v.inodes[d]
    requires Storable(OnDisk(v1, parent)) && Replaced(it1, it2, table, c, Zeros(INODE_BYTES))
    requires Synced(itable, it1, table, OnDisk(v1, parent))
    ensures Readable(v1, it2, table, d)
  {
    hide InodeOf, Synced, Storable, Replaced;
    SyncReadable(v1, itable, it1, table, parent, d);
    ReplacedOne(it1, it2, table, c, Zeros(INODE_BYTES), d);
  }

  lemma RemovedStart(v: Vol, v1: Vol, parent: nat, c: nat)
    requires Removed(v, v1, parent, c)
    ensures v1.start == v.start
  {
    hide Block, Here, Patch, Others, Owned;
  }

  /** In a well-formed tree the parent's blocks list the child. */
  lemma ListsChild(v: Vol, dirs: set<nat>, depth: map<nat, nat>, parent: nat, c: nat)
    requires dirs <= v.inodes.Keys && parent in dirs && WellFormed(TreeOf(v, dirs), depth) && c in dirs && c != 0
    requires |TreeOf(v, dirs)[c]| >= 2 && TreeOf(v, dirs)[c][1].ino == parent
    ensures Lists(v, parent, c)
  {
    hide Listing, WellFormed, SlotOk;
    var p, i := ChildSlot(TreeOf(v, dirs), depth, c);
    assert Listing(v, parent)[i].ino == c;
  }

  lemma NoRoomNoOrder(v: Vol, v1: Vol, parent: nat, n: nat, name: string)
    requires OwnOk(v) && DirModel.DirOk(v, parent) && CanAdd(v, parent, Entry(name, n, Directory)) && MadeDir(v, v1, parent, n, name)
    ensures DirModel.DirOk(v1, parent) <==> Roomy(v, parent)
  {
    hide OwnOk, DirModel.DirOk, NewDir, Inserted, Listing, Proper, Fits, Roomy;
    DirHasInode(v, parent);
    var mid :| NewDir(v, mid, n, parent) && Inserted(mid, v1, parent, Entry(name, n, Directory));
    FreshNumber(v, mid, n, parent);
    NewDirKeeps(v, mid, n, parent);
    DirStays(v, mid, n, parent);
    RoomStays(v, mid, n, parent);
    InsertOrderIff(mid, v1, parent, Entry(name, n, Directory));
  }

  /** A partition just formatted. */
  lemma FormattedMount(v: Vol, ibits: seq<bool>, itable: map<nat, Sector>, table: nat)
    requires OwnOk(v) && v.inodes == map[0 := Inode(2 * ENTRY, [v.start] + seq(12, _ => 0))] && Read(v.disk, v.start) == DotsBlock(0, 0)
    requires |ibits| == INODES && (forall n: nat :: n < INODES ==> (ibits[n] <==> n == 0)) && Synced(map[], itable, table, OnDisk(v, 0))
    ensures MountOk(v, ibits, itable, table, {0}, map[0 := 0]) && TreeOf(v, {0}) == RootTree()
  {
    hide OwnOk, DirModel.DirOk, Block, DotsBlock, Listing, InodeOf, Synced, Storable, WellFormed;
    FsRuns.FormattedBlocks(v);
    StartPositive(v);
    NewDirOk(v, 0, 0);
    assert TreeOf(v, {0}) == RootTree();
    DirTree.RootOk();
    DirStorable(v, 0);
    EmptyTable(table);
    HighSlotsStay(map[], itable, table, OnDisk(v, 0));
    assert Replaced(map[], itable, table, 0, InodeBytes(OnDisk(v, 0))) by { RootSynced(v, itable, table); }
    FreeSlotsStay(v, v, map[], itable, table, 0, InodeBytes(OnDisk(v, 0)));
    SyncReadable(v, map[], itable, table, 0, 0);
  }

  lemma RootSynced(v: Vol, itable: map<nat, Sector>, table: nat)
    requires 0 in v.inodes && Synced(map[], itable, table, OnDisk(v, 0))
    ensures Replaced(map[], itable, table, 0, InodeBytes(OnDisk(v, 0)))
  {
    hide Replaced, InodeBytes;
  }

  lemma EmptyTable(table: nat)
    ensures HighSlotsOk(map[], table) && forall v :: FreeSlotsOk(v, map[], table)
  {
    hide InodeOf;
    ZeroInode();
    forall n: nat ensures InodeTable.Stored(map[], table, n) == Zeros(INODE_BYTES) {}
  }

  /** The look-up in the blocks is the look-up in the tree. */
  lemma LookupIs(v: Vol, dirs: set<nat>, d: nat, name: string)
    requires DirsOk(v, dirs) && d in dirs && name != ""
    ensures ByName(From(v, d, 0), name) == ByName(Slots(TreeOf(v, dirs), d), name)
  {
    hide OwnOk, From, ByName, Listing, ListOk, DotsOk, NoIdleBlock, Block;
    TreeLookups(v, dirs, d, name, 1);
  }

  /** Where a walk stands after an entry has been found. */
  lemma WalkOn(t: Tree, at: nat, parent: nat, last: nat, names: seq<string>, used: nat, e: Entry)
    requires used < 512 && names != [] && ByName(Slots(t, at), names[0]) == Some(e) && e.kind != Unknown
    ensures e.kind == Regular ==> WalkFrom(t, at, parent, last, names, used) == Hit(e.ino, Regular, at)
    ensures e.kind == Directory ==>
              WalkFrom(t, at, parent, last, names, used) == WalkFrom(t, e.ino, at, e.ino, names[1..], used + 1 + |names[0]|)
  {
  }

  lemma FoundDir(t: Tree, depth: map<nat, nat>, d: nat, name: string)
    requires WellFormed(t, depth) && d in t && name != ""
    requires var found := ByName(Slots(t, d), name); found.Some? && found.value.kind != Regular
    ensures var e := ByName(Slots(t, d), name).value; e.kind == Directory && e.ino in t
  {
    hide WellFormed;
    DirEntriesInside(t, depth, d, ByName(t[d], name).value);
  }

  function Deeper(depth: map<nat, nat>, parent: nat, n: nat): map<nat, nat> {
    if parent in depth then depth[n := depth[parent] + 1] else depth
  }

  /** All that sys_mkdir achieves. */
  lemma MkdirDone(v: Vol, v1: Vol, ibits: seq<bool>, itable: map<nat, Sector>, it1: map<nat, Sector>, it2: map<nat, Sector>,
                  table: nat, dirs: set<nat>, depth: map<nat, nat>, parent: nat, n: nat, name: string)
    requires MountOk(v, ibits, itable, table, dirs, depth) && parent in dirs && n < |ibits| && !ibits[n]
    requires NewEntryName(Listing(v, parent), name) && MadeDir(v, v1, parent, n, name)
    requires n in v1.inodes && parent in v1.inodes
    requires Synced(itable, it1, table, OnDisk(v1, parent)) && Synced(it1, it2, table, OnDisk(v1, n))
    ensures MountOk(v1, ibits[n := true], it2, table, dirs + {n}, Deeper(depth, parent, n)) <==> n < 256 && Roomy(v, parent)
    ensures Roomy(v, parent) ==>
              && dirs + {n} <= v1.inodes.Keys && Made(TreeOf(v, dirs), TreeOf(v1, dirs + {n}), parent, n, name)
              && InodeOf(InodeTable.Stored(it2, table, n % 256)) == OnDisk(v1, n)
              && (Readable(v1, it2, table, n) <==> n < 256)
  {
    hide OwnOk, DirModel.DirOk, WellFormed, Listing, MadeDir, Roomy, Made, NumbersOk, HighSlotsOk, FreeSlotsOk, SlotsOwn, OneLink, Synced, InodeOf, NewEntryName, Readable, RootsFirst, Unused;
    FreeNumber(v, ibits, dirs, depth, n);
    NameFits(v, parent, n, name);
    NoRoomNoOrder(v, v1, parent, n, name);
    if Roomy(v, parent) {
      MkdirMounts(v, v1, ibits, itable, it1, it2, table, dirs, depth, parent, n, name);
    }
  }

  /** All that sys_rmdir achieves when it removes directory r.ino. */
  lemma RmdirDone(v: Vol, v1: Vol, ibits: seq<bool>, itable: map<nat, Sector>, it1: map<nat, Sector>, it2: map<nat, Sector>,
                  table: nat, dirs: set<nat>, depth: map<nat, nat>, path: string, junk: nat, ok: bool)
    requires MountOk(v, ibits, itable, table, dirs, depth) && (Components(path) != [] || path == "/") && Removes(TreeOf(v, dirs), path, junk)
    requires var r := SearchFile(TreeOf(v, dirs), path, junk);
             && r.ino != 0 && r.parent in dirs && Removed(v, v1, r.parent, r.ino) && OwnOk(v1)
             && IsolatedTwo(v, v1, r.parent, r.ino) && v1.inodes.Keys == v.inodes.Keys - {r.ino}
             && (r.parent != r.ino ==> DirModel.DirOk(v1, r.parent) && EntryGone(v, v1, r.parent, r.ino))
             && (ok <==> Lists(v, r.parent, r.ino)) && (ok ==> r.parent != r.ino && Synced(itable, it1, table, OnDisk(v1, r.parent)))
             && Replaced(it1, it2, table, r.ino, Zeros(INODE_BYTES))
    ensures var r := SearchFile(TreeOf(v, dirs), path, junk);
            && RmdirStep(TreeOf(v, dirs), TreeOf(v1, dirs - {r.ino}), path, junk)
            && (MountOk(v1, ibits[r.ino := false], it2, table, dirs - {r.ino}, depth) <==> Last(path) != ".")
  {
    hide MountOk, DirsOk, SearchFile, Components, OwnOk, DirModel.DirOk, WellFormed, Listing, Synced, Replaced, Removal, Removed, IsolatedTwo, InsertedAt, EntryGone, RootsFirst, Lists;
    MountFacts(v, ibits, itable, table, dirs, depth);
    var t, r := TreeOf(v, dirs), SearchFile(TreeOf(v, dirs), path, junk);
    FoundInside(t, depth, path, junk);
    RmdirIsRemoval(v, v1, dirs, r.parent, r.ino);
    RmdirIff(t, TreeOf(v1, dirs - {r.ino}), depth, path, junk);
    if Last(path) == "." {
      NotMounted(v1, ibits[r.ino := false], it2, table, dirs - {r.ino});
    } else {
      ListsChild(v, dirs, depth, r.parent, r.ino);
      RmdirMounts(v, v1, ibits, itable, it1, it2, table, dirs, depth, r.parent, r.ino);
    }
  }

  lemma NotMounted(v: Vol, ibits: seq<bool>, itable: map<nat, Sector>, table: nat, dirs: set<nat>)
    requires dirs <= v.inodes.Keys && !exists depth :: WellFormed(TreeOf(v, dirs), depth)
    ensures forall depth :: !MountOk(v, ibits, itable, table, dirs, depth)
  {
    hide WellFormed, DirsOk, NumbersOk, HighSlotsOk, FreeSlotsOk, SlotsOwn, OneLink, RootsFirst;
  }

  lemma WalkEnds(t: Tree, at: nat, parent: nat, last: nat, names: seq<string>, used: nat)
    ensures names == [] ==> WalkFrom(t, at, parent, last, names, used) == Hit(last, Directory, parent)
    ensures names != [] && used >= 512 ==> WalkFrom(t, at, parent, last, names, used) == Stop(Stopped("fs/fs.c", 310))
    ensures names != [] && used < 512 && ByName(Slots(t, at), names[0]) == None ==> WalkFrom(t, at, parent, last, names, used) == Missing(at)
  {
  }

  lemma MountFacts(v: Vol, ibits: seq<bool>, itable: map<nat, Sector>, table: nat, dirs: set<nat>, depth: map<nat, nat>)
    requires MountOk(v, ibits, itable, table, dirs, depth)
    ensures DirsOk(v, dirs) && WellFormed(TreeOf(v, dirs), depth) && 0 in dirs && RootsFirst(v) && |ibits| == INODES
    ensures OwnOk(v) && dirs <= v.inodes.Keys && (forall d :: d in dirs ==> DirModel.DirOk(v, d) && d < 256)
  {
    hide OwnOk, DirModel.DirOk, WellFormed, Listing;
    HasRoot(TreeOf(v, dirs), depth);
  }

  lemma RootMarked(v: Vol)
    requires OwnOk(v) && RootsFirst(v)
    ensures Volume.InUse(v, v.start)
  {
  }

  lemma MadeKeys(v: Vol, v1: Vol, parent: nat, n: nat, name: string)
    requires OwnOk(v) && MadeDir(v, v1, parent, n, name)
    ensures v1.inodes.Keys == v.inodes.Keys + {n} && parent in v1.inodes
  {
    hide OwnOk, NewDir, Inserted, Listing, DirModel.DirOk;
    var mid :| NewDir(v, mid, n, parent) && Inserted(mid, v1, parent, Entry(name, n, Directory));
    NewDirKeeps(v, mid, n, parent);
    InsertedOwn(mid, v1, parent, Entry(name, n, Directory));
  }

  /** A directory found by a path, and the directory left open. */
  lemma FoundInside(t: Tree, depth: map<nat, nat>, path: string, junk: nat)
    requires WellFormed(t, depth) && (Components(path) != [] || path == "/")
    requires var r := SearchFile(t, path, junk); r.Hit? && r.kind == Directory
    ensures var r := SearchFile(t, path, junk);
            && r.ino in t && r.parent in t && |t[r.ino]| >= 2
            && (Last(path) == "." ==> r.ino == r.parent)
            && (Last(path) != "." && |t[r.ino]| == 2 && r.ino != 0 ==> t[r.ino][1].ino == r.parent && r.ino != r.parent)
  {
    hide WellFormed, Components;
    if Components(path) != [] {
      ParentIff(t, depth, path, junk);
      Upwards(t, depth, SearchFile(t, path, junk).ino);
    } else {
      HasRoot(t, depth);
      DotsFound(t, depth, 0);
    }
  }

  /** dir_is_empty in the tree. */
  lemma EmptyExactTree(v: Vol, dirs: set<nat>, d: nat)
    requires DirsOk(v, dirs) && d in dirs
    ensures v.inodes[d].size == 2 * ENTRY <==> |TreeOf(v, dirs)[d]| == 2
    ensures v.inodes[d].size == 2 * ENTRY ==> forall k :: 1 <= k < 13 ==> v.inodes[d].sectors[k] == 0
  {
    hide OwnOk, DirModel.DirOk, Listing;
    DirShape(v, d);
    EmptyExact(v, d);
  }

  lemma NewNumber(v: Vol, ibits: seq<bool>, itable: map<nat, Sector>, table: nat, dirs: set<nat>, depth: map<nat, nat>, parent: nat, n: nat, name: string)
    requires MountOk(v, ibits, itable, table, dirs, depth) && parent in dirs && n < |ibits| && !ibits[n] && NewEntryName(Listing(v, parent), name)
    ensures n !in v.inodes && n < INODES && parent < U32 && Fits(Entry(name, n, Directory))
  {
    hide OwnOk, DirModel.DirOk, WellFormed, Listing, RootsFirst, HighSlotsOk, FreeSlotsOk, SlotsOwn, OneLink;
    FreeNumber(v, ibits, dirs, depth, n);
  }

  /** An empty directory does not list itself. */
  lemma NotItself(v: Vol, dirs: set<nat>, c: nat)
    requires dirs <= v.inodes.Keys && c in dirs && |TreeOf(v, dirs)[c]| == 2
    ensures !Lists(v, c, c)
  {
    hide Listing;
  }

  lemma RemovesIs(t: Tree, path: string, junk: nat)
    requires Components(path) != [] || path == "/"
    ensures var r := SearchFile(t, path, junk);
            && (Removes(t, path, junk) <==> r.Hit? && r.kind == Directory && r.ino in t && |t[r.ino]| == 2)
            && (!Removes(t, path, junk) ==> RmdirStep(t, t, path, junk))
  {
  }

  /** delete_dir_entry would not return. */
  ghost predicate HangsOn(v: Vol, parent: nat, c: nat) {
    parent in v.inodes && AloneBehind(v, parent, c)
  }

  /** The working directory becomes what the search found, exactly when that is a directory. */
  predicate ChangedTo(r: Search, was: nat, now: nat, ok: bool, halt: Halt) {
    match r
    case Stop(at) => halt == at && now == was
    case Hit(n, k, _) => halt == Live && ok == (k == Directory) && now == if k == Directory then n else was
    case Missing(_) => halt == Live && !ok && now == was
  }

  lemma TreeKeys(v: Vol, dirs: set<nat>)
    requires dirs <= v.inodes.Keys
    ensures TreeOf(v, dirs).Keys == dirs
  {
  }

  lemma SameUnlessStopped(t: Tree, path: string, junk: nat, stale: string)
    ensures var r := SearchFrom(t, path, junk, stale); r.Stop? || r == SearchFile(t, path, junk)
  {
    hide Components, Walk, WalkFrom, Overrun;
    OverrunIff(t, 0, 0, junk, Components(path), |stale|);
  }

  lemma RemovedIsReadable(v: Vol, ibits: seq<bool>, itable: map<nat, Sector>, table: nat, dirs: set<nat>, depth: map<nat, nat>, n: nat)
    requires MountOk(v, ibits, itable, table, dirs, depth) && n in dirs
    ensures n < INODES && InodeOf(InodeTable.Stored(itable, table, n)).no == n
  {
    hide DirsOk, WellFormed, NumbersOk, HighSlotsOk, FreeSlotsOk, SlotsOwn, OneLink, RootsFirst, InodeOf;
    assert Readable(v, itable, table, n);
  }

  /** The next name of what is left of the path, none at the end. */
  method NextName(rest: Option<string>) returns (name: string, rest1: Option<string>)
    ensures Components(rest.UnwrapOr([])) == (if name == [] then [] else [name] + Components(rest1.UnwrapOr([])))
    ensures name == [] ==> rest1 == None
  {
    hide Components;
    NoNames();
    name, rest1 := [], None;
    if rest.Some? {
      name, rest1 := PathParse(rest.value);
    }
  }

  lemma HasDepth(t: Tree, depth: map<nat, nat>)
    requires WellFormed(t, depth)
    ensures t.Keys <= depth.Keys
  {
  }

  /** One level of the climb. */
  lemma Level(t: Tree, depth: map<nat, nat>, child: nat, suffix: seq<string>) returns (more: seq<string>)
    requires WellFormed(t, depth) && child in t && child != 0 && |Join(PathOf(t, depth, child) + suffix)| < 512
    ensures |t[child]| >= 2 && Parent(t, child) in t && child in depth && Parent(t, child) in depth && depth[Parent(t, child)] < depth[child]
    ensures NameOf(ByIno(Slots(t, Parent(t, child)), child)).Some?
    ensures var name := NameOf(ByIno(Slots(t, Parent(t, child)), child)).value;
            && PathOf(t, depth, child) + suffix == PathOf(t, depth, Parent(t, child)) + more
            && Join(Reversed(more)) == Join(Reversed(suffix)) + "/" + name && |Join(Reversed(more))| < 512
  {
    hide Paths.DirOk, Join, Reversed, Name, ByIno;
    var e := ChildFound(t, depth, child);
    HasDepth(t, depth);
    more := OneMore(suffix, e.name);
    assert PathOf(t, depth, child) + suffix == PathOf(t, depth, Parent(t, child)) + more;
    JoinAppend(PathOf(t, depth, Parent(t, child)), more);
    ReversedLength(more);
  }

  function NameOf(e: Option<Entry>): Option<string> {
    match e case Some(x) => Some(x.name) case None => None
  }

  /** What get_parent_dir_inode_nr finds on the disk. */
  lemma FirstSector(v: Vol, ibits: seq<bool>, itable: map<nat, Sector>, table: nat, dirs: set<nat>, depth: map<nat, nat>, n: nat)
    requires MountOk(v, ibits, itable, table, dirs, depth) && n < INODES && (n in dirs || n !in v.inodes)
    ensures n !in dirs ==> InodeOf(InodeTable.Stored(itable, table, n)).sectors[0] < v.start
    ensures n in dirs ==>
              var x, l := InodeOf(InodeTable.Stored(itable, table, n)).sectors[0], TreeOf(v, dirs)[n];
              && x >= v.start && |l| >= 2 && SlotsOf(Read(v.disk, x))[1] == l[1] && l[1].ino < 4096 && l[1].kind == Directory
  {
    hide WellFormed, InodeOf, OwnOk, DirModel.DirOk, Listing, SlotsOf, Block, NumbersOk, HighSlotsOk, SlotsOwn;
    StartPositive(v);
    ZeroInode();
    if n in dirs {
      assert Readable(v, itable, table, n);
      DotsSector(v, n);
      InTree(TreeOf(v, dirs), depth, n);
    }
  }

  lemma InTree(t: Tree, depth: map<nat, nat>, n: nat)
    requires WellFormed(t, depth) && n in t
    ensures |t[n]| >= 2 && t[n][1].ino in t && t[n][1].ino < 4096 && t[n][1].kind == Directory
  {
    assert Paths.DirOk(t, depth, n);
    assert Paths.DirOk(t, depth, t[n][1].ino);
  }

  lemma DotsSector(v: Vol, n: nat)
    requires OwnOk(v) && DirModel.DirOk(v, n)
    ensures var x := v.inodes[n].sectors[0]; x >= v.start && |Listing(v, n)| >= 2 && SlotsOf(Read(v.disk, x))[1] == Listing(v, n)[1]
  {
    hide Listing, SlotsOf, CleanOk, ListOk, NoIdleBlock, IndexUsed;
    assert Block(v, n, 0) == v.inodes[n].sectors[0];
    FirstTwo(v, n);
    BlockInRange(v, n, 0);
  }

  lemma NumberIs(v: Vol, dirs: set<nat>, d: nat, ino: nat)
    requires DirsOk(v, dirs) && d in dirs && ino != 0
    ensures ByIno(From(v, d, 0), ino) == ByIno(Slots(TreeOf(v, dirs), d), ino)
  {
    hide OwnOk, From, ByIno, Listing, ListOk, DotsOk, NoIdleBlock, Block;
    TreeLookups(v, dirs, d, ".", ino);
  }

  lemma NumberStep(v: Vol, a: nat, k: nat, ino: nat)
    requires a in v.inodes && k < BLOCKS
    ensures ByIno(From(v, a, k), ino) == if ByIno(Here(v, a, k), ino).Some? then ByIno(Here(v, a, k), ino) else ByIno(From(v, a, k + 1), ino)
    ensures Here(v, a, k) == [] ==> ByIno(Here(v, a, k), ino) == None
  {
    hide Here;
    ByInoAppend(Here(v, a, k), From(v, a, k + 1), ino);
  }

  lemma NumberEnd(v: Vol, a: nat, ino: nat)
    requires a in v.inodes
    ensures ByIno(From(v, a, BLOCKS), ino) == None
  {
  }

  class Mounted {
    const part: Partition
    const ibmap: ByteMap           // inode_bitmap
    const table: nat              // inode_table_lba
    var itable: map<nat, Sector>  // the sectors of the inode table
    ghost var dirs: set<nat>
    ghost var depth: map<nat, nat>

    ghost predicate Valid()
      reads this, part, part.bmap.bits, ibmap.bits
    {
      part.bmap.bits != ibmap.bits && dirs <= part.inodes.Keys && MountOk(part.View(), ibmap.Bits(), itable, table, dirs, depth)
    }

    /** partition_format and mount_partition. */
    constructor (dataStart: nat, bitmapBytes: nat, bitLen: nat, tableStart: nat)
      requires 0 < dataStart && 0 < bitmapBytes && 8 <= bitLen <= 8 * bitmapBytes && dataStart + 8 * bitmapBytes <= U32
      ensures Valid() && dirs == {0} && TreeOf(part.View(), dirs) == RootTree()
      ensures fresh(part) && fresh(part.bmap.bits) && fresh(ibmap.bits)
    {
      hide OwnOk, MountOk, DotsBlock, Synced;
      part := new Partition(dataStart, bitmapBytes, bitLen);
      ibmap := new ByteMap(512);
      table, dirs, depth := tableStart, {0}, map[0 := 0];
      new;
      ibmap.Set(0, true);
      itable := InodeSync(map[], table, DiskInode(0, part.inodes[0].size, part.inodes[0].sectors));
      FormattedMount(part.View(), ibmap.Bits(), itable, table);
    }

    /** inode_bitmap_alloc: the first free number, or the stop in bitmap_scan. */
    method InodeAlloc() returns (n: nat, halt: Halt)
      modifies ibmap.bits
      ensures halt == if Full(old(ibmap.Bits())) then Stopped("lib/kernel/bitmap.c", 33) else Live
      ensures halt == Live ==>
                && FirstFit(old(ibmap.Bits()), 1) == Some(n) && n < |old(ibmap.Bits())| && !old(ibmap.Bits())[n]
                && ibmap.Bits() == old(ibmap.Bits())[n := true]
    {
      var i: int;
      i, halt := ibmap.Scan(1);
      if halt != Live {
        return 0, halt;
      }
      OneBit(ibmap.Bits());
      ibmap.Set(i, true);
      n := i;
    }

    /** The parent's inode and then the new one. */
    method WriteBack(parent: nat, n: nat) returns (ghost it1: map<nat, Sector>)
      requires parent in part.inodes && n in part.inodes
      modifies this`itable
      ensures Synced(old(itable), it1, table, OnDisk(part.View(), parent)) && Synced(it1, itable, table, OnDisk(part.View(), n))
    {
      hide Synced, InodeBytes;
      itable := InodeSync(itable, table, DiskInode(parent, part.inodes[parent].size, part.inodes[parent].sectors));
      it1 := itable;
      itable := InodeSync(itable, table, DiskInode(n, part.inodes[n].size, part.inodes[n].sectors));
    }

    /** sys_mkdir once the path search has found the parent and not the name.  The new directory can
        be opened afterwards exactly when its number is below 256, and everything stays in order
        exactly when, besides, the parent had room. */
    method SysMkdir(parent: nat, name: string) returns (n: nat, halt: Halt)
      requires Valid() && parent in dirs && NewEntryName(Listing(part.View(), parent), name)
      modifies this`itable, this`dirs, this`depth, part`disk, part`inodes, part.bmap.bits, ibmap.bits
      ensures halt != Live ==> part.NoSpace(halt) || (halt == Stopped("lib/kernel/bitmap.c", 33) && Full(old(ibmap.Bits())))
      ensures halt == Live ==>
                && FirstFit(old(ibmap.Bits()), 1) == Some(n) && MadeDir(old(part.View()), part.View(), parent, n, name)
                && dirs == old(dirs) + {n} && (Valid() <==> n < 256 && old(Roomy(part.View(), parent)))
      ensures halt == Live && old(Roomy(part.View(), parent)) ==>
                && dirs <= part.inodes.Keys && Made(old(TreeOf(part.View(), dirs)), TreeOf(part.View(), dirs), parent, n, name)
                && InodeOf(InodeTable.Stored(itable, table, n % 256)) == OnDisk(part.View(), n)
                && (Readable(part.View(), itable, table, n) <==> n < 256)
    {
      hide MountOk, DirsOk, OwnOk, DirModel.DirOk, WellFormed, Listing, MadeDir, Roomy, Made, Synced, InodeOf, NewEntryName, Readable, FirstFit, Full, InodeBytes, RootsFirst, Writable, TreeOf, Deeper, InodeTable.Stored, NewDir;
      ghost var v, ibits, it := part.View(), ibmap.Bits(), itable;
      MountFacts(v, ibits, it, table, dirs, depth);
      n, halt := InodeAlloc();
      if halt != Live {
        return;
      }
      NewNumber(v, ibits, it, table, dirs, depth, parent, n, name);
      RootMarked(v);
      halt := Mkdir(part, parent, n, name);
      if halt != Live {
        return;
      }
      MadeKeys(v, part.View(), parent, n, name);
      ghost var it1 := WriteBack(parent, n);
      MkdirDone(v, part.View(), ibits, it, it1, itable, table, dirs, depth, parent, n, name);
      dirs, depth := dirs + {n}, Deeper(depth, parent, n);
    }

    /** search_dir_entry in a directory of the tree: what it finds is a file or a directory of the tree. */
    method LookUp(d: nat, name: string) returns (found: Option<Entry>)
      requires Valid() && d in dirs && name != ""
      ensures found == ByName(Slots(TreeOf(part.View(), dirs), d), name)
      ensures found.Some? && found.value.kind != Regular ==> found.value.kind == Directory && found.value.ino in dirs
    {
      hide MountOk, DirsOk, WellFormed, ByName, From, Slots;
      ghost var v := part.View();
      MountFacts(v, ibmap.Bits(), itable, table, dirs, depth);
      LookupIs(v, dirs, d, name);
      found := SearchDirEntry(part, d, name);
      if found.Some? && found.value.kind != Regular { FoundDir(TreeOf(v, dirs), depth, d, name); }
    }

    /** The loop of search_file: one look-up in the blocks per name. */
    method WalkBlocks(path: string, junk: nat, stale: string) returns (r: Search)
      requires Valid() && (forall w :: w in Components(path) ==> |w| <= 15)
      ensures r == WalkFrom(TreeOf(part.View(), dirs), 0, 0, junk, Components(path), |stale|)
      ensures r.Stop? ==> r.at == Stopped("fs/fs.c", 310)
    {
      hide Components, MountOk, DirsOk, OwnOk, DirModel.DirOk, WellFormed, RootsFirst, ByName, WalkFrom, Slots, TreeOf, Name;
      ghost var t := TreeOf(part.View(), dirs);
      MountFacts(part.View(), ibmap.Bits(), itable, table, dirs, depth);
      var at, parent, last, searched := 0, 0, junk, stale;
      var name, rest := PathParse(path);
      ghost var todo := Components(path);
      while name != []
        invariant at in dirs && todo == (if name == [] then [] else [name] + Components(rest.UnwrapOr([])))
        invariant name == [] ==> rest == None
        invariant WalkFrom(t, 0, 0, junk, Components(path), |stale|) == WalkFrom(t, at, parent, last, todo, |searched|)
        decreases |todo|
      {
        ghost var used := |searched|;
        WalkEnds(t, at, parent, last, todo, used);
        if |searched| >= 512 {
          return Stop(Stopped("fs/fs.c", 310));
        }
        searched := searched + "/" + name;
        var found := LookUp(at, name);
        if found.None? {
          return Missing(at);
        }
        var e := found.value;
        WalkOn(t, at, parent, last, todo, used, e);
        if e.kind == Regular {
          return Hit(e.ino, Regular, at);
        }
        assert |searched| == used + 1 + |todo[0]| && todo[1..] == Components(rest.UnwrapOr([]));
        assert WalkFrom(t, 0, 0, junk, Components(path), |stale|) == WalkFrom(t, e.ino, at, e.ino, todo[1..], |searched|);
        at, parent, last, todo := e.ino, at, e.ino, todo[1..];
        name, rest := NextName(rest);
      }
      WalkEnds(t, at, parent, last, todo, |searched|);
      r := Hit(last, Directory, parent);
    }

    /** search_file through the blocks, with a record whose searched_path holds `stale`.  Longer names
        than 15 characters would overflow its name buffer. */
    method SearchPath(path: string, junk: nat, stale: string) returns (r: Search)
      requires Valid() && forall w :: w in Components(path) ==> |w| <= 15
      ensures r == SearchFrom(TreeOf(part.View(), dirs), path, junk, stale) && (r.Stop? ==> r.at != Live)
      ensures stale == "" ==> r == SearchFile(TreeOf(part.View(), dirs), path, junk)
    {
      hide Components, MountOk, WalkFrom, SearchFile, TreeOf;
      ClearRecord(TreeOf(part.View(), dirs), path, junk);
      if path == "/" || path == "/." || path == "/.." {
        return Hit(0, Directory, 0);
      }
      if !(|path| > 1 && path[0] == '/' && |path| < 512) {
        return Stop(Stopped("fs/fs.c", 294));
      }
      r := WalkBlocks(path, junk, stale);
    }

    /** sys_chdir. */
    method SysChdir(task: Task, path: string, junk: nat) returns (ok: bool, halt: Halt)
      requires Valid() && forall w :: w in Components(path) ==> |w| <= 15
      modifies task
      ensures ChangedTo(SearchFile(old(TreeOf(part.View(), dirs)), path, junk), old(task.cwd), task.cwd, ok, halt)
    {
      hide MountOk, SearchFile;
      ok, halt := false, Live;
      var r := SearchPath(path, junk, "");
      match r
      case Stop(at) => halt := at;
      case Missing(_) =>
      case Hit(n, k, _) =>
        if k == Directory {
          task.cwd := n;
          ok := true;
        }
    }

    /** get_parent_dir_inode_nr: the number in slot 1 of the directory's first sector.  A directory that
        has been removed has no sector any more. */
    method ParentNumber(child: nat) returns (n: nat, halt: Halt)
      requires Valid() && child < INODES && (child in dirs || child !in part.inodes)
      ensures halt == if child in dirs then Live else Stopped("fs/fs.c", 747)
      ensures child in dirs ==> |TreeOf(part.View(), dirs)[child]| >= 2 && n == TreeOf(part.View(), dirs)[child][1].ino
    {
      hide MountOk, TreeOf, InodeOf, SlotsOf, InodeTable.Stored;
      FirstSector(part.View(), ibmap.Bits(), itable, table, dirs, depth, child);
      var i := InodeRead(itable, table, child);
      if i.sectors[0] < part.start {
        return 0, Stopped("fs/fs.c", 747);
      }
      var e := SlotsOf(Read(part.disk, i.sectors[0]))[1];
      assert e.ino < 4096 && e.kind == Directory;  // ASSERT, line 752
      n, halt := e.ino, Live;
    }

    /** get_child_dir_name: the name in the first slot, in block order, with the number. */
    method NameIn(parent: nat, child: nat) returns (r: Option<string>)
      requires Valid() && parent in dirs && child != 0
      ensures r == NameOf(ByIno(Slots(TreeOf(part.View(), dirs), parent), child))
    {
      hide MountOk, DirsOk, OwnOk, DirModel.DirOk, WellFormed, RootsFirst, TreeOf, Slots, ByIno, From, SlotsOf, Block, Here;
      ghost var v := part.View();
      MountFacts(v, ibmap.Bits(), itable, table, dirs, depth);
      NumberIs(v, dirs, parent, child);
      var all := AllBlocks(part, parent);
      var k := 0;
      while k < BLOCKS
        invariant k <= BLOCKS && ByIno(From(v, parent, 0), child) == ByIno(From(v, parent, k), child)
      {
        NumberStep(v, parent, k, child);
        HereIs(v, parent, k);
        if all[k] != 0 {
          r := ChildName(SlotsOf(Read(part.disk, all[k])), child);
          if r.Some? {
            return;
          }
        }
        k := k + 1;
      }
      NumberEnd(v, parent, child);
      r := None;
    }

    /** The loop that climbs to the root, appending one name per level; 512 bytes are enough. */
    method Climb(n: nat) returns (rev: string)
      requires Valid() && n in dirs
      requires |Join(PathOf(TreeOf(part.View(), dirs), depth, n))| < 512
      ensures rev == Join(Reversed(PathOf(TreeOf(part.View(), dirs), depth, n)))
    {
      hide MountOk, DirsOk, OwnOk, DirModel.DirOk, RootsFirst, TreeOf, WellFormed, PathOf, Join, Reversed, ByIno, Slots;
      ghost var t := TreeOf(part.View(), dirs);
      TreeKeys(part.View(), dirs);
      MountFacts(part.View(), ibmap.Bits(), itable, table, dirs, depth);
      ghost var ws, suffix := PathOf(t, depth, n), [];
      var child := n;
      rev := "";
      EmptyJoin();
      NoneReversed();
      HasDepth(t, depth);
      while child != 0
        invariant child in dirs && child in depth && ws == PathOf(t, depth, child) + suffix && rev == Join(Reversed(suffix))
        decreases if child in depth then depth[child] else 0
      {
        suffix := Level(t, depth, child, suffix);
        var parent, halt := ParentNumber(child);
        var name := NameIn(parent, child);
        rev := rev + "/" + name.value;
        assert |rev| < 512;
        child := parent;
      }
      RootPath(t, depth);
      assert suffix == ws;
    }

    /** sys_getcwd.  The climb ends because every ".." is nearer to the root.  The bytes written, with
        the terminator, do not fit the caller's buffer exactly when the path is as long as it, or for
        the root in a buffer of less than two bytes. */
    method SysGetcwd(task: Task, size: nat) returns (r: CwdResult)
      requires Valid() && task.cwd < INODES && (task.cwd in dirs || task.cwd !in part.inodes)
      requires task.cwd in dirs ==> |Join(PathOf(TreeOf(part.View(), dirs), depth, task.cwd))| < 512
      ensures task.cwd !in dirs ==> r == CwdStop(Stopped("fs/fs.c", 747))
      ensures task.cwd == 0 ==> r == Cwd("/")
      ensures task.cwd in dirs && task.cwd != 0 ==>
                var path := Join(PathOf(TreeOf(part.View(), dirs), depth, task.cwd));
                r == if |path| <= size then Cwd(path) else CwdStop(Stopped("fs/fs.c", 831))
      ensures task.cwd in dirs ==>
                (r.Cwd? && |r.path| + 1 > size <==>
                 if task.cwd == 0 then size < 2 else |Join(PathOf(TreeOf(part.View(), dirs), depth, task.cwd))| == size)
    {
      hide MountOk, DirsOk, OwnOk, DirModel.DirOk, RootsFirst, TreeOf, WellFormed, Join, Reversed, Name, PathOf;
      ghost var t := TreeOf(part.View(), dirs);
      TreeKeys(part.View(), dirs);
      MountFacts(part.View(), ibmap.Bits(), itable, table, dirs, depth);
      if task.cwd == 0 {
        return Cwd("/");
      }
      var first, halt := ParentNumber(task.cwd);
      if halt != Live {
        return CwdStop(halt);
      }
      ghost var ws := PathOf(t, depth, task.cwd);
      PathNames(t, depth, task.cwd);
      var rev := Climb(task.cwd);
      ReversedLength(ws);
      if |rev| > size {
        return CwdStop(Stopped("fs/fs.c", 831));
      }
      forall w | w in ws ensures '/' !in w { NameHasNoSlash(w); }
      var buf := ReversePath(rev, ws);
      r := Cwd(buf);
    }

    /** The parent's inode written back if it has changed, the number freed, its slot in the table
        cleared. */
    method Forget(parent: nat, n: nat, sync: bool) returns (ghost it1: map<nat, Sector>)
      requires (sync ==> parent in part.inodes) && n < INODES <= |ibmap.Bits()|
      modifies this`itable, ibmap.bits
      ensures (if sync then Synced(old(itable), it1, table, OnDisk(part.View(), parent)) else it1 == old(itable))
      ensures Replaced(it1, itable, table, n, Zeros(INODE_BYTES)) && ibmap.Bits() == old(ibmap.Bits())[n := false]
      ensures part.bmap.bits != ibmap.bits ==> part.View() == old(part.View())
    {
      hide Synced, Replaced, InodeBytes;
      if sync {
        itable := InodeSync(itable, table, DiskInode(parent, part.inodes[parent].size, part.inodes[parent].sectors));
      }
      it1 := itable;
      ibmap.Set(n, false);
      itable := InodeDelete(itable, table, n);
    }

    /** dir_remove of the empty directory that the path search has found, with the inodes and the
        inode bitmap written back. */
    method RemoveFound(r: Search, ghost path: string, ghost junk: nat) returns (halt: Halt)
      requires Valid() && r.Hit? && r.parent in dirs && (Components(path) != [] || path == "/")
      requires r == SearchFile(TreeOf(part.View(), dirs), path, junk) && Removes(TreeOf(part.View(), dirs), path, junk)
      modifies this`itable, this`dirs, part`disk, part`inodes, part.bmap.bits, ibmap.bits
      ensures halt == Live <==> r.ino != 0 && !old(AloneBehind(part.View(), r.parent, r.ino))
      ensures halt == Live ==> dirs <= part.inodes.Keys && RmdirStep(old(TreeOf(part.View(), dirs)), TreeOf(part.View(), dirs), path, junk)
      ensures halt == Live ==> (Valid() <==> Last(path) != ".") && Removed(old(part.View()), part.View(), r.parent, r.ino)
    {
      hide MountOk, DirsOk, SearchFile, Components, OwnOk, DirModel.DirOk, WellFormed, Listing, Synced, Replaced, InodeBytes, Removed, IsolatedTwo, AloneBehind, Owned, InsertedAt, Lists, RootsFirst, Last, RmdirStep;
      ghost var v, ibits, it := part.View(), ibmap.Bits(), itable;
      MountFacts(v, ibits, it, table, dirs, depth);
      EmptyExactTree(v, dirs, r.ino);
      RootOnly(v, r.ino);
      NotItself(v, dirs, r.ino);
      RemovedIsReadable(v, ibits, it, table, dirs, depth, r.ino);
      var held := InodeRead(itable, table, r.ino);
      assert held.no == r.ino;  // ASSERT, line 182 of fs/inode.c
      var ok;
      ok, halt := DirRemove(part, r.parent, r.ino);
      if halt != Live {
        return;
      }
      ghost var v1 := part.View();
      ghost var it1 := Forget(r.parent, r.ino, ok);
      RmdirDone(v, v1, ibits, it, it1, itable, table, dirs, depth, path, junk, ok);
      dirs := dirs - {r.ino};
    }

    /** sys_rmdir, for every path but those of nothing but slashes, which find what was on the stack.
        It does not clear its record, so line 310 can stop it (Paths.OverrunIff).  Everything stays in
        order exactly when it does not remove a directory through a path ending in ".". */
    method SysRmdir(path: string, junk: nat, stale: string) returns (ok: bool, halt: Halt)
      requires Valid() && (forall w :: w in Components(path) ==> |w| <= 15) && (Components(path) != [] || path == "/")
      modifies this`itable, this`dirs, part`disk, part`inodes, part.bmap.bits, ibmap.bits
      ensures halt == Live <==>
              old(var t := TreeOf(part.View(), dirs); var r := SearchFile(t, path, junk);
                  !SearchFrom(t, path, junk, stale).Stop? && (Removes(t, path, junk) ==> r.ino != 0 && !HangsOn(part.View(), r.parent, r.ino)))
      ensures halt == Live ==> dirs <= part.inodes.Keys && RmdirStep(old(TreeOf(part.View(), dirs)), TreeOf(part.View(), dirs), path, junk)
      ensures halt == Live ==> (ok <==> old(Removes(TreeOf(part.View(), dirs), path, junk)))
      ensures halt == Live ==> (Valid() <==> !(Last(path) == "." && ok))
      ensures halt == Live && !ok ==> part.View() == old(part.View()) && itable == old(itable) && ibmap.Bits() == old(ibmap.Bits())
      ensures halt == Live && ok ==>
                var r := old(SearchFile(TreeOf(part.View(), dirs), path, junk)); r.Hit? && Removed(old(part.View()), part.View(), r.parent, r.ino)
    {
      hide MountOk, DirsOk, SearchFile, SearchFrom, Components, OwnOk, DirModel.DirOk, WellFormed, Listing, AloneBehind, RootsFirst, Last, Removes, RmdirStep, Removed;
      ok, halt := false, Live;
      MountFacts(part.View(), ibmap.Bits(), itable, table, dirs, depth);
      ghost var t := TreeOf(part.View(), dirs);
      var r := SearchPath(path, junk, stale);
      SameUnlessStopped(t, path, junk, stale);
      RemovesIs(t, path, junk);
      if r.Stop? {
        return false, r.at;
      }
      if r.Missing? || r.kind != Directory {
        return;
      }
      FoundInside(t, depth, path, junk);
      EmptyExactTree(part.View(), dirs, r.ino);
      if part.inodes[r.ino].size != 2 * ENTRY {
        return;
      }
      ok := true;
      halt := RemoveFound(r, path, junk);
    }
  }
}
