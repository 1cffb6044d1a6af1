/** Looking up, inserting and deleting directory entries (search_dir_entry, sync_dir_entry and
    delete_dir_entry of fs/dir.c) on a mounted partition. */
module Directory {
  import opened Basics
  import opened Bitmap
  import opened Entries
  import opened Sectors
  import opened Volume
  import opened DirModel
  import opened FileWrite

  // ------------------------------------------------------------- changes of one block

  /** Only block k of directory a has changed. */
  ghost predicate OnlyBlock(v: Vol, v1: Vol, a: nat, k: nat) {
    && a in v.inodes && a in v1.inodes && k < BLOCKS && OwnOk(v1) && Isolated(v, v1, a)
    && (forall j: nat :: j < BLOCKS && j != k ==> Here(v1, a, j) == Here(v, a, j) && (Block(v1, a, j) != 0 <==> Block(v, a, j) != 0))
  }

  /** One slot of a block rewritten and i_size set. */
  function PutSlot(v: Vol, a: nat, k: nat, i: nat, b: seq<byte>, n: nat): Vol
    requires a in v.inodes && k < BLOCKS && i < PER_SECTOR && |b| == ENTRY
  {
    WithSize(WithSector(v, Block(v, a, k), Patch(Read(v.disk, Block(v, a, k)), ENTRY * i, b)), a, n)
  }

  lemma SlotPut(v: Vol, a: nat, k: nat, i: nat, b: seq<byte>, n: nat)
    requires OwnOk(v) && a in v.inodes && k < BLOCKS && i < PER_SECTOR && |b| == ENTRY && Block(v, a, k) != 0
    ensures var v1 := PutSlot(v, a, k, i, b, n);
            && OnlyBlock(v, v1, a, k) && Here(v1, a, k) == Here(v, a, k)[i := EntryOf(b)]
            && forall j: nat :: j <= INDEX ==> Block(v1, a, j) == Block(v, a, j)
  {
    hide Block, Patch, SlotsOf;
    var x := Block(v, a, k);
    var s: Sector := Patch(Read(v.disk, x), ENTRY * i, b);
    var v0 := WithSector(v, x, s);
    DataKeeps(v, a, k, s);
    SizeKeeps(v0, a, n);
    IsolatedTrans(v, v0, WithSize(v0, a, n), a);
    PatchSlot(Read(v.disk, x), i, b);
    hide Isolated;
  }

  /** A new block holding one entry, and i_size set. */
  lemma BlockAdded(v: Vol, v0: Vol, v1: Vol, a: nat, got: seq<nat>, k: nat, off: int, index: bool, s: Sector, n: nat)
    requires OwnOk(v) && k < BLOCKS && Placed(v, v0, a, got, k, k + 1, off, index)
    requires v1 == WithSize(WithSector(v0, Block(v0, a, k), s), a, n)
    ensures OnlyBlock(v, v1, a, k) && Here(v1, a, k) == SlotsOf(s) && Block(v1, a, k) != 0
    ensures Block(v1, a, INDEX) == if index then got[0] else Block(v, a, INDEX)
  {
    PlacedKeeps(v, v0, a, got, k, k + 1, off, index);
    PlacedIsolated(v, v0, a, got, k, k + 1, off, index);
    assert Block(v0, a, INDEX) == v0.inodes[a].sectors[12];
    hide Block, SlotsOf;
    var x := Block(v0, a, k);
    assert x == got[off + k] && x in got;
    var vw := WithSector(v0, x, s);
    DataKeeps(v0, a, k, s);
    SizeKeeps(vw, a, n);
    IsolatedTrans(v, v0, vw, a);
    IsolatedTrans(v, vw, v1, a);
    hide Isolated;
    forall j: nat | j < BLOCKS && j != k && Block(v, a, j) != 0 ensures Read(v1.disk, Block(v, a, j)) == Read(v.disk, Block(v, a, j)) {
      assert Block(v0, a, j) == Block(v, a, j);
    }
  }

  /** A direct block given back, and i_size set. */
  function DropBlock(v: Vol, a: nat, k: nat, n: nat): Vol
    requires a in v.inodes && k < DIRECT && InRange(v, v.inodes[a].sectors[k])
  {
    v.(bits := v.bits[v.inodes[a].sectors[k] - v.start := false],
       inodes := v.inodes[a := Inode(n, v.inodes[a].sectors[k := 0])])
  }

  lemma BlockDropped(v: Vol, a: nat, k: nat, n: nat)
    requires OwnOk(v) && a in v.inodes && k < DIRECT && Block(v, a, k) != 0
    ensures InRange(v, v.inodes[a].sectors[k])
    ensures var v1 := DropBlock(v, a, k, n);
            && OnlyBlock(v, v1, a, k) && Block(v1, a, k) == 0 && (forall j: nat :: j <= INDEX && j != k ==> Block(v1, a, j) == Block(v, a, j))
            && forall x: nat :: InUse(v1, x) <==> InUse(v, x) && x != Block(v, a, k)
  {
    var x := v.inodes[a].sectors[k];
    assert Block(v, a, k) == x && InUse(v, x);
    var v1 := DropBlock(v, a, k, n);
    forall b | b in v.inodes && b != a ensures forall j: nat :: j <= INDEX ==> Block(v1, b, j) == Block(v, b, j) {
      SameBlocks(v, v1, b);
    }
    forall j: nat | j <= INDEX && j != k ensures Block(v1, a, j) == Block(v, a, j) {}
    hide Block;
    assert forall y: nat :: InUse(v1, y) <==> InUse(v, y) && y != x;
  }

  // ---------------------------------------------------------------- effect on the listing

  predicate CanAdd(v: Vol, a: nat, e: Entry)
    requires a in v.inodes
  {
    && Fits(e) && e.kind != Unknown && Proper(e.name)
    && forall i :: 2 <= i < |Listing(v, a)| ==> Listing(v, a)[i].name != e.name && Listing(v, a)[i].ino != e.ino
  }

  lemma NewBlockSlots(e: Entry)
    requires Fits(e) && e.kind != Unknown
    ensures var l := SlotsOf(Patch(Zeros(SECTOR), 0, EntryBytes(e)));
            l == seq(PER_SECTOR, _ => EMPTY)[0 := e] && Entered(l) == [e]
  {
    hide SlotsOf, EntryBytes, EntryOf, Patch;
    ZeroSlots();
    EntryRoundTrip(e);
    PatchSlot(Zeros(SECTOR), 0, EntryBytes(e));
    assert ENTRY * 0 == 0;
    var l := seq(PER_SECTOR, _ => EMPTY)[0 := e];
    NoneLive(l[1..]);
    LiveCons(l);
  }

  lemma {:induction false} NoneLive(l: seq<Entry>)
    requires forall i :: 0 <= i < |l| ==> l[i].kind == Unknown
    ensures Entered(l) == []
  {
    if l != [] { NoneLive(l[1..]); }
  }

  /** Position of slot i of block k in the listing: never before the dots. */
  lemma AfterDots(v: Vol, a: nat, k: nat, i: nat)
    requires a in v.inodes && DotsOk(v, a) && k < BLOCKS && (k == 0 ==> 2 <= i <= |Here(v, a, 0)|) && (k > 0 ==> i <= |Here(v, a, k)|)
    ensures |Entered(Upto(v, a, k))| + |Entered(Here(v, a, k)[..i])| >= 2
  {
    if k == 0 {
      LiveLength(Here(v, a, 0)[..i], 2);
    } else {
      DotsFirst(v, a, k);
    }
  }

  lemma FilledKeeps(v: Vol, v1: Vol, a: nat, k: nat, i: nat, e: Entry)
    requires DirOk(v, a) && CanAdd(v, a, e) && OnlyBlock(v, v1, a, k) && i < PER_SECTOR
    requires Block(v, a, k) != 0 && Block(v1, a, k) != 0 && Here(v, a, k)[i].kind == Unknown && Here(v1, a, k) == Here(v, a, k)[i := e]
    requires Block(v1, a, INDEX) == Block(v, a, INDEX) && v1.inodes[a].size == v.inodes[a].size + ENTRY
    ensures DirOk(v1, a) && exists p :: p >= 2 && InsertedAt(Listing(v, a), Listing(v1, a), p, e)
  {
    hide Block, Entered, Listing, Upto, From, ListOk, SlotsOf, EMPTY;
    var l := Here(v, a, k);
    SlotFilled(l, i, e);
    AfterDots(v, a, k, i);
    var p := |Entered(Upto(v, a, k))| + |Entered(l[..i])|;
    BlockInserted(v, v1, a, k, |Entered(l[..i])|, e);
    NewEntry(Listing(v, a), Listing(v1, a), p, e, a);
    hide OnlyBlock;
  }

  lemma AddedKeeps(v: Vol, v1: Vol, a: nat, k: nat, e: Entry)
    requires DirOk(v, a) && CanAdd(v, a, e) && OnlyBlock(v, v1, a, k) && k > 0
    requires Block(v, a, k) == 0 && Here(v1, a, k) == seq(PER_SECTOR, _ => EMPTY)[0 := e] && Entered(Here(v1, a, k)) == [e]
    requires v1.inodes[a].size == v.inodes[a].size + ENTRY && IndexUsed(v1, a)
    ensures DirOk(v1, a) && exists p :: p >= 2 && InsertedAt(Listing(v, a), Listing(v1, a), p, e)
  {
    hide Block, Entered, Listing, Upto, From, ListOk, SlotsOf;
    NoneLive([]);
    DotsFirst(v, a, k);
    BlockInserted(v, v1, a, k, 0, e);
    NewEntry(Listing(v, a), Listing(v1, a), |Entered(Upto(v, a, k))|, e, a);
    hide OnlyBlock;
  }

  lemma EmptiedKeeps(v: Vol, v1: Vol, a: nat, k: nat, i: nat, e: Entry)
    requires DirOk(v, a) && OnlyBlock(v, v1, a, k) && i < PER_SECTOR && (k == 0 ==> i >= 2)
    requires Block(v, a, k) != 0 && Block(v1, a, k) != 0 && Here(v, a, k)[i] == e && e.kind != Unknown
    requires Here(v1, a, k) == Here(v, a, k)[i := EMPTY] && (k > 0 ==> |Entered(Here(v, a, k))| >= 2)
    requires Block(v1, a, INDEX) == Block(v, a, INDEX) && v1.inodes[a].size == v.inodes[a].size - ENTRY
    ensures DirOk(v1, a) && exists p :: p >= 2 && InsertedAt(Listing(v1, a), Listing(v, a), p, e)
  {
    hide Block, Entered, Listing, Upto, From, ListOk, SlotsOf;
    var l := Here(v1, a, k);
    assert l[i := e] == Here(v, a, k);
    SlotFilled(l, i, e);
    AfterDots(v1, a, k, i);
    var p := |Entered(Upto(v1, a, k))| + |Entered(l[..i])|;
    BlockInserted(v1, v, a, k, |Entered(l[..i])|, e);
    LessEntry(Listing(v1, a), Listing(v, a), p, e, a);
    hide OnlyBlock;
  }

  lemma DroppedKeeps(v: Vol, v1: Vol, a: nat, k: nat, e: Entry)
    requires DirOk(v, a) && OnlyBlock(v, v1, a, k) && 0 < k < DIRECT
    requires Block(v1, a, k) == 0 && Entered(Here(v, a, k)) == [e]
    requires Block(v1, a, INDEX) == Block(v, a, INDEX) && v1.inodes[a].size == v.inodes[a].size - ENTRY
    ensures DirOk(v1, a) && exists p :: p >= 2 && InsertedAt(Listing(v1, a), Listing(v, a), p, e)
  {
    hide Block, Entered, Listing, Upto, From, ListOk, SlotsOf;
    NoneLive([]);
    DotsFirst(v1, a, k);
    BlockInserted(v1, v, a, k, 0, e);
    LessEntry(Listing(v1, a), Listing(v, a), |Entered(Upto(v1, a, k))|, e, a);
    hide OnlyBlock;
  }

  // ----------------------------------------------------------------------- searching

  /** all_blocks: the 12 direct sectors, and the index table if there is one. */
  method AllBlocks(p: Partition, a: nat) returns (all: seq<nat>)
    requires a in p.inodes
    ensures |all| == BLOCKS && forall k: nat :: k < BLOCKS ==> all[k] == Block(p.View(), a, k)
  {
    all := [];
    var k := 0;
    while k < DIRECT
      invariant k <= DIRECT == 12 && |all| == k && forall j :: 0 <= j < k ==> all[j] == p.inodes[a].sectors[j]
    {
      all := all + [p.inodes[a].sectors[k]];
      k := k + 1;
    }
    var index := p.inodes[a].sectors[12];
    all := all + if index != 0 then Table(Read(p.disk, index)) else seq(WORDS, _ => 0);
  }

  method FindName(slots: seq<Entry>, name: string) returns (r: Option<Entry>)
    ensures r == ByName(slots, name)
  {
    var i := 0;
    assert slots[0..] == slots;
    while i < |slots|
      invariant 0 <= i <= |slots| && ByName(slots, name) == ByName(slots[i..], name)
    {
      if slots[i].name == name {
        return Some(slots[i]);
      }
      assert slots[i..][1..] == slots[i + 1..];
      i := i + 1;
    }
    r := None;
  }

  /** search_dir_entry: the first slot, in block order, that carries the name. */
  method SearchDirEntry(p: Partition, a: nat, name: string) returns (r: Option<Entry>)
    requires a in p.inodes
    ensures r == ByName(From(p.View(), a, 0), name)
  {
    hide Block, SlotsOf, ByName, From;
    var all := AllBlocks(p, a);
    ghost var v := p.View();
    var k := 0;
    while k < BLOCKS
      invariant k <= BLOCKS && ByName(From(v, a, 0), name) == ByName(From(v, a, k), name)
    {
      FromStep(v, a, k, name);
      if all[k] == 0 {
        NoSuchName(name);
      } else {
        r := FindName(SlotsOf(Read(p.disk, all[k])), name);
        if r.Some? {
          return;
        }
      }
      k := k + 1;
    }
    FromEnd(v, a, name);
    r := None;
  }

  lemma NoSuchName(name: string)
    ensures ByName([], name) == None
  {
  }

  lemma FromEnd(v: Vol, a: nat, name: string)
    requires a in v.inodes
    ensures ByName(From(v, a, BLOCKS), name) == None
  {
  }

  lemma FromStep(v: Vol, a: nat, k: nat, name: string)
    requires a in v.inodes && k < BLOCKS
    ensures ByName(From(v, a, k), name) ==
            if ByName(Here(v, a, k), name).Some? then ByName(Here(v, a, k), name) else ByName(From(v, a, k + 1), name)
  {
    hide Here, ByName;
    ByNameAppend(Here(v, a, k), From(v, a, k + 1), name);
  }

  // ----------------------------------------------------------------------- inserting

  /** The first i slots are taken. */
  predicate NoneFree(slots: seq<Entry>, i: nat) {
    forall j :: 0 <= j < i && j < |slots| ==> slots[j].kind != Unknown
  }

  method FreeSlot(slots: seq<Entry>) returns (i: nat)
    ensures i <= |slots| && (i < |slots| ==> slots[i].kind == Unknown) && NoneFree(slots, i)
  {
    i := 0;
    while i < |slots|
      invariant i <= |slots| && forall j :: 0 <= j < i ==> slots[j].kind != Unknown
    {
      if slots[i].kind == Unknown {
        return;
      }
      i := i + 1;
    }
  }

  /** Entry e has been added to directory a. */
  ghost predicate Added(v: Vol, v1: Vol, a: nat, e: Entry) {
    && a in v.inodes && v1.inodes.Keys == v.inodes.Keys && OwnOk(v1) && Isolated(v, v1, a) && v1.inodes[a].size == v.inodes[a].size + ENTRY
    && exists p :: p >= 2 && InsertedAt(Listing(v, a), Listing(v1, a), p, e)
  }

  /** The entry goes into the first free slot of the direct blocks, slot i of block k. */
  ghost predicate SlotFills(v: Vol, v1: Vol, a: nat, k: nat, i: nat, e: Entry) {
    && a in v.inodes && Writable(e) && k < DIRECT && i < PER_SECTOR && Block(v, a, k) != 0 && Here(v, a, k)[i].kind == Unknown
    && FullUpTo(v, a, k) && NoneFree(Here(v, a, k), i)
    && v1 == PutSlot(v, a, k, i, EntryBytes(e), v.inodes[a].size + ENTRY)
  }

  /** The inode without its index block, which nothing else points to. */
  function Unindexed(v: Vol, a: nat): Vol
    requires a in v.inodes
  {
    v.(inodes := v.inodes[a := v.inodes[a].(sectors := v.inodes[a].sectors[12 := 0])])
  }

  /** The entry goes into a new block k: the first missing direct one or, when the direct blocks are full,
      the first one behind a new index block, which takes the place of any older one. */
  ghost predicate BlockFills(v: Vol, v1: Vol, a: nat, k: nat, e: Entry) {
    && a in v.inodes && k <= DIRECT && (k < DIRECT ==> Block(v, a, k) == 0) && FullUpTo(v, a, k)
    && NewBlockPut(if k < DIRECT then v else Unindexed(v, a), v1, a, k, e)
  }

  ghost predicate NewBlockPut(v: Vol, v1: Vol, a: nat, k: nat, e: Entry) {
    exists v0, got, off :: BlockPut(v, v0, v1, a, got, k, off, e)
  }

  ghost predicate BlockPut(v: Vol, v0: Vol, v1: Vol, a: nat, got: seq<nat>, k: nat, off: int, e: Entry) {
    && k < BLOCKS && Writable(e) && off + k == (if k == DIRECT then 1 else 0) && Placed(v, v0, a, got, k, k + 1, off, k == DIRECT) && a in v.inodes && v0.inodes[a].size == v.inodes[a].size
    && v1 == WithSize(WithSector(v0, Block(v0, a, k), Patch(Zeros(SECTOR), 0, EntryBytes(e))), a, v.inodes[a].size + ENTRY)
  }

  /** What a completed sync_dir_entry does. */
  ghost predicate Inserted(v: Vol, v1: Vol, a: nat, e: Entry) {
    (exists k, i :: SlotFills(v, v1, a, k, i, e)) || (exists k :: BlockFills(v, v1, a, k, e))
  }

  /** There is no index block yet, or a place left in the direct blocks. */
  predicate Roomy(v: Vol, a: nat)
    requires a in v.inodes
  {
    Block(v, a, INDEX) == 0 || !FullUpTo(v, a, DIRECT)
  }

  lemma UnindexedKeeps(v: Vol, a: nat)
    requires OwnOk(v) && a in v.inodes
    ensures var v1 := Unindexed(v, a);
            && OwnOk(v1) && Isolated(v, v1, a) && v1.inodes.Keys == v.inodes.Keys && v1.inodes[a].size == v.inodes[a].size
            && (forall k: nat :: k <= INDEX ==> Block(v1, a, k) == if k < DIRECT then Block(v, a, k) else 0)
            && (Block(v, a, INDEX) == 0 ==> v1 == v)
  {
    var v1 := Unindexed(v, a);
    forall b | b in v.inodes && b != a ensures forall k: nat :: k <= INDEX ==> Block(v1, b, k) == Block(v, b, k) {
      SameBlocks(v, v1, b);
    }
    forall k: nat | k <= INDEX ensures Block(v1, a, k) == if k < DIRECT then Block(v, a, k) else 0 {}
    assert Block(v, a, INDEX) == v.inodes[a].sectors[12];
    assert Block(v, a, INDEX) == 0 ==> v.inodes[a].sectors[12 := 0] == v.inodes[a].sectors;
    hide Block;
  }

  /** A completed insertion keeps block ownership and touches no other inode, whatever state the
      directory is in. */
  lemma InsertedOwn(v: Vol, v1: Vol, a: nat, e: Entry)
    requires OwnOk(v) && Inserted(v, v1, a, e)
    ensures OwnOk(v1) && Isolated(v, v1, a) && a in v.inodes && v1.inodes.Keys == v.inodes.Keys
    ensures v1.inodes[a].size == v.inodes[a].size + ENTRY
  {
    hide OwnOk, Isolated, Block, EntryBytes, Patch, Placed;
    if k, i :| SlotFills(v, v1, a, k, i, e) {
      SlotPut(v, a, k, i, EntryBytes(e), v.inodes[a].size + ENTRY);
    } else {
      var k: nat :| BlockFills(v, v1, a, k, e);
      var vx := if k < DIRECT then v else Unindexed(v, a);
      var v0, got, off :| BlockPut(vx, v0, v1, a, got, k, off, e);
      UnindexedKeeps(v, a);
      PlacedKeys(vx, v0, a, got, k, k + 1, off, k == DIRECT);
      BlockAdded(vx, v0, v1, a, got, k, off, k == DIRECT, Patch(Zeros(SECTOR), 0, EntryBytes(e)), v.inodes[a].size + ENTRY);
      if k == DIRECT { IsolatedTrans(v, vx, v1, a); }
    }
  }

  lemma PlacedKeys(v: Vol, v1: Vol, a: nat, got: seq<nat>, lo: nat, hi: nat, off: int, index: bool)
    requires Placed(v, v1, a, got, lo, hi, off, index)
    ensures v1.inodes.Keys == v.inodes.Keys
  {
  }

  /** An insertion into a directory in order adds exactly the entry and keeps the order, unless
      the twelve direct blocks are full and there already is an index block. */
  lemma InsertedKeeps(v: Vol, v1: Vol, a: nat, e: Entry)
    requires OwnOk(v) && DirOk(v, a) && CanAdd(v, a, e) && Inserted(v, v1, a, e)
    requires Roomy(v, a)
    ensures DirOk(v1, a) && Added(v, v1, a, e)
    ensures Block(v1, a, INDEX) == 0 <==> Block(v, a, INDEX) == 0 && !FullUpTo(v, a, DIRECT)
  {
    InsertedOwn(v, v1, a, e);
    hide OwnOk, Isolated, DirOk, CanAdd, Listing, Block, FullUpTo, SlotFills, BlockFills;
    if k, i :| SlotFills(v, v1, a, k, i, e) {
      SlotKeeps(v, v1, a, k, i, e);
    } else {
      var k: nat :| BlockFills(v, v1, a, k, e);
      BlockKeeps(v, v1, a, k, e);
    }
  }

  lemma SlotKeeps(v: Vol, v1: Vol, a: nat, k: nat, i: nat, e: Entry)
    requires OwnOk(v) && DirOk(v, a) && CanAdd(v, a, e) && SlotFills(v, v1, a, k, i, e)
    ensures DirOk(v1, a) && exists p :: p >= 2 && InsertedAt(Listing(v, a), Listing(v1, a), p, e)
    ensures Block(v1, a, INDEX) == Block(v, a, INDEX) && !FullUpTo(v, a, DIRECT)
  {
    hide OwnOk, Isolated, EntryBytes, Patch, Listing, DirOk, SlotsOf, Block, FullUpTo, Here, OnlyBlock, CanAdd;
    SlotNotFull(v, a, k, i);
    CanFit(v, a, e);
    EntryRoundTrip(e);
    SlotPut(v, a, k, i, EntryBytes(e), v.inodes[a].size + ENTRY);
    FilledKeeps(v, v1, a, k, i, e);
  }

  lemma CanFit(v: Vol, a: nat, e: Entry)
    requires a in v.inodes && CanAdd(v, a, e)
    ensures Fits(e) && e.kind != Unknown
  {
  }

  lemma BlockKeeps(v: Vol, v1: Vol, a: nat, k: nat, e: Entry)
    requires OwnOk(v) && DirOk(v, a) && CanAdd(v, a, e) && BlockFills(v, v1, a, k, e)
    requires Roomy(v, a)
    ensures DirOk(v1, a) && exists p :: p >= 2 && InsertedAt(Listing(v, a), Listing(v1, a), p, e)
    ensures Block(v1, a, INDEX) == 0 <==> Block(v, a, INDEX) == 0 && !FullUpTo(v, a, DIRECT)
  {
    hide OwnOk, Isolated, EntryBytes, Patch, Placed, Listing, CleanOk, ListOk, NoIdleBlock, SlotsOf, Block, FullUpTo, CanAdd, Entered;
    UnindexedKeeps(v, a);
    var v0, got, off :| BlockPut(v, v0, v1, a, got, k, off, e);
    CanFit(v, a, e);
    BlockAdded(v, v0, v1, a, got, k, off, k == DIRECT, Patch(Zeros(SECTOR), 0, EntryBytes(e)), v.inodes[a].size + ENTRY);
    if k < DIRECT { MissingNotFull(v, a, k); } else { IndexNotZero(v, v0, a, got, off); }
    NewBlockSlots(e);
    AddedKeeps(v, v1, a, k, e);
  }

  lemma SlotNotFull(v: Vol, a: nat, k: nat, i: nat)
    requires a in v.inodes && k < DIRECT && Block(v, a, k) != 0 && i < PER_SECTOR && Here(v, a, k)[i].kind == Unknown
    ensures !FullUpTo(v, a, DIRECT)
  {
    assert Here(v, a, k)[i] in Here(v, a, k);
  }

  lemma MissingNotFull(v: Vol, a: nat, k: nat)
    requires a in v.inodes && k < DIRECT && Block(v, a, k) == 0
    ensures !FullUpTo(v, a, DIRECT)
  {
  }

  lemma IndexNotZero(v: Vol, v1: Vol, a: nat, got: seq<nat>, off: int)
    requires OwnOk(v) && Placed(v, v1, a, got, DIRECT, DIRECT + 1, off, true)
    ensures got[0] != 0
  {
    assert got[0] in got;
  }

  /** In the excepted case the old index block is forgotten: every entry behind it is lost. */
  lemma InsertedLoses(v: Vol, v1: Vol, a: nat, e: Entry)
    requires OwnOk(v) && DirOk(v, a) && Fits(e) && e.kind != Unknown && Inserted(v, v1, a, e)
    requires !Roomy(v, a)
    ensures a in v1.inodes && Listing(v1, a) == Entered(Upto(v, a, DIRECT)) + [e] && !DirOk(v1, a)
    ensures Listing(v, a) == Entered(Upto(v, a, DIRECT)) + Entered(From(v, a, DIRECT)) && Entered(From(v, a, DIRECT)) != []
  {
    hide OwnOk, Isolated, Block, DirOk, Entered, Upto, From, Listing, FullUpTo, NewBlockPut;
    InsertedOwn(v, v1, a, e);
    OnlyNewIndex(v, v1, a, e);
    ReplacedIndex(v, v1, a, e);
    BehindIndex(v, a);
    if DirOk(v1, a) {
      DirShape(v, a);
      DirShape(v1, a);
    }
  }

  /** The directory stays in order exactly outside that case. */
  lemma InsertOrderIff(v: Vol, v1: Vol, a: nat, e: Entry)
    requires OwnOk(v) && DirOk(v, a) && CanAdd(v, a, e) && Inserted(v, v1, a, e)
    ensures DirOk(v1, a) <==> Roomy(v, a)
  {
    DirShape(v, a);
    hide OwnOk, DirOk, CanAdd, Inserted, FullUpTo, Block;
    CanFit(v, a, e);
    if Roomy(v, a) {
      InsertedKeeps(v, v1, a, e);
    } else {
      InsertedLoses(v, v1, a, e);
    }
  }

  lemma OnlyNewIndex(v: Vol, v1: Vol, a: nat, e: Entry)
    requires Inserted(v, v1, a, e) && a in v.inodes && FullUpTo(v, a, DIRECT)
    ensures NewBlockPut(Unindexed(v, a), v1, a, DIRECT, e)
  {
    hide Block, FullUpTo, NewBlockPut, PutSlot, Here;
    if k: nat, i: nat :| SlotFills(v, v1, a, k, i, e) {
      SlotNotFull(v, a, k, i);
    } else {
      var k: nat :| BlockFills(v, v1, a, k, e);
      if k < DIRECT { MissingNotFull(v, a, k); }
    }
  }

  lemma ReplacedIndex(v: Vol, v1: Vol, a: nat, e: Entry)
    requires OwnOk(v) && a in v.inodes && a in v1.inodes && Fits(e) && e.kind != Unknown && NewBlockPut(Unindexed(v, a), v1, a, DIRECT, e)
    ensures Listing(v1, a) == Entered(Upto(v, a, DIRECT)) + [e]
  {
    hide OwnOk, Isolated, EntryBytes, Patch, Placed, SlotsOf, Block, Entered, Upto, Listing;
    var vx := Unindexed(v, a);
    var v0, got, off :| BlockPut(vx, v0, v1, a, got, DIRECT, off, e);
    UnindexedKeeps(v, a);
    BlockAdded(vx, v0, v1, a, got, DIRECT, off, true, Patch(Zeros(SECTOR), 0, EntryBytes(e)), v.inodes[a].size + ENTRY);
    NewBlockSlots(e);
    LastBlock(vx, v1, a, e);
    UptoSame(v, vx, a, DIRECT);
  }

  /** The listing when block 12 is the last. */
  lemma LastBlock(v: Vol, v1: Vol, a: nat, e: Entry)
    requires OnlyBlock(v, v1, a, DIRECT) && Entered(Here(v1, a, DIRECT)) == [e]
    requires forall k: nat :: DIRECT < k < BLOCKS ==> Block(v, a, k) == 0
    ensures Listing(v1, a) == Entered(Upto(v, a, DIRECT)) + [e]
  {
    hide Block, Entered, Upto, Isolated, OwnOk, SlotsOf;
    ListingSplit(v1, a, DIRECT);
    UptoSame(v, v1, a, DIRECT);
    NoneFrom(v1, a, DIRECT + 1);
    NoneLive([]);
  }

  lemma BehindIndex(v: Vol, a: nat)
    requires DirOk(v, a) && Block(v, a, INDEX) != 0
    ensures Listing(v, a) == Entered(Upto(v, a, DIRECT)) + Entered(From(v, a, DIRECT)) && Entered(From(v, a, DIRECT)) != []
  {
    hide Block, Entered, Upto, SlotsOf, CleanOk, DotsOk, ListOk;
    Splits(v, a, DIRECT);
    LiveAppend(Upto(v, a, DIRECT), From(v, a, DIRECT));
    LiveAppend(Here(v, a, DIRECT), From(v, a, DIRECT + 1));
  }

  /** The entry is written into slot i of block k. */
  method FillSlot(p: Partition, a: nat, k: nat, i: nat, e: Entry)
    requires a in p.inodes && Writable(e) && k < DIRECT && i < PER_SECTOR
    requires Block(p.View(), a, k) != 0 && Here(p.View(), a, k)[i].kind == Unknown
    requires FullUpTo(p.View(), a, k) && NoneFree(Here(p.View(), a, k), i)
    modifies p`disk, p`inodes
    ensures SlotFills(old(p.View()), p.View(), a, k, i, e)
  {
    hide Patch, EntryBytes, SlotsOf, FullUpTo, NoneFree;
    var x := p.inodes[a].sectors[k];
    assert x == Block(p.View(), a, k);
    p.disk := p.disk[x := Patch(Read(p.disk, x), ENTRY * i, EntryBytes(e))];
    p.inodes := p.inodes[a := p.inodes[a].(size := p.inodes[a].size + ENTRY)];
  }

  /** The entry is written into the new block k. */
  method FillBlock(p: Partition, a: nat, k: nat, e: Entry, ghost v: Vol, ghost got: seq<nat>, ghost off: int)
    requires a in v.inodes && a in p.inodes && Writable(e) && k < BLOCKS && off + k == if k == DIRECT then 1 else 0
    requires Placed(v, p.View(), a, got, k, k + 1, off, k == DIRECT) && p.inodes[a].size == v.inodes[a].size
    modifies p`disk, p`inodes
    ensures BlockPut(v, old(p.View()), p.View(), a, got, k, off, e)
  {
    hide Patch, EntryBytes, Block, Placed;
    var all := AllBlocks(p, a);
    var x := all[k];
    p.disk := p.disk[x := Patch(Zeros(SECTOR), 0, EntryBytes(e))];
    p.inodes := p.inodes[a := p.inodes[a].(size := p.inodes[a].size + ENTRY)];
  }

  /** A missing direct block k is allocated. */
  method AddDirect(p: Partition, a: nat, k: nat) returns (halt: Halt, ghost got: seq<nat>)
    requires a in p.inodes && k < DIRECT
    modifies p`inodes, p.bmap.bits
    ensures halt != Live ==> p.NoSpace(halt)
    ensures halt == Live ==> Placed(old(p.View()), p.View(), a, got, k, k + 1, 0 - k, false) && a in p.inodes && p.inodes[a].size == old(p.inodes[a].size)
  {
    hide Placed, Took, FirstFit, Full;
    ghost var v := p.View();
    TookNone(v);
    var lba: nat;
    lba, halt := p.AllocMore(v, []);
    got := [lba];
    if halt != Live {
      return;
    }
    p.inodes := p.inodes[a := p.inodes[a].(sectors := p.inodes[a].sectors[k := lba])];
    assert [] + [lba] == got;
    WithOneMore(v.inodes[a].sectors, [], k, lba);
    assert WithDirect(v.inodes[a].sectors, [], k) == v.inodes[a].sectors;
    DirectPlaced(v, p.View(), a, got, k, k + 1);
  }

  /** An index block and the first block behind it are allocated; the table of an older index
      block has not been loaded and is forgotten. */
  method AddIndex(p: Partition, a: nat) returns (halt: Halt, ghost got: seq<nat>)
    requires a in p.inodes && 0 < p.start && p.start + |p.bmap.Bits()| <= U32
    modifies p`inodes, p`disk, p.bmap.bits
    ensures halt != Live ==> p.NoSpace(halt)
    ensures halt == Live ==>
              && Placed(Unindexed(old(p.View()), a), p.View(), a, got, DIRECT, DIRECT + 1, 1 - DIRECT, true)
              && a in p.inodes && p.inodes[a].size == old(p.inodes[a].size)
  {
    hide Placed, Took, FirstFit, Full, Table, TableBytes, InRange;
    ghost var v := Unindexed(p.View(), a);
    TookNone(v);
    var index, lba: nat;
    index, halt := p.AllocMore(v, []);
    got := [index];
    if halt != Live {
      return;
    }
    p.inodes := p.inodes[a := p.inodes[a].(sectors := p.inodes[a].sectors[12 := index])];
    assert v.inodes[a].sectors[12 := index] == p.inodes[a].sectors;
    assert [] + [index] == got;
    lba, halt := p.AllocMore(v, got);
    if halt != Live {
      return;
    }
    got := got + [lba];
    var all := seq(BLOCKS, _ => 0)[DIRECT := lba];
    p.disk := WriteTable(v, p.bmap.Bits(), got, p.disk, index, all);
    IndexPlaced(v, p.View(), a, got, all);
  }

  lemma IndexPlaced(v: Vol, v1: Vol, a: nat, got: seq<nat>, all: seq<nat>)
    requires Took(v, v1.bits, got) && a in v.inodes && |all| == BLOCKS && |got| == 2
    requires v1.start == v.start > 0 && v1.inodes == v.inodes[a := v.inodes[a].(sectors := v.inodes[a].sectors[12 := got[0]])]
    requires v.inodes[a].sectors[12] == 0 && (forall x :: x != got[0] ==> Read(v1.disk, x) == Read(v.disk, x))
    requires Table(Read(v1.disk, got[0])) == all[DIRECT..] && all == seq(BLOCKS, _ => 0)[DIRECT := got[1]]
    ensures Placed(v, v1, a, got, DIRECT, DIRECT + 1, 1 - DIRECT, true)
  {
    hide Table;
    assert got[0] in got;
  }

  /** Every slot of the first n blocks is taken. */
  predicate FullUpTo(v: Vol, a: nat, n: nat)
    requires a in v.inodes
  {
    forall k: nat :: k < n && k < BLOCKS ==> Block(v, a, k) != 0 && forall e :: e in Here(v, a, k) ==> e.kind != Unknown
  }

  /** sync_dir_entry: the first free slot of the direct blocks, else the first missing direct
      block, else a new index block.  It fails only for want of a free block. */
  method SyncDirEntry(p: Partition, a: nat, e: Entry) returns (halt: Halt)
    requires OwnOk(p.View()) && a in p.inodes && Writable(e) && e.kind != Unknown
    modifies p`disk, p`inodes, p.bmap.bits
    ensures old(p.inodes[a].size) % ENTRY != 0 ==> halt == Stopped("fs/dir.c", 122)
    ensures halt != Live && old(p.inodes[a].size) % ENTRY == 0 ==> p.NoSpace(halt)
    ensures halt == Live ==> Inserted(old(p.View()), p.View(), a, e) && OwnOk(p.View()) && Isolated(old(p.View()), p.View(), a)
    ensures halt == Live && old(DirOk(p.View(), a) && CanAdd(p.View(), a, e) && Roomy(p.View(), a)) ==>
              DirOk(p.View(), a) && Added(old(p.View()), p.View(), a, e)
  {
    hide OwnOk, DirOk, Isolated, Placed, Took, Full, SlotsOf, CanAdd, SlotFills, BlockPut, Added;
    if p.inodes[a].size % ENTRY != 0 {
      return Stopped("fs/dir.c", 122);
    }
    ghost var v := p.View();
    halt := StoreEntry(p, a, e);
    if halt == Live {
      InsertedOwn(v, p.View(), a, e);
      if DirOk(v, a) && CanAdd(v, a, e) && Roomy(v, a) {
        InsertedKeeps(v, p.View(), a, e);
      }
    }
  }

  /** The search for a place, block by block. */
  method StoreEntry(p: Partition, a: nat, e: Entry) returns (halt: Halt)
    requires OwnOk(p.View()) && a in p.inodes && Writable(e) && e.kind != Unknown
    modifies p`disk, p`inodes, p.bmap.bits
    ensures halt != Live ==> p.NoSpace(halt)
    ensures halt == Live ==> Inserted(old(p.View()), p.View(), a, e)
  {
    hide OwnOk, Placed, Took, Full, SlotsOf, SlotFills, BlockPut;
    ghost var v := p.View();
    ghost var got: seq<nat>;
    var k := 0;
    while k < DIRECT
      invariant k <= DIRECT && p.View() == v && FullUpTo(v, a, k)
    {
      var x := p.inodes[a].sectors[k];
      assert x == Block(v, a, k);
      if x == 0 {
        halt, got := AddDirect(p, a, k);
        if halt == Live {
          FillBlock(p, a, k, e, v, got, 0 - k);
          assert NewBlockPut(v, p.View(), a, k, e) && BlockFills(v, p.View(), a, k, e);
        }
        return;
      }
      var slots := SlotsOf(Read(p.disk, x));
      var i := FreeSlot(slots);
      if i < PER_SECTOR {
        FillSlot(p, a, k, i, e);
        return Live;
      }
      k := k + 1;
    }
    VolumeRange(v);
    halt, got := AddIndex(p, a);
    if halt == Live {
      FillBlock(p, a, DIRECT, e, Unindexed(v, a), got, 1 - DIRECT);
      assert NewBlockPut(Unindexed(v, a), p.View(), a, DIRECT, e) && BlockFills(v, p.View(), a, DIRECT, e);
    }
  }

  lemma VolumeRange(v: Vol)
    requires OwnOk(v)
    ensures 0 < v.start && v.start + |v.bits| <= U32
  {
  }

  lemma {:induction false} NoneFrom(v: Vol, a: nat, k: nat)
    requires a in v.inodes && k <= BLOCKS && forall j: nat :: k <= j < BLOCKS ==> Block(v, a, j) == 0
    ensures From(v, a, k) == []
    decreases BLOCKS - k
  {
    if k < BLOCKS { NoneFrom(v, a, k + 1); }
  }

  // ------------------------------------------------------------------------ deleting

  predicate Dot(e: Entry) { e.name == "." || e.name == ".." }

  /** Live entries other than the dots. */
  function Others(l: seq<Entry>): seq<Entry> {
    if l == [] then [] else (if l[0].kind == Unknown || Dot(l[0]) then [] else [l[0]]) + Others(l[1..])
  }

  /** The number stands in two live entries, besides the dots. */
  ghost predicate Twice(slots: seq<Entry>, ino: nat) {
    exists i, j :: 0 <= i < j < |slots| && Target(slots[i], ino) && Target(slots[j], ino)
  }

  /** The scan of one block: how many live entries besides the dots, whether "." is there, and where
      the entry with the inode number is.  Two such entries trip the assertion on line 261. */
  method ScanBlock(slots: seq<Entry>, ino: nat) returns (cnt: nat, first: bool, found: Option<nat>, twice: bool)
    ensures twice <==> Twice(slots, ino)
    ensures !twice ==> cnt == |Others(slots)| && (first <==> exists e :: e in slots && e.kind != Unknown && e.name == ".")
    ensures found.Some? ==> found.value < |slots| && Target(slots[found.value], ino)
    ensures found.None? ==> forall e :: e in slots ==> !Target(e, ino)
  {
    var i := 0;
    cnt, first, found, twice := 0, false, None, false;
    assert slots[0..] == slots;
    while i < |slots|
      invariant 0 <= i <= |slots| && cnt + |Others(slots[i..])| == |Others(slots)|
      invariant first <==> exists j :: 0 <= j < i && slots[j].kind != Unknown && slots[j].name == "."
      invariant found.Some? ==> found.value < i && Target(slots[found.value], ino)
      invariant forall j :: 0 <= j < i && Target(slots[j], ino) ==> found == Some(j)
    {
      var e := slots[i];
      assert slots[i..][1..] == slots[i + 1..];
      if e.kind != Unknown {
        if e.name == "." {
          first := true;
        } else if e.name != ".." {
          cnt := cnt + 1;
          if e.ino == ino {
            if found.Some? {
              twice := true;
              return;
            }
            found := Some(i);
          }
        }
      }
      i := i + 1;
    }
    if first {
      var j :| 0 <= j < |slots| && slots[j].kind != Unknown && slots[j].name == ".";
      assert slots[j] in slots;
    }
  }

  predicate Target(e: Entry, ino: nat) {
    e.kind != Unknown && !Dot(e) && e.ino == ino
  }

  /** Entry e has been taken out of directory a. */
  ghost predicate Taken(v: Vol, v1: Vol, a: nat, e: Entry) {
    && a in v.inodes && v1.inodes.Keys == v.inodes.Keys && OwnOk(v1) && Isolated(v, v1, a) && v1.inodes[a].size == v.inodes[a].size - ENTRY
    && exists p :: p >= 2 && InsertedAt(Listing(v1, a), Listing(v, a), p, e)
  }

  /** Where a live slot stands in the listing; not among the dots unless it is one of their slots. */
  lemma PlaceOf(v: Vol, a: nat, k: nat, i: nat) returns (q: nat)
    requires DirOk(v, a) && k < BLOCKS && i < |Here(v, a, k)| && Here(v, a, k)[i].kind != Unknown && (k == 0 ==> i >= 2)
    ensures 2 <= q < |Listing(v, a)| && Listing(v, a)[q] == Here(v, a, k)[i]
    ensures q == |Entered(Upto(v, a, k))| + |Entered(Here(v, a, k)[..i])|
  {
    hide Block, Here, Upto, From, Entered, CleanOk, ListOk, Listing;
    var l := Here(v, a, k);
    AfterDots(v, a, k, i);
    ListingSplit(v, a, k);
    LiveSplit(l, i);
    q := |Entered(Upto(v, a, k))| + |Entered(l[..i])|;
    Middle(Entered(Upto(v, a, k)), Entered(l[..i]), l[i], Entered(l[i + 1..]), Entered(From(v, a, k + 1)));
  }

  lemma Middle(pre: seq<Entry>, l: seq<Entry>, e: Entry, m: seq<Entry>, post: seq<Entry>)
    ensures var s := pre + (l + [e] + m) + post; |pre| + |l| < |s| && s[|pre| + |l|] == e
  {
  }

  lemma BlockEntries(v: Vol, a: nat, k: nat)
    requires DirOk(v, a) && 0 < k < BLOCKS
    ensures forall e :: e in Here(v, a, k) && e.kind != Unknown ==> Proper(e.name)
  {
    hide Block, Here, Upto, From, Entered, CleanOk, Listing;
    var l := Here(v, a, k);
    forall i | 0 <= i < |l| && l[i].kind != Unknown ensures Proper(l[i].name) { var q := PlaceOf(v, a, k, i); }
  }

  lemma FirstTwo(v: Vol, a: nat)
    requires a in v.inodes && DotsOk(v, a)
    ensures |Listing(v, a)| >= 2 && Listing(v, a)[0] == Here(v, a, 0)[0] && Listing(v, a)[1] == Here(v, a, 0)[1]
  {
    hide Block, Here, Upto, From, Entered, Listing, SlotsOf, DotsOk;
    var l := Here(v, a, 0);
    DotsFacts(v, a);
    ListingSplit(v, a, 0);
    UptoNone(v, a);
    LiveLength(l, 2);
    Prefix(l, Entered(l), Entered(From(v, a, 1)));
  }

  lemma DotsFacts(v: Vol, a: nat)
    requires a in v.inodes && DotsOk(v, a)
    ensures |Here(v, a, 0)| >= 2 && Here(v, a, 0)[0].kind != Unknown && Here(v, a, 0)[1].kind != Unknown
  {
  }

  lemma Prefix(l: seq<Entry>, m: seq<Entry>, post: seq<Entry>)
    requires |l| >= 2 && |m| >= 2 && m[..2] == l[..2]
    ensures var s: seq<Entry> := [] + m + post; |s| >= 2 && s[0] == l[0] && s[1] == l[1]
  {
  }

  lemma FirstBlockEntries(v: Vol, a: nat)
    requires DirOk(v, a)
    ensures Here(v, a, 0)[0].name == "." && Here(v, a, 0)[1].name == ".."
    ensures forall i :: 2 <= i < |Here(v, a, 0)| && Here(v, a, 0)[i].kind != Unknown ==> Proper(Here(v, a, 0)[i].name)
  {
    hide Block, Here, Upto, From, Entered, CleanOk, NoIdleBlock, Listing, Proper;
    var l := Here(v, a, 0);
    DotsFacts(v, a);
    FirstTwo(v, a);
    forall i | 2 <= i < |l| && l[i].kind != Unknown ensures Proper(l[i].name) { var q := PlaceOf(v, a, 0, i); }
  }

  lemma UptoNone(v: Vol, a: nat)
    requires a in v.inodes
    ensures Entered(Upto(v, a, 0)) == []
  {
  }

  lemma {:induction false} OthersAre(l: seq<Entry>)
    requires forall e :: e in l && e.kind != Unknown ==> Proper(e.name)
    ensures Others(l) == Entered(l)
  {
    if l != [] {
      assert l[0] in l;
      OthersAre(l[1..]);
    }
  }

  /** In one block no inode number occurs twice. */
  lemma OneTarget(v: Vol, a: nat, k: nat, i: nat, j: nat)
    requires DirOk(v, a) && k < BLOCKS && i < j < |Here(v, a, k)|
    requires Here(v, a, k)[i].kind != Unknown && Here(v, a, k)[j].kind != Unknown && (k == 0 ==> i >= 2)
    ensures Here(v, a, k)[i].ino != Here(v, a, k)[j].ino
  {
    hide Block, Here, Upto, From, Entered, CleanOk, DotsOk, Listing;
    var p := PlaceOf(v, a, k, i);
    var q := PlaceOf(v, a, k, j);
    TwoLive(Here(v, a, k), i, j);
  }

  lemma TwoLive(l: seq<Entry>, i: nat, j: nat)
    requires i < j < |l| && l[i].kind != Unknown && l[j].kind != Unknown
    ensures |Entered(l[..i])| < |Entered(l[..j])| < |Entered(l)|
    ensures Entered(l)[|Entered(l[..i])|] == l[i] && Entered(l)[|Entered(l[..j])|] == l[j]
  {
    hide Entered;
    LiveSplit(l, i);
    LiveSplit(l, j);
    LiveSplit(l[..j], i);
    assert l[..j][..i] == l[..i];
  }

  /** The only live entry besides the dots, in a block without ".". */
  predicate Alone(l: seq<Entry>) {
    |Others(l)| == 1 && !exists e :: e in l && e.kind != Unknown && e.name == "."
  }

  /** delete_dir_entry takes out slot i of block k: the block is given back when the entry is alone
      in it, else the slot is cleared. */
  ghost predicate DeletedAt(v: Vol, v1: Vol, a: nat, k: nat, i: nat, ino: nat) {
    && a in v.inodes && v.inodes[a].size >= ENTRY && k < BLOCKS && i < PER_SECTOR && i < |Here(v, a, k)| && Target(Here(v, a, k)[i], ino)
    && NotBefore(v, a, k, ino)
    && if Alone(Here(v, a, k))
       then k < DIRECT && InRange(v, v.inodes[a].sectors[k]) && v1 == DropBlock(v, a, k, v.inodes[a].size - ENTRY)
       else v1 == PutSlot(v, a, k, i, Zeros(ENTRY), v.inodes[a].size - ENTRY)
  }

  /** No block before block k has an entry with the number. */
  ghost predicate NotBefore(v: Vol, a: nat, k: nat, ino: nat)
    requires a in v.inodes
  {
    forall j: nat, e :: j < k && j < BLOCKS && e in Here(v, a, j) ==> !Target(e, ino)
  }

  /** What a completed delete_dir_entry does. */
  ghost predicate Deleted(v: Vol, v1: Vol, a: nat, ino: nat) {
    exists k, i :: DeletedAt(v, v1, a, k, i, ino)
  }

  /** A completed deletion takes exactly that entry out and keeps the directory in order. */
  lemma DeletedKeeps(v: Vol, v1: Vol, a: nat, ino: nat)
    requires OwnOk(v) && DirOk(v, a) && Deleted(v, v1, a, ino)
    ensures DirOk(v1, a) && exists e :: Taken(v, v1, a, e) && e.ino == ino
  {
    hide OwnOk, DirOk, Taken, Listing, Here, Others;
    var k: nat, i: nat :| DeletedAt(v, v1, a, k, i, ino);
    HereIs(v, a, k);
    if Alone(Here(v, a, k)) { DropKeeps(v, v1, a, k, i, ino); } else { ClearKeeps(v, v1, a, k, i, ino); }
  }

  lemma DropKeeps(v: Vol, v1: Vol, a: nat, k: nat, i: nat, ino: nat)
    requires OwnOk(v) && DirOk(v, a) && DeletedAt(v, v1, a, k, i, ino) && Alone(Here(v, a, k)) && Block(v, a, k) != 0
    ensures DirOk(v1, a) && Taken(v, v1, a, Here(v, a, k)[i])
  {
    hide OwnOk, DirOk, Listing, Isolated, Entered, Others, Block, Here;
    OnlyOne(v, a, k, i);
    BlockDropped(v, a, k, v.inodes[a].size - ENTRY);
    DroppedKeeps(v, v1, a, k, Here(v, a, k)[i]);
  }

  lemma ClearKeeps(v: Vol, v1: Vol, a: nat, k: nat, i: nat, ino: nat)
    requires OwnOk(v) && DirOk(v, a) && DeletedAt(v, v1, a, k, i, ino) && !Alone(Here(v, a, k)) && Block(v, a, k) != 0
    ensures DirOk(v1, a) && Taken(v, v1, a, Here(v, a, k)[i])
  {
    hide OwnOk, DirOk, Listing, Patch, EntryOf, SlotsOf, Isolated, Entered, Others, Block, Here;
    SlotsReady(v, a, k, ino);
    if k > 0 {
      NotTheLast(v, a, k);
      CountsIt(Here(v, a, k), i);
    }
    EmptySlot();
    SlotPut(v, a, k, i, Zeros(ENTRY), v.inodes[a].size - ENTRY);
    EmptiedKeeps(v, v1, a, k, i, Here(v, a, k)[i]);
  }

  /** The wanted entry is the only one in a block behind the index block. */
  ghost predicate AloneBehind(v: Vol, a: nat, ino: nat)
    requires a in v.inodes
  {
    exists k: nat :: DIRECT <= k < BLOCKS && Alone(Here(v, a, k)) && exists e :: e in Here(v, a, k) && Target(e, ino)
  }

  /** A completed deletion keeps block ownership and touches no other inode, whatever state the
      directory is in; the blocks it takes from the directory, and no others, are free afterwards. */
  lemma DeletedOwn(v: Vol, v1: Vol, a: nat, ino: nat)
    requires OwnOk(v) && Deleted(v, v1, a, ino)
    ensures OwnOk(v1) && Isolated(v, v1, a) && a in v.inodes && v1.inodes.Keys == v.inodes.Keys
    ensures v.inodes[a].size >= ENTRY && v1.inodes[a].size == v.inodes[a].size - ENTRY
    ensures Owned(v1, a) <= Owned(v, a)
    ensures forall x: nat :: InUse(v1, x) <==> InUse(v, x) && !(x in Owned(v, a) && x !in Owned(v1, a))
  {
    hide OwnOk, Isolated, Block, Patch, Here, Alone, InUse, Owned, NotBefore, DropBlock, PutSlot;
    var k: nat, i: nat :| DeletedAt(v, v1, a, k, i, ino);
    HereIs(v, a, k);
    if Alone(Here(v, a, k)) { DropOwn(v, v1, a, k); } else { ClearOwn(v, v1, a, k, i); }
  }

  lemma DropOwn(v: Vol, v1: Vol, a: nat, k: nat)
    requires OwnOk(v) && a in v.inodes && v.inodes[a].size >= ENTRY && k < DIRECT && Block(v, a, k) != 0 && InRange(v, v.inodes[a].sectors[k])
    requires v1 == DropBlock(v, a, k, v.inodes[a].size - ENTRY)
    ensures OwnOk(v1) && Isolated(v, v1, a) && v1.inodes.Keys == v.inodes.Keys && v1.inodes[a].size == v.inodes[a].size - ENTRY
    ensures Owned(v1, a) <= Owned(v, a)
    ensures forall x: nat :: InUse(v1, x) <==> InUse(v, x) && !(x in Owned(v, a) && x !in Owned(v1, a))
  {
    hide OwnOk, Isolated, Block, InUse, Owned;
    BlockDropped(v, a, k, v.inodes[a].size - ENTRY);
    OwnedLess(v, v1, a, k);
  }

  lemma ClearOwn(v: Vol, v1: Vol, a: nat, k: nat, i: nat)
    requires OwnOk(v) && a in v.inodes && v.inodes[a].size >= ENTRY && k < BLOCKS && i < PER_SECTOR && Block(v, a, k) != 0
    requires v1 == PutSlot(v, a, k, i, Zeros(ENTRY), v.inodes[a].size - ENTRY)
    ensures OwnOk(v1) && Isolated(v, v1, a) && v1.inodes.Keys == v.inodes.Keys && v1.inodes[a].size == v.inodes[a].size - ENTRY
    ensures Owned(v1, a) == Owned(v, a) && forall x: nat :: InUse(v1, x) <==> InUse(v, x)
  {
    hide OwnOk, Isolated, Block, InUse, Owned, Patch;
    SlotPut(v, a, k, i, Zeros(ENTRY), v.inodes[a].size - ENTRY);
    SameOwned(v, v1, a);
    SameMarks(v, v1);
  }

  lemma OwnedLess(v: Vol, v1: Vol, a: nat, k: nat)
    requires OwnOk(v) && a in v.inodes && a in v1.inodes && k <= INDEX && Block(v, a, k) != 0 && Block(v1, a, k) == 0
    requires forall j: nat :: j <= INDEX && j != k ==> Block(v1, a, j) == Block(v, a, j)
    ensures Owned(v1, a) == Owned(v, a) - {Block(v, a, k)} && Block(v, a, k) in Owned(v, a)
  {
    hide Block;
  }

  lemma SameOwned(v: Vol, v1: Vol, a: nat)
    requires a in v.inodes && a in v1.inodes && forall j: nat :: j <= INDEX ==> Block(v1, a, j) == Block(v, a, j)
    ensures Owned(v1, a) == Owned(v, a)
  {
    hide Block;
  }

  lemma SameMarks(v: Vol, v1: Vol)
    requires v1.start == v.start && v1.bits == v.bits
    ensures forall x: nat :: InUse(v1, x) <==> InUse(v, x)
  {
  }

  /** delete_dir_entry.  When the block to give back lies behind the index block, the loop that counts
      such blocks never advances.  On a directory in order its assertions cannot fire. */
  method DeleteDirEntry(p: Partition, a: nat, ino: nat) returns (ok: bool, halt: Halt)
    requires OwnOk(p.View()) && a in p.inodes
    modifies p`disk, p`inodes, p.bmap.bits
    ensures halt == Live ==> (ok <==> old(HasTarget(p.View(), a, ino)))
    ensures halt != Live ==> old(HasTarget(p.View(), a, ino)) && old(AloneBehind(p.View(), a, ino) || p.inodes[a].size < ENTRY || TwiceIn(p.View(), a, ino))
    ensures halt == Live && !ok ==> p.View() == old(p.View())
    ensures halt == Live && ok ==> Deleted(old(p.View()), p.View(), a, ino) && OwnOk(p.View()) && Isolated(old(p.View()), p.View(), a)
    ensures old(DirOk(p.View(), a)) ==> halt == if old(AloneBehind(p.View(), a, ino)) then Looping("fs/dir.c", 288) else Live
    ensures old(DirOk(p.View(), a)) && halt == Live ==> (ok <==> exists i :: 2 <= i < |old(Listing(p.View(), a))| && old(Listing(p.View(), a))[i].ino == ino)
    ensures old(DirOk(p.View(), a)) && halt == Live && ok ==> DirOk(p.View(), a) && exists e :: Taken(old(p.View()), p.View(), a, e) && e.ino == ino
  {
    hide OwnOk, DirOk, Listing, Taken, SlotsOf, Others, Entered, Block, DeletedAt, Here, Isolated, Twice;
    ghost var v := p.View();
    var all := AllBlocks(p, a);
    var k := 0;
    while k < BLOCKS
      invariant k <= BLOCKS && p.View() == v
      invariant NotBefore(v, a, k, ino)
    {
      HereIs(v, a, k);
      if all[k] != 0 {
        var slots := SlotsOf(Read(p.disk, all[k]));
        if DirOk(v, a) { NotTwice(v, a, k, ino); }
        var cnt, first, found, twice := ScanBlock(slots, ino);
        if twice {
          FoundTwice(v, a, k, ino);
          return false, Stopped("fs/dir.c", 261);
        }
        if found.Some? {
          var i := found.value;
          BlockInRange(v, a, k);
          FoundThere(v, a, k, i, ino);
          if DirOk(v, a) { DeletesHere(v, a, k, i, ino); }
          assert cnt >= 1 by { CountsIt(slots, i); }  // ASSERT, line 274
          if p.inodes[a].size < ENTRY {
            return false, Stopped("fs/dir.c", 313);
          }
          if cnt == 1 && !first {
            if k >= DIRECT {
              p.bmap.Set(all[k] - p.start, false);
              return false, Looping("fs/dir.c", 288);
            }
            GiveBlock(p, a, k, i, ino);
          } else {
            ClearSlot(p, a, k, i, all[k], ino);
          }
          assert Deleted(v, p.View(), a, ino);
          DeletedOwn(v, p.View(), a, ino);
          if DirOk(v, a) { DeletedKeeps(v, p.View(), a, ino); }
          return true, Live;
        }
      }
      k := k + 1;
    }
    if DirOk(v, a) { DeletesNowhere(v, a, ino); }
    assert !HasTarget(v, a, ino);
    ok, halt := false, Live;
  }

  /** Some block has an entry with the number, besides the dots. */
  ghost predicate HasTarget(v: Vol, a: nat, ino: nat)
    requires a in v.inodes
  {
    !NotBefore(v, a, BLOCKS, ino)
  }

  /** Some block has two of them. */
  ghost predicate TwiceIn(v: Vol, a: nat, ino: nat)
    requires a in v.inodes
  {
    exists k: nat :: k < BLOCKS && Twice(Here(v, a, k), ino)
  }

  lemma FoundThere(v: Vol, a: nat, k: nat, i: nat, ino: nat)
    requires a in v.inodes && k < BLOCKS && i < |Here(v, a, k)| && Target(Here(v, a, k)[i], ino)
    ensures HasTarget(v, a, ino) && (k >= DIRECT && Alone(Here(v, a, k)) ==> AloneBehind(v, a, ino))
  {
    hide Here;
    assert Here(v, a, k)[i] in Here(v, a, k);
  }

  lemma FoundTwice(v: Vol, a: nat, k: nat, ino: nat)
    requires a in v.inodes && k < BLOCKS && Twice(Here(v, a, k), ino)
    ensures TwiceIn(v, a, ino) && HasTarget(v, a, ino)
  {
    hide Here;
    var i: nat, j: nat :| 0 <= i < j < |Here(v, a, k)| && Target(Here(v, a, k)[i], ino) && Target(Here(v, a, k)[j], ino);
    assert Here(v, a, k)[i] in Here(v, a, k);
  }

  lemma NotTwice(v: Vol, a: nat, k: nat, ino: nat)
    requires DirOk(v, a) && k < BLOCKS && Block(v, a, k) != 0
    ensures !Twice(Here(v, a, k), ino)
  {
    hide Block, Here, DirOk;
    SlotsReady(v, a, k, ino);
  }

  /** What is known of a directory in order when the entry has been found in block k. */
  lemma DeletesHere(v: Vol, a: nat, k: nat, i: nat, ino: nat)
    requires OwnOk(v) && DirOk(v, a) && k < BLOCKS && i < |Here(v, a, k)| && Target(Here(v, a, k)[i], ino) && Block(v, a, k) != 0
    ensures v.inodes[a].size >= ENTRY && (AloneBehind(v, a, ino) <==> k >= DIRECT && Alone(Here(v, a, k)))
    ensures exists q :: 2 <= q < |Listing(v, a)| && Listing(v, a)[q].ino == ino
  {
    hide OwnOk, DirOk, Listing, Here, Block, Others, AloneBehind;
    DirShape(v, a);
    TargetPlace(v, a, k, i, ino);
    var q := PlaceOf(v, a, k, i);
    OneBlock(v, a, k, i, ino);
  }

  lemma DeletesNowhere(v: Vol, a: nat, ino: nat)
    requires DirOk(v, a) && forall j: nat, e :: j < BLOCKS && e in Here(v, a, j) ==> !Target(e, ino)
    ensures !AloneBehind(v, a, ino) && !exists q :: 2 <= q < |Listing(v, a)| && Listing(v, a)[q].ino == ino
  {
    hide DirOk, Listing, Here, Alone;
    DirShape(v, a);
    NowhereListed(v, a, ino);
  }

  lemma HereIs(v: Vol, a: nat, k: nat)
    requires a in v.inodes && k < BLOCKS
    ensures Here(v, a, k) == if Block(v, a, k) == 0 then [] else SlotsOf(Read(v.disk, Block(v, a, k)))
  {
  }

  /** The found entry is the only one with its number in all blocks, and its block is in range. */
  lemma OneBlock(v: Vol, a: nat, k: nat, i: nat, ino: nat)
    requires OwnOk(v) && DirOk(v, a) && k < BLOCKS && i < |Here(v, a, k)| && Target(Here(v, a, k)[i], ino)
    ensures AloneBehind(v, a, ino) <==> k >= DIRECT && Alone(Here(v, a, k))
    ensures InRange(v, Block(v, a, k)) && Block(v, a, k) != 0
  {
    hide OwnOk, DirOk, Others, Here, Block, SlotsOf;
    DirShape(v, a);
    assert Here(v, a, k)[i] in Here(v, a, k);
    if AloneBehind(v, a, ino) {
      var j: nat :| DIRECT <= j < BLOCKS && Alone(Here(v, a, j)) && exists e :: e in Here(v, a, j) && Target(e, ino);
      var m :| 0 <= m < |Here(v, a, j)| && Target(Here(v, a, j)[m], ino);
      SameBlock(v, a, j, m, k, i, ino);
    }
    HereIs(v, a, k);
    BlockInRange(v, a, k);
  }

  lemma BlockInRange(v: Vol, a: nat, k: nat)
    requires OwnOk(v) && a in v.inodes && k < BLOCKS && Block(v, a, k) != 0
    ensures InRange(v, Block(v, a, k))
  {
  }

  /** Two slots with the same number, not the dots, are in the same block. */
  lemma SameBlock(v: Vol, a: nat, j: nat, m: nat, k: nat, i: nat, ino: nat)
    requires DirOk(v, a) && j < BLOCKS && k < BLOCKS && m < |Here(v, a, j)| && i < |Here(v, a, k)|
    requires Target(Here(v, a, j)[m], ino) && Target(Here(v, a, k)[i], ino)
    ensures j == k
  {
    hide Here, Block, Listing, Entered, Upto, From;
    if j <= k { LaterBlock(v, a, j, m, k, i, ino); } else { LaterBlock(v, a, k, i, j, m, ino); }
  }

  lemma LaterBlock(v: Vol, a: nat, j: nat, m: nat, k: nat, i: nat, ino: nat)
    requires DirOk(v, a) && j <= k < BLOCKS && m < |Here(v, a, j)| && i < |Here(v, a, k)|
    requires Target(Here(v, a, j)[m], ino) && Target(Here(v, a, k)[i], ino)
    ensures j == k
  {
    hide Here, Block, Listing, Entered, Upto, From, CleanOk, DotsOk, NoIdleBlock;
    TargetPlace(v, a, j, m, ino);
    TargetPlace(v, a, k, i, ino);
    var p := PlaceOf(v, a, j, m);
    var q := PlaceOf(v, a, k, i);
    LiveSplit(Here(v, a, j), m);
    if j < k { UptoGrows(v, a, j, k); }
  }

  lemma TargetPlace(v: Vol, a: nat, k: nat, i: nat, ino: nat)
    requires DirOk(v, a) && k < BLOCKS && i < |Here(v, a, k)| && Target(Here(v, a, k)[i], ino)
    ensures k == 0 ==> i >= 2
  {
    hide Here, Listing;
    if k == 0 { FirstBlockEntries(v, a); }
  }

  lemma {:induction false} UptoGrows(v: Vol, a: nat, j: nat, k: nat)
    requires a in v.inodes && j < k <= BLOCKS
    ensures |Entered(Upto(v, a, k))| >= |Entered(Upto(v, a, j))| + |Entered(Here(v, a, j))|
    decreases k
  {
    hide Here, Entered;
    LiveAppend(Upto(v, a, k - 1), Here(v, a, k - 1));
    if j < k - 1 { UptoGrows(v, a, j, k - 1); }
  }

  /** The found entry is cleared in its block. */
  method ClearSlot(p: Partition, a: nat, k: nat, i: nat, x: nat, ghost ino: nat)
    requires a in p.inodes && k < BLOCKS && i < PER_SECTOR && i < |Here(p.View(), a, k)| && p.inodes[a].size >= ENTRY
    requires NotBefore(p.View(), a, k, ino) && Target(Here(p.View(), a, k)[i], ino) && x == Block(p.View(), a, k) && !Alone(Here(p.View(), a, k))
    modifies p`disk, p`inodes
    ensures DeletedAt(old(p.View()), p.View(), a, k, i, ino)
  {
    hide Patch, Here, Others, Block;
    p.disk := p.disk[x := Patch(Read(p.disk, x), ENTRY * i, Zeros(ENTRY))];
    p.inodes := p.inodes[a := p.inodes[a].(size := p.inodes[a].size - ENTRY)];
  }

  /** The found entry was the last of its block: the block is given back. */
  method GiveBlock(p: Partition, a: nat, k: nat, i: nat, ghost ino: nat)
    requires a in p.inodes && k < DIRECT && i < PER_SECTOR && i < |Here(p.View(), a, k)| && p.inodes[a].size >= ENTRY
    requires NotBefore(p.View(), a, k, ino) && Target(Here(p.View(), a, k)[i], ino) && Alone(Here(p.View(), a, k)) && InRange(p.View(), Block(p.View(), a, k))
    modifies p`inodes, p.bmap.bits
    ensures DeletedAt(old(p.View()), p.View(), a, k, i, ino)
  {
    hide Here, Others;
    var x := p.inodes[a].sectors[k];
    assert x == Block(p.View(), a, k);
    hide Block;
    p.bmap.Set(x - p.start, false);
    p.inodes := p.inodes[a := Inode(p.inodes[a].size - ENTRY, p.inodes[a].sectors[k := 0])];
  }

  lemma DirShape(v: Vol, a: nat)
    requires DirOk(v, a)
    ensures a in v.inodes && v.inodes[a].size == ENTRY * |Listing(v, a)| >= ENTRY
  {
  }

  /** What ScanBlock needs to know about block k, and what it may find there. */
  lemma SlotsReady(v: Vol, a: nat, k: nat, ino: nat)
    requires DirOk(v, a) && k < BLOCKS && Block(v, a, k) != 0
    ensures var l := Here(v, a, k);
            && (forall i, j :: 0 <= i < j < |l| && Target(l[i], ino) ==> !Target(l[j], ino))
            && (forall i :: 0 <= i < |l| && Target(l[i], ino) ==> (k == 0 ==> i >= 2))
  {
    hide Block, Here, Upto, From, Entered, CleanOk, DotsOk, Listing, ListOk;
    var l := Here(v, a, k);
    forall i | 0 <= i < |l| && Target(l[i], ino) ensures k == 0 ==> i >= 2 {
      TargetPlace(v, a, k, i, ino);
    }
    forall i, j | 0 <= i < j < |l| && Target(l[i], ino) ensures !Target(l[j], ino) {
      if Target(l[j], ino) { OneTarget(v, a, k, i, j); }
    }
  }

  lemma {:induction false} CountsIt(l: seq<Entry>, i: nat)
    requires i < |l| && l[i].kind != Unknown && !Dot(l[i])
    ensures |Others(l)| >= 1
  {
    if i > 0 { CountsIt(l[1..], i - 1); }
  }

  /** A block other than the first with one such entry holds nothing else. */
  lemma OnlyOne(v: Vol, a: nat, k: nat, i: nat)
    requires DirOk(v, a) && k < BLOCKS && Block(v, a, k) != 0 && i < |Here(v, a, k)| && Here(v, a, k)[i].kind != Unknown
    requires |Others(Here(v, a, k))| == 1 && !exists e :: e in Here(v, a, k) && e.kind != Unknown && e.name == "."
    ensures 0 < k && Entered(Here(v, a, k)) == [Here(v, a, k)[i]]
  {
    hide Block, Here, Upto, From, Entered, CleanOk, Listing, ListOk, DotsOk, Others;
    var l := Here(v, a, k);
    DirShape(v, a);
    FirstHasDot(v, a);
    BlockEntries(v, a, k);
    OthersAre(l);
    LiveIn(l);
    assert l[i] in Entered(l);
  }

  /** Outside the first block the scan counts all live entries and finds no ".". */
  lemma NotTheLast(v: Vol, a: nat, k: nat)
    requires DirOk(v, a) && 0 < k < BLOCKS
    ensures Others(Here(v, a, k)) == Entered(Here(v, a, k))
    ensures !exists e :: e in Here(v, a, k) && e.kind != Unknown && e.name == "."
  {
    hide Block, Here, Upto, From, Entered, CleanOk, Listing, ListOk, DotsOk, Others;
    BlockEntries(v, a, k);
    OthersAre(Here(v, a, k));
  }

  lemma FirstHasDot(v: Vol, a: nat)
    requires DirOk(v, a)
    ensures exists e :: e in Here(v, a, 0) && e.kind != Unknown && e.name == "."
  {
    FirstBlockEntries(v, a);
    assert Here(v, a, 0)[0] in Here(v, a, 0);
  }

  lemma {:induction false} ListedSomewhere(v: Vol, a: nat, k: nat, e: Entry) returns (j: nat)
    requires a in v.inodes && k <= BLOCKS && e in From(v, a, k)
    ensures k <= j < BLOCKS && e in Here(v, a, j)
    decreases BLOCKS - k
  {
    if e in Here(v, a, k) { j := k; } else { j := ListedSomewhere(v, a, k + 1, e); }
  }

  lemma NowhereListed(v: Vol, a: nat, ino: nat)
    requires DirOk(v, a) && forall j: nat, e :: j < BLOCKS && e in Here(v, a, j) ==> !Target(e, ino)
    ensures forall i :: 2 <= i < |Listing(v, a)| ==> Listing(v, a)[i].ino != ino
  {
    hide Block, Here, Upto, From, Entered, CleanOk, DotsOk;
    var l := Listing(v, a);
    LiveIn(From(v, a, 0));
    forall i | 2 <= i < |l| ensures l[i].ino != ino {
      assert l[i] in Entered(From(v, a, 0)) && Proper(l[i].name);
      var j := ListedSomewhere(v, a, 0, l[i]);
      assert !Target(l[i], ino);
    }
  }
}
