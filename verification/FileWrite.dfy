/** file_write of fs/file.c on a mounted partition: the planning of blocks in its three cases,
    the write loop, and what they do to the file and to all other files. */
module FileWrite {
  import opened Basics
  import opened Bitmap
  import opened Entries
  import opened Sectors
  import opened Volume
  import opened Layout

  // --------------------------------------------- from the planning loops to Placed

  lemma DirectPlaced(v: Vol, v1: Vol, a: nat, got: seq<nat>, lo: nat, hi: nat)
    requires Took(v, v1.bits, got) && a in v.inodes && lo <= hi <= DIRECT && |got| == hi - lo
    requires v1 == v.(bits := v1.bits, inodes := v.inodes[a := v.inodes[a].(sectors := WithDirect(v.inodes[a].sectors, got, lo))])
    ensures Placed(v, v1, a, got, lo, hi, 0 - lo, false)
  {
  }

  /** i_sectors after the blocks `got` have been stored from index lo on. */
  function WithDirect(s: SectorList, got: seq<nat>, lo: nat): SectorList
    requires lo + |got| <= DIRECT
  {
    s[..lo] + got + s[lo + |got|..]
  }

  lemma WithOneMore(s: SectorList, got: seq<nat>, lo: nat, x: nat)
    requires lo + |got| < DIRECT
    ensures WithDirect(s, got, lo)[lo + |got| := x] == WithDirect(s, got + [x], lo)
  {
  }

  /** A directory block with the two dots. */
  function DotsBlock(n: nat, parent: nat): Sector
    requires n < U32 && parent < U32
  {
    Patch(Patch(Zeros(SECTOR), 0, EntryBytes(Entry(".", n, Directory))), ENTRY, EntryBytes(Entry("..", parent, Directory)))
  }

  /** The first free block has a number divisible by 256: narrowed to 8 bits it reads 0. */
  ghost predicate UnluckyBlock(bits: seq<bool>) {
    FirstFit(bits, 1).Some? && FirstFit(bits, 1).value % 256 == 0
  }

  lemma TableWords(s: Sector)
    ensures forall i :: 0 <= i < WORDS ==> Table(s)[i] < U32
  {
  }

  lemma AcrossPlaced(v: Vol, v1: Vol, a: nat, got: seq<nat>, has: nat, will: nat, all: seq<nat>)
    requires Took(v, v1.bits, got) && a in v.inodes && 0 < has <= DIRECT < will <= BLOCKS == |all| && |got| == 1 + will - has
    requires v1.start == v.start > 0 && a in v1.inodes && v1.inodes == v.inodes[a := v1.inodes[a]]
    requires v.inodes[a].sectors[12] == 0 && v1.inodes[a].sectors[12] == got[0] && (forall x :: x != got[0] ==> Read(v1.disk, x) == Read(v.disk, x))
    requires Table(Read(v1.disk, got[0])) == all[DIRECT..]
    requires forall j :: 0 <= j < DIRECT ==> v1.inodes[a].sectors[j] == if has <= j < will then got[1 + j - has] else v.inodes[a].sectors[j]
    requires all[has - 1] == v.inodes[a].sectors[has - 1]
    requires forall j :: has <= j < will ==> all[j] == got[1 + j - has]
    requires forall j :: will <= j < BLOCKS ==> all[j] == 0
    ensures Placed(v, v1, a, got, has, will, 1 - has, true)
    ensures forall k: nat :: has - 1 <= k < will ==> all[k] == Block(v1, a, k)
  {
    hide Table;
    assert got[0] in got;
  }

  lemma IndirectPlaced(v: Vol, v1: Vol, a: nat, got: seq<nat>, will: nat, all: seq<nat>)
    requires Took(v, v1.bits, got) && a in v.inodes && DIRECT < will <= BLOCKS == |all| && |got| == will
    requires v1.start == v.start > 0 && v1.inodes == v.inodes && v.inodes[a].sectors[12] != 0
    requires forall x :: x != v.inodes[a].sectors[12] ==> Read(v1.disk, x) == Read(v.disk, x)
    requires Table(Read(v1.disk, v.inodes[a].sectors[12])) == all[DIRECT..]
    requires forall j :: 0 <= j < will ==> all[j] == got[j]
    requires forall j :: will <= j < BLOCKS ==> all[j] == Table(Read(v.disk, v.inodes[a].sectors[12]))[j - DIRECT]
    ensures Placed(v, v1, a, got, DIRECT, will, 0, false)
    ensures forall k: nat :: DIRECT <= k < will ==> all[k] == Block(v1, a, k)
  {
  }

  // ------------------------------------------------------------ what planning achieves

  /** The third situation: the file already has an index block and needs more blocks. */
  predicate Loses(has: nat, will: nat) { has > DIRECT && will > has }

  /** Blocks 0..will are there.  An old block is kept, contents and all, unless it lies behind
      the index block in the third situation: then a block that was free has taken its place. */
  ghost predicate Grew(v: Vol, v1: Vol, a: nat, has: nat, will: nat) {
    && a in v.inodes && v1.inodes.Keys == v.inodes.Keys && v1.inodes[a].size == v.inodes[a].size && has <= will <= BLOCKS
    && (forall k: nat :: k < BLOCKS ==> (Block(v1, a, k) != 0 <==> k < will)) && (Block(v1, a, INDEX) != 0 <==> will > DIRECT)
    && (forall k: nat :: k < will ==> Read(v1.disk, Block(v1, a, k)) == Read(v.disk, Block(v1, a, k)))
    && (forall k: nat :: k < has ==>
          if k < DIRECT || !Loses(has, will) then Block(v1, a, k) == Block(v, a, k)
          else Block(v1, a, k) != Block(v, a, k) && !InUse(v, Block(v1, a, k)))
  }

  ghost predicate HasBlocks(v: Vol, a: nat, n: nat) {
    && a in v.inodes && n <= BLOCKS && (forall k: nat :: k < BLOCKS ==> (Block(v, a, k) != 0 <==> k < n))
    && (Block(v, a, INDEX) != 0 <==> n > DIRECT)
  }

  lemma PlacedGrows(v: Vol, v1: Vol, a: nat, got: seq<nat>, has: nat, will: nat, off: int, index: bool)
    requires OwnOk(v) && OwnOk(v1) && HasBlocks(v, a, has) && has <= will && v1.inodes.Keys == v.inodes.Keys
    requires var lo := if has > DIRECT then DIRECT else has; Placed(v, v1, a, got, lo, will, off, index)
    requires index <==> has <= DIRECT < will
    requires v1.inodes[a].size == v.inodes[a].size && (Loses(has, will) || has <= DIRECT)
    ensures Grew(v, v1, a, has, will)
  {
    assert Block(v1, a, INDEX) == v1.inodes[a].sectors[12];
    hide Block;
    assert forall x :: x in got ==> x > 0 && !InUse(v, x);
    forall k: nat | k < has && Block(v1, a, k) in got ensures Block(v1, a, k) != Block(v, a, k) {
      assert InUse(v, Block(v, a, k));
    }
    var lo := if has > DIRECT then DIRECT else has;
    forall k: nat | k < will ensures Block(v1, a, k) != 0 && Block(v1, a, k) != Block(v1, a, INDEX) {
      if k >= lo {
        assert Block(v1, a, k) == got[off + k];
        assert got[off + k] in got;
      } else {
        assert Block(v1, a, k) == Block(v, a, k);
      }
    }
    forall k: nat | will <= k < BLOCKS ensures Block(v1, a, k) == 0 {
      assert Block(v1, a, k) == Block(v, a, k);
    }
    assert index ==> got[0] in got;
  }

  lemma PlacedPlans(v: Vol, v1: Vol, a: nat, got: seq<nat>, has: nat, will: nat, off: int, index: bool)
    requires OwnOk(v) && HasBlocks(v, a, has) && has < will && (index <==> has <= DIRECT < will)
    requires var lo := if has > DIRECT then DIRECT else has; Placed(v, v1, a, got, lo, will, off, index)
    requires a in v1.inodes && v1.inodes[a].size == v.inodes[a].size
    ensures OwnOk(v1) && Isolated(v, v1, a) && Grew(v, v1, a, has, will)
  {
    var lo := if has > DIRECT then DIRECT else has;
    PlacedKeeps(v, v1, a, got, lo, will, off, index);
    PlacedIsolated(v, v1, a, got, lo, will, off, index);
    PlacedGrows(v, v1, a, got, has, will, off, index);
  }

  /** Which i_sectors are in use when the first n blocks are. */
  lemma SectorsAre(v: Vol, a: nat, n: nat)
    requires HasBlocks(v, a, n) && n > 0
    ensures forall k :: 0 <= k < DIRECT ==> (v.inodes[a].sectors[k] != 0 <==> k < n)
    ensures v.inodes[a].sectors[12] != 0 <==> n > DIRECT
  {
    forall k: nat | k < DIRECT ensures v.inodes[a].sectors[k] == Block(v, a, k) {}
    assert Block(v, a, INDEX) == v.inodes[a].sectors[12];
  }

  lemma GrewSelf(v: Vol, a: nat, has: nat)
    requires HasBlocks(v, a, has)
    ensures Grew(v, v, a, has, has)
  {
    assert !Loses(has, has);
  }

  // --------------------------------------------------------------- what writing achieves

  datatype WriteResult = Written(n: nat) | TooLarge | Crash(at: Halt)

  /** The number of data blocks a file has. */
  function Count(v: Vol, a: nat): nat
    requires a in v.inodes
  {
    if v.inodes[a].sectors[0] == 0 then 0 else Needed(v.inodes[a].size)
  }

  ghost predicate Appended(v: Vol, v1: Vol, a: nat, buf: seq<byte>) {
    && a in v.inodes && v1.inodes.Keys == v.inodes.Keys && FileOk(v1, a) && Isolated(v, v1, a)
    && var size := v.inodes[a].size; var lost := Loses(Needed(size), Needed(size + |buf|));
       && v1.inodes[a].size == size + |buf|
       && (forall j: nat :: j < |buf| ==> ByteAt(v1, a, size + j) == buf[j])
       && (forall i: nat :: i < size && (i / SECTOR < DIRECT || !lost) ==> ByteAt(v1, a, i) == ByteAt(v, a, i))
       && (forall i: nat :: i < size && i / SECTOR >= DIRECT && lost ==>
             var x := Block(v1, a, i / SECTOR); !InUse(v, x) && ByteAt(v1, a, i) == Read(v.disk, x)[i % SECTOR])
       && (forall k: nat :: k < Count(v, a) && k < BLOCKS ==> (Block(v1, a, k) == Block(v, a, k) <==> k < DIRECT || !lost))
  }

  lemma FileHasBlocks(v: Vol, a: nat)
    requires FileOk(v, a) && v.inodes[a].sectors[0] != 0
    ensures HasBlocks(v, a, Needed(v.inodes[a].size))
  {
  }

  lemma FirstPlaced(v: Vol, v1: Vol, a: nat, got: seq<nat>)
    requires OwnOk(v) && FileOk(v, a) && v.inodes[a].sectors[0] == 0 && Placed(v, v1, a, got, 0, 1, 0, false)
    requires v1.inodes[a].size == v.inodes[a].size
    ensures OwnOk(v1) && Isolated(v, v1, a) && HasBlocks(v1, a, 1) && v1.inodes.Keys == v.inodes.Keys
  {
    PlacedKeeps(v, v1, a, got, 0, 1, 0, false);
    PlacedIsolated(v, v1, a, got, 0, 1, 0, false);
    hide Block;
    assert got[0] in got;
  }

  lemma PlannedReady(v: Vol, v1: Vol, a: nat, count: nat, all: seq<nat>)
    requires a in v.inodes && |all| == BLOCKS && Grew(v, v1, a, Needed(v.inodes[a].size), Needed(v.inodes[a].size + count))
    requires forall k: nat :: Needed(v.inodes[a].size) - 1 <= k < Needed(v.inodes[a].size + count) ==> all[k] == Block(v1, a, k)
    ensures a in v1.inodes && v1.inodes[a].size == v.inodes[a].size && Needed(v.inodes[a].size + count) <= BLOCKS
    ensures forall k: nat :: v1.inodes[a].size / SECTOR <= k < Needed(v1.inodes[a].size + count) ==> all[k] == Block(v1, a, k) != 0
  {
  }

  /** v0 is the state after the first block, v1 after planning, v2 after the write loop. */
  lemma IsAppended(v: Vol, v0: Vol, v1: Vol, v2: Vol, a: nat, buf: seq<byte>)
    requires a in v.inodes && v0.inodes.Keys == v.inodes.Keys && v0.inodes[a].size == v.inodes[a].size && v.inodes[a].size + |buf| < BLOCKS * SECTOR
    requires v0 == v || (v.inodes[a].sectors[0] == 0 && v.inodes[a].size == 0 && Isolated(v, v0, a))
    requires OwnOk(v1) && Isolated(v0, v1, a) && Grew(v0, v1, a, Needed(v.inodes[a].size), Needed(v.inodes[a].size + |buf|))
    requires v2.inodes == v1.inodes[a := v1.inodes[a].(size := v.inodes[a].size + |buf|)] && Isolated(v1, v2, a)
    requires forall k: nat :: k <= INDEX ==> Block(v2, a, k) == Block(v1, a, k)
    requires forall i: nat :: i < v.inodes[a].size ==> ByteAt(v2, a, i) == ByteAt(v1, a, i)
    requires forall j: nat :: j < |buf| ==> ByteAt(v2, a, v.inodes[a].size + j) == buf[j]
    ensures Appended(v, v2, a, buf)
  {
    hide Block, ByteAt, Isolated, FileOk;
    if v0 != v { IsolatedTrans(v, v0, v1, a); }
    IsolatedTrans(v, v1, v2, a);
    WrittenFileOk(v0, v1, v2, a);
    forall i: nat | i < v.inodes[a].size
      ensures var x := Block(v2, a, i / SECTOR); ByteAt(v2, a, i) == Read(v.disk, x)[i % SECTOR]
      ensures i / SECTOR < Needed(v.inodes[a].size) <= BLOCKS && ByteAt(v, a, i) == Read(v.disk, Block(v, a, i / SECTOR))[i % SECTOR]
    {
      PlannedByte(v0, v1, a, Needed(v.inodes[a].size), Needed(v.inodes[a].size + |buf|), i);
    }
  }

  lemma PlannedByte(v: Vol, v1: Vol, a: nat, has: nat, will: nat, i: nat)
    requires Grew(v, v1, a, has, will) && i < v.inodes[a].size && has == Needed(v.inodes[a].size)
    ensures i / SECTOR < has <= BLOCKS && ByteAt(v1, a, i) == Read(v.disk, Block(v1, a, i / SECTOR))[i % SECTOR]
    ensures ByteAt(v, a, i) == Read(v.disk, Block(v, a, i / SECTOR))[i % SECTOR]
  {
  }

  lemma WrittenFileOk(v: Vol, v1: Vol, v2: Vol, a: nat)
    requires a in v2.inodes && v2.inodes[a].size < BLOCKS * SECTOR && a in v.inodes
    requires Grew(v, v1, a, Needed(v.inodes[a].size), Needed(v2.inodes[a].size))
    requires forall k: nat :: k <= INDEX ==> Block(v2, a, k) == Block(v1, a, k)
    ensures FileOk(v2, a)
  {
    assert Block(v2, a, 0) == v2.inodes[a].sectors[0];
    hide Block;
  }

  /** A file_write that is not in the third situation appends: the new content is the old one
      followed by the buffer. */
  lemma AppendContent(v: Vol, v1: Vol, a: nat, buf: seq<byte>)
    requires FileOk(v, a) && Appended(v, v1, a, buf) && !Loses(Needed(v.inodes[a].size), Needed(v.inodes[a].size + |buf|))
    ensures Content(v1, a) == Content(v, a) + buf
  {
    hide Block, ByteAt, Isolated;
    var size := v.inodes[a].size;
    forall i: nat | i < size + |buf| ensures Content(v1, a)[i] == (Content(v, a) + buf)[i] {
      if i >= size { assert ByteAt(v1, a, size + (i - size)) == buf[i - size]; }
    }
  }

  /** The blocks of the old content stay the file's blocks exactly outside the third situation:
      when the file has an index block and the write needs another block, none of the blocks
      behind the index block survives. */
  lemma BlocksKeptIff(v: Vol, v1: Vol, a: nat, buf: seq<byte>)
    requires FileOk(v, a) && Appended(v, v1, a, buf)
    ensures (forall k: nat :: k < Count(v, a) && k < BLOCKS ==> Block(v1, a, k) == Block(v, a, k))
            <==> !Loses(Needed(v.inodes[a].size), Needed(v.inodes[a].size + |buf|))
  {
    hide Block, ByteAt, Isolated;
    if Loses(Needed(v.inodes[a].size), Needed(v.inodes[a].size + |buf|)) {
      assert Block(v1, a, DIRECT) != Block(v, a, DIRECT);
    }
  }

  /** No sector without an owner's mark holds anything but zeros. */
  ghost predicate FreeIsZero(v: Vol) {
    forall x :: !InUse(v, x) ==> Read(v.disk, x) == Zeros(SECTOR)
  }

  /** On such a disk the write appends if and only if it is outside the third situation or all
      old bytes from 6144 on are zero. */
  lemma AppendsIff(v: Vol, v1: Vol, a: nat, buf: seq<byte>)
    requires FileOk(v, a) && Appended(v, v1, a, buf) && FreeIsZero(v)
    ensures var size := v.inodes[a].size;
            Content(v1, a) == Content(v, a) + buf <==>
            !Loses(Needed(size), Needed(size + |buf|)) || forall i :: 6144 <= i < size ==> Content(v, a)[i] == 0
  {
    hide Block, ByteAt, Isolated, Appended;
    var size := v.inodes[a].size;
    if !Loses(Needed(size), Needed(size + |buf|)) {
      AppendContent(v, v1, a, buf);
    } else {
      AppendedSize(v, v1, a, buf);
      forall i | 0 <= i < size + |buf|
        ensures Content(v1, a)[i] == if i < size then (if i < 6144 then Content(v, a)[i] else 0) else buf[i - size]
      {
        WrittenByte(v, v1, a, buf, i);
      }
      if i :| 6144 <= i < size && Content(v, a)[i] != 0 {
        assert (Content(v, a) + buf)[i] == Content(v, a)[i];
      } else {
        assert Content(v1, a) == Content(v, a) + buf;
      }
    }
  }

  lemma AppendedSize(v: Vol, v1: Vol, a: nat, buf: seq<byte>)
    requires Appended(v, v1, a, buf)
    ensures a in v.inodes && a in v1.inodes && v1.inodes[a].size == v.inodes[a].size + |buf| < BLOCKS * SECTOR
  {
  }

  lemma WrittenByte(v: Vol, v1: Vol, a: nat, buf: seq<byte>, i: nat)
    requires FileOk(v, a) && Appended(v, v1, a, buf) && FreeIsZero(v) && i < v.inodes[a].size + |buf|
    requires Loses(Needed(v.inodes[a].size), Needed(v.inodes[a].size + |buf|))
    ensures var size := v.inodes[a].size;
            Content(v1, a)[i] == if i < size then (if i < 6144 then Content(v, a)[i] else 0) else buf[i - size]
  {
    hide Block, ByteAt, Isolated;
    var size := v.inodes[a].size;
    assert i / SECTOR >= DIRECT <==> i >= 6144;
    if i >= size { assert ByteAt(v1, a, size + (i - size)) == buf[i - size]; }
  }

  /** A concrete case: 512 bytes appended to a file of 6200 whose byte 6144 is not zero. */
  lemma OldBlockLost(v: Vol, v1: Vol, a: nat, buf: seq<byte>)
    requires FileOk(v, a) && v.inodes[a].size == 6200 && |buf| == 512 && Appended(v, v1, a, buf)
    requires FreeIsZero(v) && Content(v, a)[6144] != 0
    ensures Content(v1, a) != Content(v, a) + buf && Content(v1, a)[6144] == 0
  {
    hide FileOk, Content, Appended, FreeIsZero;
    assert Loses(Needed(6200), Needed(6200 + |buf|));
    AppendsIff(v, v1, a, buf);
    WrittenByte(v, v1, a, buf, 6144);
  }

  // ------------------------------------------------------------- the steps of file_write

  /** The first block of a file that has none. */
  ghost predicate Begun(v: Vol, v1: Vol, a: nat) {
    && a in v.inodes && a in v1.inodes && v1.inodes[a].size == v.inodes[a].size
    && if v.inodes[a].sectors[0] != 0 then v1 == v else exists got :: Placed(v, v1, a, got, 0, 1, 0, false)
  }

  /** The further blocks that `count` more bytes call for. */
  ghost predicate Planned(v: Vol, v1: Vol, a: nat, count: nat) {
    && a in v.inodes && a in v1.inodes && v1.inodes[a].size == v.inodes[a].size
    && var has, will := Needed(v.inodes[a].size), Needed(v.inodes[a].size + count);
       if will == has then v1 == v else PlacedNew(v, v1, a, Anew(has), will, Ahead(has, will) - Anew(has), has <= DIRECT < will)
  }

  /** The first block that planning allocates anew. */
  function Anew(has: nat): nat { if has > DIRECT then DIRECT else has }

  /** How many blocks are taken that do not become data blocks: the index block in the second situation;
      in the third, twelve that nothing will ever point to. */
  function Ahead(has: nat, will: nat): nat { if has > DIRECT then DIRECT else if will > DIRECT then 1 else 0 }

  ghost predicate PlacedNew(v: Vol, v1: Vol, a: nat, lo: nat, hi: nat, off: int, index: bool) {
    exists got :: Placed(v, v1, a, got, lo, hi, off, index)
  }

  ghost predicate IsData(v: Vol, a: nat, x: nat)
    requires a in v.inodes
  {
    exists k: nat :: k < BLOCKS && Block(v, a, k) == x
  }

  /** The bytes stored: only sectors of a's data blocks are written, and they hold the old bytes
      followed by `buf`. */
  ghost predicate Stored(v: Vol, v1: Vol, a: nat, buf: seq<byte>) {
    && a in v.inodes && v.inodes[a].size + |buf| < BLOCKS * SECTOR
    && v1 == v.(disk := v1.disk, inodes := v.inodes[a := v.inodes[a].(size := v.inodes[a].size + |buf|)])
    && (forall x :: !IsData(v, a, x) ==> Read(v1.disk, x) == Read(v.disk, x))
    && (forall i: nat :: i < v.inodes[a].size ==> ByteAt(v1, a, i) == ByteAt(v, a, i))
    && (forall j: nat :: j < |buf| ==> ByteAt(v1, a, v.inodes[a].size + j) == buf[j])
  }

  /** All that a completed file_write does. */
  ghost predicate Wrote(v: Vol, v1: Vol, a: nat, buf: seq<byte>) {
    exists v0, vp :: Begun(v, v0, a) && Planned(v0, vp, a, |buf|) && Stored(vp, v1, a, buf)
  }

  lemma IndexesSame(v: Vol, v1: Vol, a: nat, b: nat)
    requires OwnOk(v) && a in v.inodes && b in v.inodes && b in v1.inodes && v1.inodes[b].sectors == v.inodes[b].sectors
    requires forall x :: !IsData(v, a, x) ==> Read(v1.disk, x) == Read(v.disk, x)
    ensures SameIndex(v, v1, b)
  {
    assert Block(v, b, INDEX) == v.inodes[b].sectors[12];
    hide Block;
  }

  /** Storing bytes in data blocks moves no block and touches no other inode. */
  lemma StoredKeeps(v: Vol, v1: Vol, a: nat, buf: seq<byte>)
    requires OwnOk(v) && Stored(v, v1, a, buf)
    ensures OwnOk(v1) && Isolated(v, v1, a) && forall b, k: nat :: b in v.inodes && k <= INDEX ==> Block(v1, b, k) == Block(v, b, k)
  {
    forall b | b in v.inodes ensures forall k: nat :: k <= INDEX ==> Block(v1, b, k) == Block(v, b, k) {
      IndexesSame(v, v1, a, b);
      SameBlocks(v, v1, b);
    }
    hide Block, ByteAt;
    assert forall b, k: nat :: b in v.inodes && b != a && k <= INDEX && Block(v, b, k) != 0 ==> !IsData(v, a, Block(v, b, k));
  }

  lemma BegunHas(v: Vol, v0: Vol, a: nat)
    requires OwnOk(v) && FileOk(v, a) && Begun(v, v0, a)
    ensures OwnOk(v0) && HasBlocks(v0, a, Needed(v0.inodes[a].size)) && v0.inodes.Keys == v.inodes.Keys
    ensures v0 == v || (v.inodes[a].sectors[0] == 0 && v.inodes[a].size == 0 && Isolated(v, v0, a))
  {
    if v.inodes[a].sectors[0] == 0 {
      var got :| Placed(v, v0, a, got, 0, 1, 0, false);
      FirstPlaced(v, v0, a, got);
    } else {
      FileHasBlocks(v, a);
    }
  }

  lemma PlannedBy(v: Vol, v1: Vol, a: nat, count: nat, got: seq<nat>, off: int)
    requires a in v.inodes && a in v1.inodes && v1.inodes[a].size == v.inodes[a].size
    requires var has, will := Needed(v.inodes[a].size), Needed(v.inodes[a].size + count);
             has < will && off + Anew(has) == Ahead(has, will) && Placed(v, v1, a, got, Anew(has), will, off, has <= DIRECT < will)
    ensures Planned(v, v1, a, count)
  {
    hide Placed;
    var has, will := Needed(v.inodes[a].size), Needed(v.inodes[a].size + count);
    assert PlacedNew(v, v1, a, Anew(has), will, Ahead(has, will) - Anew(has), has <= DIRECT < will);
  }

  lemma PlannedGrows(v: Vol, v1: Vol, a: nat, count: nat)
    requires OwnOk(v) && a in v.inodes && HasBlocks(v, a, Needed(v.inodes[a].size)) && Planned(v, v1, a, count)
    requires v.inodes[a].size + count < BLOCKS * SECTOR
    ensures OwnOk(v1) && Isolated(v, v1, a) && Grew(v, v1, a, Needed(v.inodes[a].size), Needed(v.inodes[a].size + count))
  {
    hide OwnOk, Isolated, Placed, HasBlocks, Grew;
    var has, will := Needed(v.inodes[a].size), Needed(v.inodes[a].size + count);
    if will == has {
      GrewSelf(v, a, has);
      IsolatedSelf(v, a);
    } else {
      var lo, off, index := Anew(has), Ahead(has, will) - Anew(has), has <= DIRECT < will;
      var got :| Placed(v, v1, a, got, lo, will, off, index);
      PlacedPlans(v, v1, a, got, has, will, off, index);
    }
  }

  /** The steps of file_write keep block ownership and append. */
  lemma WroteAppends(v: Vol, v1: Vol, a: nat, buf: seq<byte>)
    requires OwnOk(v) && FileOk(v, a) && Wrote(v, v1, a, buf)
    ensures OwnOk(v1) && Appended(v, v1, a, buf)
  {
    hide OwnOk, Isolated, Grew, HasBlocks, Begun, Planned, FileOk, Block, ByteAt, Appended;
    var v0, vp :| Begun(v, v0, a) && Planned(v0, vp, a, |buf|) && Stored(vp, v1, a, buf);
    SizesSame(v, v0, vp, a, |buf|);
    BegunHas(v, v0, a);
    PlannedGrows(v0, vp, a, |buf|);
    StoredKeeps(vp, v1, a, buf);
    IsAppended(v, v0, vp, v1, a, buf);
  }

  lemma SizesSame(v: Vol, v0: Vol, v1: Vol, a: nat, count: nat)
    requires Begun(v, v0, a) && Planned(v0, v1, a, count)
    ensures a in v.inodes && a in v0.inodes && a in v1.inodes && v.inodes[a].size == v0.inodes[a].size == v1.inodes[a].size
  {
  }

  lemma FormattedOwn(v: Vol)
    requires 0 < v.start && 0 < |v.bits| && v.start + |v.bits| <= U32
    requires v.inodes == map[0 := Inode(2 * ENTRY, [v.start] + seq(12, _ => 0))]
    ensures OwnOk(v) <==> v.bits[0]
  {
    if OwnOk(v) { assert Block(v, 0, 0) == v.start; }
  }

  lemma PatchParts(s: seq<byte>, at: nat, data: seq<byte>)
    requires at + |data| <= |s|
    ensures Patch(s, at, data)[at..at + |data|] == data && Patch(s, at, data)[..at] == s[..at]
  {
  }

  lemma IsolatedSelf(v: Vol, a: nat)
    ensures Isolated(v, v, a)
  {
  }

  lemma ChunkPlace(size0: nat, written: nat, n: nat)
    requires written < n && size0 + n < BLOCKS * SECTOR
    ensures size0 / SECTOR <= (size0 + written) / SECTOR < Needed(size0 + n) <= BLOCKS
  {
  }

  lemma DataBlock(v: Vol, a: nat, k: nat)
    requires a in v.inodes && k < BLOCKS
    ensures IsData(v, a, Block(v, a, k))
  {
  }

  lemma LowestFree(b: seq<bool>, i: nat)
    requires FirstFit(b, 1) == Some(i)
    ensures i <= |b| && forall j :: 0 <= j < i ==> b[j]
  {
    FitFromExact(b, 1, 0);
    forall j | 0 <= j < i ensures b[j] {
      assert !FreeRun(b, j, 1);
    }
  }

  /** i_size - 1 as a uint32_t. */
  function Pos(size: nat): nat { (size - 1) % U32 }

  lemma PosMore(size: nat, n: nat)
    ensures (Pos(size) + n) % U32 == Pos(size + n)
  {
  }

  class Partition {
    const start: nat
    const bmap: ByteMap
    var disk: map<nat, Sector>
    var inodes: map<nat, Inode>

    function View(): Vol
      reads this, bmap.bits
    {
      Vol(start, bmap.Bits(), disk, inodes)
    }

    /** A partition of bitLen blocks just formatted and mounted: block 0 is the root directory's. */
    constructor (dataStart: nat, bitmapBytes: nat, bitLen: nat)
      requires 0 < dataStart && 0 < bitmapBytes && bitLen <= 8 * bitmapBytes && dataStart + 8 * bitmapBytes <= U32
      ensures start == dataStart && fresh(bmap.bits) && (OwnOk(View()) <==> bitLen >= 8)
      ensures inodes == map[0 := Inode(2 * ENTRY, [dataStart] + seq(12, _ => 0))]
      ensures Read(disk, dataStart) == DotsBlock(0, 0) && bmap.Bits() == FormatBits(8 * bitmapBytes, bitLen)
    {
      hide Block, OwnOk, DotsBlock;
      start := dataStart;
      bmap := new ByteMap(bitmapBytes);
      inodes := map[0 := Inode(2 * ENTRY, [dataStart] + seq(12, _ => 0))];
      disk := map[dataStart := DotsBlock(0, 0)];
      new;
      bmap.Set(0, true);
      MarkTail(bitLen);
      RootMarkedIff(8 * bitmapBytes, bitLen);
      FormattedOwn(View());
    }

    /** The bits of the last byte and of those behind it: first all set, then those up to and including
        bit bitLen % 8 of the last byte cleared. */
    method MarkTail(bitLen: nat)
      requires bmap.bits.Length > 0 && bitLen <= |bmap.Bits()| && bmap.Bits() == seq(|bmap.Bits()|, _ => false)[0 := true]
      modifies bmap.bits
      ensures bmap.Bits() == FormatBits(old(|bmap.Bits()|), bitLen)
    {
      ghost var n := |bmap.Bits()|;
      var last, i := bitLen / 8 * 8, bitLen / 8 * 8;
      while i < 8 * bmap.bits.Length
        invariant last <= i <= n == |bmap.Bits()|
        invariant forall k :: 0 <= k < n ==> (bmap.Bits()[k] <==> k == 0 || last <= k < i)
      {
        bmap.Set(i, true);
        i := i + 1;
      }
      i := 0;
      while last < 8 * bmap.bits.Length && i <= bitLen % 8
        invariant 0 <= i <= bitLen % 8 + 1 && n == |bmap.Bits()|
        invariant forall k :: 0 <= k < n ==> (bmap.Bits()[k] <==> if k < last then k == 0 else k >= last + i)
      {
        bmap.Set(last + i, false);
        i := i + 1;
      }
    }

    /** block_bitmap_alloc: the first free block, or the stop in bitmap_scan. */
    method AllocBlock() returns (lba: nat, halt: Halt)
      modifies bmap.bits
      ensures halt == (if Full(old(bmap.Bits())) then Stopped("lib/kernel/bitmap.c", 33) else Live)
      ensures halt != Live ==> bmap.Bits() == old(bmap.Bits())
      ensures halt == Live ==>
                var i := lba - start;
                0 <= i < |old(bmap.Bits())| && FirstFit(old(bmap.Bits()), 1) == Some(i)
                && !old(bmap.Bits())[i] && bmap.Bits() == old(bmap.Bits())[i := true]
    {
      var i: int;
      i, halt := bmap.Scan(1);
      if halt != Live {
        return 0, halt;
      }
      OneBit(bmap.Bits());
      bmap.Set(i, true);
      lba := start + i;
    }

    /** One more of the blocks that a call takes. */
    method AllocMore(ghost v: Vol, ghost got: seq<nat>) returns (lba: nat, halt: Halt)
      requires v.start == start && Took(v, bmap.Bits(), got)
      modifies bmap.bits
      ensures halt != Live ==> NoSpace(halt)
      ensures halt == Live ==> Took(v, bmap.Bits(), got + [lba]) && InRange(v, lba)
      ensures halt == Live ==> lba >= start && FirstFit(old(bmap.Bits()), 1) == Some(lba - start)
    {
      hide FirstFit, Full, Took, InRange;
      ghost var bits := bmap.Bits();
      lba, halt := AllocBlock();
      if halt == Live {
        LowestFree(bits, lba - start);
        TookMore(v, bits, got, lba - start);
      }
    }

    /** The first block of a file never written before. */
    method FirstBlock(a: nat) returns (halt: Halt, ghost got: seq<nat>)
      requires a in inodes
      modifies this`inodes, bmap.bits
      ensures halt != Live ==> NoSpace(halt) || (halt == Stopped("fs/file.c", 262) && UnluckyBlock(old(bmap.Bits())))
      ensures UnluckyBlock(old(bmap.Bits())) ==> halt != Live
      ensures halt == Live ==> Placed(old(View()), View(), a, got, 0, 1, 0, false) && a in inodes && inodes[a].size == old(inodes[a].size)
    {
      hide Placed, Took, FirstFit;
      ghost var v := View();
      var lba: nat;
      TookNone(v);
      lba, halt := AllocMore(v, []);
      got := [lba];
      if halt != Live {
        return;
      }
      inodes := inodes[a := inodes[a].(sectors := inodes[a].sectors[0 := lba])];
      assert [] + [lba] == got;
      WithOneMore(v.inodes[a].sectors, [], 0, lba);
      assert WithDirect(v.inodes[a].sectors, [], 0) == v.inodes[a].sectors;
      DirectPlaced(v, View(), a, got, 0, 1);
      if (lba - start) % 256 == 0 {
        halt := Stopped("fs/file.c", 262);  // block_bitmap_idx is a uint8_t
      }
    }

    /** Situation one: the direct blocks are enough. */
    method GrowDirect(a: nat, has: nat, will: nat, all: seq<nat>) returns (all1: seq<nat>, halt: Halt, ghost got: seq<nat>)
      requires a in inodes && 0 < has < will <= DIRECT && |all| == BLOCKS
      requires inodes[a].sectors[has - 1] != 0 && forall k :: has <= k < will ==> inodes[a].sectors[k] == 0
      modifies this`inodes, bmap.bits
      ensures halt != Live ==> NoSpace(halt)
      ensures halt == Live ==>
                && Placed(old(View()), View(), a, got, has, will, 0 - has, false) && a in inodes && inodes[a].size == old(inodes[a].size)
                && |all1| == BLOCKS && forall k: nat :: has - 1 <= k < will ==> all1[k] == Block(View(), a, k)
    {
      hide Placed, Took, FirstFit;
      ghost var v := View();
      halt, got, all1 := Live, [], all[has - 1 := inodes[a].sectors[has - 1]];
      var k := has;
      TookNone(v);
      assert WithDirect(v.inodes[a].sectors, [], has) == v.inodes[a].sectors;
      while k < will
        invariant has <= k <= will && |got| == k - has && |all1| == BLOCKS && halt == Live && disk == v.disk
        invariant Took(v, bmap.Bits(), got)
        invariant inodes == v.inodes[a := v.inodes[a].(sectors := WithDirect(v.inodes[a].sectors, got, has))]
        invariant forall j :: has - 1 <= j < k ==> all1[j] == inodes[a].sectors[j]
      {
        var lba: nat;
        lba, halt := AllocMore(v, got);
        if halt != Live {
          return;
        }
        assert inodes[a].sectors[k] == 0;  // ASSERT, line 306
        WithOneMore(v.inodes[a].sectors, got, has, lba);
        inodes := inodes[a := inodes[a].(sectors := inodes[a].sectors[k := lba])];
        all1 := all1[k := lba];
        got := got + [lba];
        k := k + 1;
      }
      DirectPlaced(v, View(), a, got, has, will);
    }

    /** Situation two: the file outgrows the direct blocks. */
    method GrowAcross(a: nat, has: nat, will: nat, all: seq<nat>) returns (all1: seq<nat>, halt: Halt, ghost got: seq<nat>)
      requires a in inodes && 0 < has <= DIRECT < will <= BLOCKS && |all| == BLOCKS && 0 < start && start + |bmap.Bits()| <= U32
      requires forall k :: has <= k < 13 ==> inodes[a].sectors[k] == 0
      requires forall k :: DIRECT <= k < BLOCKS ==> all[k] == 0
      modifies this`inodes, this`disk, bmap.bits
      ensures halt != Live ==> NoSpace(halt)
      ensures halt == Live ==>
                && Placed(old(View()), View(), a, got, has, will, 1 - has, true) && a in inodes && inodes[a].size == old(inodes[a].size)
                && |all1| == BLOCKS && forall k: nat :: has - 1 <= k < will ==> all1[k] == Block(View(), a, k)
    {
      hide Placed, Took, FirstFit, Full, InRange, Table, TableBytes;
      ghost var v := View();
      ghost var s0 := v.inodes[a].sectors;
      all1 := all[has - 1 := inodes[a].sectors[has - 1]];
      TookNone(v);
      var index, lba: nat;
      index, halt := AllocMore(v, []);
      got := [index];
      if halt != Live {
        return;
      }
      assert [] + [index] == got;
      assert inodes[a].sectors[12] == 0;  // ASSERT, line 327
      inodes := inodes[a := inodes[a].(sectors := inodes[a].sectors[12 := index])];
      var k := has;
      while k < will
        invariant has <= k <= will && |got| == 1 + k - has && got[0] == index && |all1| == BLOCKS && halt == Live && disk == v.disk
        invariant Took(v, bmap.Bits(), got) && a in inodes && inodes[a].size == v.inodes[a].size && inodes[a].sectors[12] == index
        invariant inodes == v.inodes[a := inodes[a]]
        invariant forall j :: 0 <= j < DIRECT ==> inodes[a].sectors[j] == if has <= j < k then got[1 + j - has] else s0[j]
        invariant all1[has - 1] == s0[has - 1]
        invariant forall j :: has <= j < k ==> all1[j] == got[1 + j - has]
        invariant forall j :: DIRECT <= j < BLOCKS && k <= j ==> all1[j] == 0
      {
        lba, halt := AllocMore(v, got);
        if halt != Live {
          return;
        }
        if k < DIRECT {
          assert inodes[a].sectors[k] == 0;  // ASSERT, line 341
          inodes := inodes[a := inodes[a].(sectors := inodes[a].sectors[k := lba])];
        }
        all1 := all1[k := lba];
        got := got + [lba];
        k := k + 1;
      }
      disk := WriteTable(v, bmap.Bits(), got, disk, index, all1);
      AcrossPlaced(v, View(), a, got, has, will, all1);
    }

    /** Situation three: the new blocks lie behind the index block.  The loop starts at block 0. */
    method GrowIndirect(a: nat, has: nat, will: nat, all: seq<nat>) returns (all1: seq<nat>, halt: Halt, ghost got: seq<nat>)
      requires a in inodes && DIRECT < has < will <= BLOCKS && |all| == BLOCKS && 0 < start && start + |bmap.Bits()| <= U32
      requires inodes[a].sectors[12] != 0
      modifies this`inodes, this`disk, bmap.bits
      ensures halt != Live ==> NoSpace(halt)
      ensures halt == Live ==>
                && Placed(old(View()), View(), a, got, DIRECT, will, 0, false) && a in inodes && inodes[a].size == old(inodes[a].size)
                && |all1| == BLOCKS && forall k: nat :: has - 1 <= k < will ==> all1[k] == Block(View(), a, k)
    {
      hide Placed, Took, FirstFit, Full, InRange, Table, TableBytes;
      ghost var v := View();
      var index, lba: nat := inodes[a].sectors[12], 0;
      var table := Table(Read(disk, index));
      all1 := all[..DIRECT] + table;
      halt, got := Live, [];
      TookNone(v);
      var k := 0;
      while k < will
        invariant k <= will && |got| == k && |all1| == BLOCKS && halt == Live && disk == v.disk && inodes == v.inodes
        invariant Took(v, bmap.Bits(), got)
        invariant forall j :: 0 <= j < k ==> all1[j] == got[j]
        invariant forall j :: DIRECT <= j < BLOCKS && k <= j ==> all1[j] == table[j - DIRECT]
      {
        lba, halt := AllocMore(v, got);
        if halt != Live {
          return;
        }
        all1 := all1[k := lba];
        got := got + [lba];
        k := k + 1;
      }
      TableWords(Read(v.disk, index));
      disk := WriteTable(v, bmap.Bits(), got, disk, index, all1);
      IndirectPlaced(v, View(), a, got, will, all1);
    }

    /** The choice between the situations.  None of the assertions in them can fire. */
    method Plan(a: nat, count: nat) returns (all: seq<nat>, halt: Halt)
      requires OwnOk(View()) && a in inodes && inodes[a].size + count < BLOCKS * SECTOR
      requires HasBlocks(View(), a, Needed(inodes[a].size))
      modifies this`disk, this`inodes, bmap.bits
      ensures halt != Live ==> NoSpace(halt)
      ensures halt == Live ==>
                var has, will := Needed(old(inodes[a].size)), Needed(old(inodes[a].size) + count);
                && Planned(old(View()), View(), a, count)
                && OwnOk(View()) && Isolated(old(View()), View(), a) && Grew(old(View()), View(), a, has, will)
                && |all| == BLOCKS && forall k: nat :: has - 1 <= k < will ==> all[k] == Block(View(), a, k)
    {
      hide Placed, Took, Isolated, Grew, Full;
      var has, will := Needed(inodes[a].size), Needed(inodes[a].size + count);
      ghost var v := View();
      ghost var got: seq<nat>, off: int := [], 0;
      all := seq(BLOCKS, _ => 0);
      SectorsAre(v, a, has);
      if will == has {
        halt := Live;
        if will <= DIRECT {
          all := all[has - 1 := inodes[a].sectors[has - 1]];
        } else {
          assert inodes[a].sectors[12] != 0;  // ASSERT, line 285
          all := all[..DIRECT] + Table(Read(disk, inodes[a].sectors[12]));
        }
      } else if will <= DIRECT {
        all, halt, got := GrowDirect(a, has, will, all);
        off := 0 - has;
      } else if has <= DIRECT {
        all, halt, got := GrowAcross(a, has, will, all);
        off := 1 - has;
      } else {
        all, halt, got := GrowIndirect(a, has, will, all);  // ASSERT, line 359, holds
      }
      if halt == Live {
        if will != has { PlannedBy(v, View(), a, count, got, off); }
        PlannedGrows(v, View(), a, count);
      }
    }

    /** One turn of the write loop: at most the rest of one block. */
    method WriteChunk(a: nat, lba: nat, first: bool, data: seq<byte>)
      requires a in inodes && OwnOk(View()) && inodes[a].size + |data| < BLOCKS * SECTOR
      requires inodes[a].size % SECTOR + |data| <= SECTOR && (!first ==> inodes[a].size % SECTOR == 0)
      requires inodes[a].size / SECTOR < BLOCKS && lba == Block(View(), a, inodes[a].size / SECTOR) != 0
      modifies this`disk, this`inodes
      ensures OwnOk(View()) && Isolated(old(View()), View(), a)
      ensures inodes == old(inodes)[a := old(inodes[a]).(size := old(inodes[a].size) + |data|)]
      ensures forall k: nat :: k <= INDEX ==> Block(View(), a, k) == Block(old(View()), a, k)
      ensures forall x :: x != lba ==> Read(disk, x) == Read(old(disk), x)
      ensures forall i: nat :: i < old(inodes[a].size) ==> ByteAt(View(), a, i) == ByteAt(old(View()), a, i)
      ensures forall j: nat :: j < |data| ==> ByteAt(View(), a, old(inodes[a].size) + j) == data[j]
    {
      hide OwnOk, Isolated, Block, ByteAt, Patch;
      ghost var v := View();
      var size := inodes[a].size;
      var off := size % SECTOR;
      var io: seq<byte> := if first then Read(disk, lba) else Zeros(SECTOR);
      var s: Sector := Patch(io, off, data);
      PatchParts(io, off, data);
      assert s[..off] == Read(v.disk, lba)[..off];
      disk := disk[lba := s];
      ghost var v1 := View();
      assert v1 == WithSector(v, lba, s);
      DataKeeps(v, a, size / SECTOR, s);
      ChunkWritten(v, a, s, data);
      inodes := inodes[a := inodes[a].(size := size + |data|)];
      SizeKeeps(v1, a, size + |data|);
      IsolatedTrans(v, v1, View(), a);
    }

    /** The write loop.  Returns fd_pos, which it moves along one behind i_size. */
    method WriteLoop(a: nat, all: seq<nat>, buf: seq<byte>) returns (pos: nat)
      requires a in inodes && OwnOk(View()) && |all| == BLOCKS && inodes[a].size + |buf| < BLOCKS * SECTOR
      requires forall k: nat :: inodes[a].size / SECTOR <= k < Needed(inodes[a].size + |buf|) ==> all[k] == Block(View(), a, k) != 0
      modifies this`disk, this`inodes
      ensures Stored(old(View()), View(), a, buf) && pos == Pos(old(inodes[a].size) + |buf|)
    {
      hide OwnOk, Isolated, Block, ByteAt, Pos, IsData;
      ghost var v := View();
      ghost var size0 := inodes[a].size;
      var written, first := 0, true;
      pos := Pos(inodes[a].size);
      while written < |buf|
        invariant 0 <= written <= |buf| && inodes == v.inodes[a := v.inodes[a].(size := size0 + written)]
        invariant OwnOk(View()) && pos == Pos(size0 + written)
        invariant forall x :: !IsData(v, a, x) ==> Read(disk, x) == Read(v.disk, x)
        invariant !first ==> written == |buf| || (size0 + written) % SECTOR == 0
        invariant forall k: nat :: k <= INDEX ==> Block(View(), a, k) == Block(v, a, k)
        invariant forall i: nat :: i < size0 ==> ByteAt(View(), a, i) == ByteAt(v, a, i)
        invariant forall j: nat :: j < written ==> ByteAt(View(), a, size0 + j) == buf[j]
      {
        ghost var v1 := View();
        var size := inodes[a].size;
        var left := SECTOR - size % SECTOR;
        var chunk := if |buf| - written < left then |buf| - written else left;
        ChunkPlace(size0, written, |buf|);
        WriteChunk(a, all[size / SECTOR], first, buf[written..written + chunk]);
        first := false;
        assert IsData(v, a, all[size / SECTOR]) by { DataBlock(v, a, size / SECTOR); }
        forall j: nat | j < written + chunk ensures ByteAt(View(), a, size0 + j) == buf[j] {
          if j < written {
            assert ByteAt(v1, a, size0 + j) == buf[j];
          } else {
            assert ByteAt(View(), a, size + (j - written)) == buf[written..written + chunk][j - written];
          }
        }
        PosMore(size, chunk);
        pos := (pos + chunk) % U32;
        written := written + chunk;
      }
    }

    /** file_write.  `buf` lies in a 4 GB address space beside the file's size.  It refuses what
        would exceed 71680 bytes and stops at exactly 71680; else it fails only for want of a
        free block or for a first block whose number is divisible by 256. */
    method FileWrite(a: nat, buf: seq<byte>) returns (r: WriteResult, pos: nat)
      requires OwnOk(View()) && FileOk(View(), a) && inodes[a].size + |buf| < U32
      modifies this`disk, this`inodes, bmap.bits
      ensures r.TooLarge? <==> old(inodes[a].size) + |buf| > BLOCKS * SECTOR
      ensures r.TooLarge? ==> View() == old(View())
      ensures old(inodes[a].size) + |buf| == BLOCKS * SECTOR ==> r.Crash?
      ensures !r.TooLarge? && old(inodes[a].sectors[0]) == 0 && UnluckyBlock(old(bmap.Bits())) ==> r.Crash?
      ensures r.Crash? ==>
                || NoSpace(r.at)
                || (r.at == Stopped("fs/file.c", 262) && old(inodes[a].sectors[0]) == 0 && UnluckyBlock(old(bmap.Bits())))
                || (r.at == Stopped("fs/file.c", 272) && old(inodes[a].size) + |buf| == BLOCKS * SECTOR)
      ensures r.Written? ==> r.n == |buf| && Wrote(old(View()), View(), a, buf)
      ensures r.Written? ==> OwnOk(View()) && Appended(old(View()), View(), a, buf) && pos == Pos(inodes[a].size)
    {
      hide OwnOk, Isolated, Grew, Placed, Block, FirstFit, Full, HasBlocks, Planned, Stored;
      pos := 0;
      if inodes[a].size + |buf| > BLOCKS * SECTOR {
        return TooLarge, pos;
      }
      ghost var v := View();
      var halt := Live;
      if inodes[a].sectors[0] == 0 {
        ghost var got;
        halt, got := FirstBlock(a);
        if halt != Live {
          return Crash(halt), pos;
        }
      }
      ghost var v0 := View();
      assert Begun(v, v0, a);
      BegunHas(v, v0, a);
      if Needed(inodes[a].size + |buf|) > BLOCKS {
        return Crash(Stopped("fs/file.c", 272)), pos;
      }
      var all: seq<nat>;
      all, halt := Plan(a, |buf|);
      if halt != Live {
        return Crash(halt), pos;
      }
      ghost var v1 := View();
      PlannedReady(v0, v1, a, |buf|, all);
      pos := WriteLoop(a, all, buf);
      assert Wrote(v, View(), a, buf);
      WroteAppends(v, View(), a, buf);
      r := Written(|buf|);
    }

    ghost predicate NoSpace(halt: Halt)
      reads bmap.bits
    {
      halt == Stopped("lib/kernel/bitmap.c", 33) && Full(bmap.Bits())
    }
  }

  /** all_blocks + 12 written to the index block. */
  method WriteTable(ghost v: Vol, ghost bits: seq<bool>, ghost got: seq<nat>, disk: map<nat, Sector>, index: nat, all: seq<nat>)
    returns (disk1: map<nat, Sector>)
    requires |all| == BLOCKS && v.start + |v.bits| <= U32 && Took(v, bits, got)
    requires forall j :: DIRECT <= j < BLOCKS ==> all[j] in got || all[j] < U32
    ensures |TableBytes(all[DIRECT..])| == SECTOR && disk1 == disk[index := TableBytes(all[DIRECT..])]
    ensures Table(Read(disk1, index)) == all[DIRECT..]
  {
    TableRoundTrip(all[DIRECT..]);
    disk1 := disk[index := TableBytes(all[DIRECT..])];
  }
}
