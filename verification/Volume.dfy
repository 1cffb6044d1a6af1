/** A mounted partition on values: the in-memory block bitmap, the inodes in memory and the
    sectors of the disk; which inode owns which block, and what a file contains. */
module Volume {
  import opened Basics
  import opened Sectors

  const DIRECT: nat := 12
  const BLOCKS: nat := 140    // 12 direct ones and 128 behind the index block
  const INDEX: nat := 140     // number given here to the index block itself

  type SectorList = s: seq<nat> | |s| == 13 witness seq(13, _ => 0)

  /** i_size and i_sectors. */
  datatype Inode = Inode(size: nat, sectors: SectorList)

  /** `start` is sb->data_start_lba; bit i of the bitmap stands for sector start + i. */
  datatype Vol = Vol(start: nat, bits: seq<bool>, disk: map<nat, Sector>, inodes: map<nat, Inode>)

  function Read(disk: map<nat, Sector>, lba: nat): Sector {
    if lba in disk then disk[lba] else Zeros(SECTOR)
  }

  /** The sector of block k of inode a, 0 when there is none. */
  function Block(v: Vol, a: nat, k: nat): nat
    requires a in v.inodes && k <= INDEX
  {
    var s := v.inodes[a].sectors;
    if k < DIRECT then s[k] else if k == INDEX then s[12]
    else if s[12] == 0 then 0 else Table(Read(v.disk, s[12]))[k - DIRECT]
  }

  predicate InRange(v: Vol, x: nat) {
    v.start <= x < v.start + |v.bits|
  }

  predicate InUse(v: Vol, x: nat) {
    InRange(v, x) && v.bits[x - v.start]
  }

  /** Every owned block has its bit set and no block has two owners. */
  ghost predicate OwnOk(v: Vol) {
    && 0 < v.start && v.start + |v.bits| <= U32
    && (forall a, k: nat :: a in v.inodes && k <= INDEX && Block(v, a, k) != 0 ==> InUse(v, Block(v, a, k)))
    && (forall a, k: nat, b, j: nat ::
          a in v.inodes && b in v.inodes && k <= INDEX && j <= INDEX && Block(v, a, k) != 0 && Block(v, a, k) == Block(v, b, j) ==>
            a == b && k == j)
  }

  /** Data blocks, index block and blocks behind it. */
  ghost function Owned(v: Vol, a: nat): set<nat>
    requires a in v.inodes
  {
    set k: nat | k <= INDEX && Block(v, a, k) != 0 :: Block(v, a, k)
  }

  /** inode b and the disk below it are the same in both states. */
  ghost predicate SameIndex(v: Vol, v1: Vol, b: nat) {
    && b in v.inodes && b in v1.inodes && v1.inodes[b].sectors == v.inodes[b].sectors
    && (v.inodes[b].sectors[12] != 0 ==> Read(v1.disk, v.inodes[b].sectors[12]) == Read(v.disk, v.inodes[b].sectors[12]))
  }

  lemma SameBlocks(v: Vol, v1: Vol, b: nat)
    requires SameIndex(v, v1, b)
    ensures forall k: nat :: k <= INDEX ==> Block(v1, b, k) == Block(v, b, k)
  {
  }

  // ------------------------------------------------------------------ allocation

  /** They were taken lowest first: in ascending order, leaving no free block below any of them. */
  ghost predicate Lowest(v: Vol, bits: seq<bool>, got: seq<nat>) {
    && (forall i, j :: 0 <= i < j < |got| ==> got[i] < got[j])
    && (forall i, j :: 0 <= i < |got| && 0 <= j < |bits| && v.start + j < got[i] ==> bits[j])
  }

  /** The blocks `got`, all free and different, have been marked between v and `bits`. */
  ghost predicate Took(v: Vol, bits: seq<bool>, got: seq<nat>) {
    && |bits| == |v.bits| && Distinct(got) && Lowest(v, bits, got)
    && (forall x :: x in got ==> InRange(v, x) && !InUse(v, x))
    && forall j :: 0 <= j < |bits| ==> (bits[j] <==> v.bits[j] || v.start + j in got)
  }

  lemma TookNone(v: Vol)
    ensures Took(v, v.bits, [])
  {
  }

  lemma TookMore(v: Vol, bits: seq<bool>, got: seq<nat>, i: nat)
    requires Took(v, bits, got) && i < |bits| && !bits[i] && forall j :: 0 <= j < i ==> bits[j]
    ensures Took(v, bits[i := true], got + [v.start + i]) && InRange(v, v.start + i)
  {
  }

  lemma TookBits(v: Vol, v1: Vol, got: seq<nat>)
    requires Took(v, v1.bits, got) && v1.start == v.start
    ensures forall x: nat :: InUse(v1, x) <==> InUse(v, x) || x in got
  {
  }

  /** Inode a has received the blocks `got`: its blocks lo..hi are got[off + k], and got[0] is
      its index block if `index`; the off + lo blocks ahead of those are not its data blocks; nothing else has changed but the contents of its index block. */
  ghost predicate Placed(v: Vol, v1: Vol, a: nat, got: seq<nat>, lo: nat, hi: nat, off: int, index: bool) {
    && Took(v, v1.bits, got) && v1.start == v.start
    && a in v1.inodes && v1.inodes.Keys == v.inodes.Keys
    && (forall b :: b in v.inodes && b != a ==> v1.inodes[b] == v.inodes[b])
    && (forall x :: x != v1.inodes[a].sectors[12] ==> Read(v1.disk, x) == Read(v.disk, x))
    && lo <= hi <= BLOCKS && 0 <= off + lo && off + hi == |got| && (index ==> off + lo >= 1 && got != [])
    && (forall k: nat :: k <= INDEX ==>
          Block(v1, a, k) == if lo <= k < hi then got[off + k] else if k == INDEX && index then got[0] else Block(v, a, k))
  }

  /** A block of a is new, or the one it was. */
  lemma PlacedBlock(v: Vol, v1: Vol, a: nat, got: seq<nat>, lo: nat, hi: nat, off: int, index: bool, k: nat)
    requires Placed(v, v1, a, got, lo, hi, off, index) && k <= INDEX
    ensures Block(v1, a, k) == Block(v, a, k) || Block(v1, a, k) in got
  {
  }

  lemma PlacedApart(v: Vol, v1: Vol, a: nat, got: seq<nat>, lo: nat, hi: nat, off: int, index: bool, j: nat, k: nat)
    requires OwnOk(v) && Placed(v, v1, a, got, lo, hi, off, index) && j < k <= INDEX && Block(v1, a, k) != 0
    ensures Block(v1, a, j) != Block(v1, a, k)
  {
  }

  lemma OthersSame(v: Vol, v1: Vol, a: nat, got: seq<nat>, lo: nat, hi: nat, off: int, index: bool, b: nat)
    requires OwnOk(v) && Placed(v, v1, a, got, lo, hi, off, index) && b in v.inodes && b != a
    ensures SameIndex(v, v1, b)
  {
    var x := v.inodes[b].sectors[12];
    if x != 0 {
      assert Block(v, b, INDEX) == x && InUse(v, x);
      PlacedBlock(v, v1, a, got, lo, hi, off, index, INDEX);
      assert Block(v, a, INDEX) != x;
      assert Block(v1, a, INDEX) == v1.inodes[a].sectors[12];
    }
  }

  lemma PlacedKeeps(v: Vol, v1: Vol, a: nat, got: seq<nat>, lo: nat, hi: nat, off: int, index: bool)
    requires OwnOk(v) && Placed(v, v1, a, got, lo, hi, off, index)
    ensures OwnOk(v1)
  {
    TookBits(v, v1, got);
    forall b | b in v.inodes && b != a ensures forall k: nat :: k <= INDEX ==> Block(v1, b, k) == Block(v, b, k) {
      OthersSame(v, v1, a, got, lo, hi, off, index, b);
      SameBlocks(v, v1, b);
    }
    forall k: nat | k <= INDEX ensures Block(v1, a, k) == Block(v, a, k) || Block(v1, a, k) in got {
      PlacedBlock(v, v1, a, got, lo, hi, off, index, k);
    }
    forall j: nat, k: nat | j < k <= INDEX && Block(v1, a, k) != 0 ensures Block(v1, a, j) != Block(v1, a, k) {
      PlacedApart(v, v1, a, got, lo, hi, off, index, j, k);
    }
    MixedKeeps(v, v1, a, got);
  }

  lemma MixedKeeps(v: Vol, v1: Vol, a: nat, got: seq<nat>)
    requires OwnOk(v) && v1.start == v.start && |v1.bits| == |v.bits| && a in v1.inodes && v1.inodes.Keys == v.inodes.Keys
    requires forall x :: x in got ==> !InUse(v, x)
    requires forall x: nat :: InUse(v1, x) <==> InUse(v, x) || x in got
    requires forall b, k: nat :: b in v.inodes && b != a && k <= INDEX ==> Block(v1, b, k) == Block(v, b, k)
    requires forall k: nat :: k <= INDEX ==> Block(v1, a, k) == Block(v, a, k) || Block(v1, a, k) in got
    requires forall j: nat, k: nat :: j < k <= INDEX && Block(v1, a, k) != 0 ==> Block(v1, a, j) != Block(v1, a, k)
    ensures OwnOk(v1)
  {
  }

  // --------------------------------------------------------------------- isolation

  /** Every other inode keeps its fields, its blocks and every byte in them. */
  ghost predicate Isolated(v: Vol, v1: Vol, a: nat) {
    && (forall b :: b in v.inodes && b != a ==> b in v1.inodes && v1.inodes[b] == v.inodes[b])
    && (forall b, k: nat :: b in v.inodes && b != a && k <= INDEX && b in v1.inodes ==>
          Block(v1, b, k) == Block(v, b, k) && (Block(v, b, k) != 0 ==> Read(v1.disk, Block(v, b, k)) == Read(v.disk, Block(v, b, k))))
  }

  lemma IsolatedTrans(v: Vol, v1: Vol, v2: Vol, a: nat)
    requires Isolated(v, v1, a) && Isolated(v1, v2, a)
    ensures Isolated(v, v2, a)
  {
  }

  lemma PlacedIsolated(v: Vol, v1: Vol, a: nat, got: seq<nat>, lo: nat, hi: nat, off: int, index: bool)
    requires OwnOk(v) && Placed(v, v1, a, got, lo, hi, off, index)
    ensures Isolated(v, v1, a)
  {
    forall b | b in v.inodes && b != a
      ensures forall k: nat :: k <= INDEX ==> Block(v1, b, k) == Block(v, b, k)
    {
      OthersSame(v, v1, a, got, lo, hi, off, index, b);
      SameBlocks(v, v1, b);
    }
    PlacedBlock(v, v1, a, got, lo, hi, off, index, INDEX);
    assert Block(v1, a, INDEX) == v1.inodes[a].sectors[12];
    hide Block;
    forall b, k: nat | b in v.inodes && b != a && k <= INDEX && Block(v, b, k) != 0
      ensures Block(v, b, k) != v1.inodes[a].sectors[12]
    {
      assert InUse(v, Block(v, b, k));
    }
  }

  // ------------------------------------------------------------------ file contents

  function ByteAt(v: Vol, a: nat, i: nat): byte
    requires a in v.inodes && i < BLOCKS * SECTOR
  {
    Read(v.disk, Block(v, a, i / SECTOR))[i % SECTOR]
  }

  /** The bytes of a file. */
  function Content(v: Vol, a: nat): (s: seq<byte>)
    requires a in v.inodes && v.inodes[a].size <= BLOCKS * SECTOR
    ensures |s| == v.inodes[a].size && forall i :: 0 <= i < |s| ==> s[i] == ByteAt(v, a, i)
  {
    seq(v.inodes[a].size, i requires 0 <= i < v.inodes[a].size => ByteAt(v, a, i))
  }

  function Needed(size: nat): nat { size / SECTOR + 1 }

  /** Exactly size / 512 + 1 data blocks are allocated, in order, and an index block exactly when
      more than 12 are; a file never written has none at all. */
  ghost predicate FileOk(v: Vol, a: nat) {
    && a in v.inodes && v.inodes[a].size < BLOCKS * SECTOR
    && var n := if v.inodes[a].sectors[0] == 0 then 0 else Needed(v.inodes[a].size);
       && (n == 0 ==> v.inodes[a].size == 0)
       && (forall k: nat :: k < BLOCKS ==> (Block(v, a, k) != 0 <==> k < n))
       && (Block(v, a, INDEX) != 0 <==> n > DIRECT)
  }

  lemma IsolatedContent(v: Vol, v1: Vol, a: nat, b: nat)
    requires OwnOk(v) && Isolated(v, v1, a) && FileOk(v, b) && b != a
    ensures FileOk(v1, b) && Content(v1, b) == Content(v, b)
  {
  }

  // ------------------------------------------------------------------ writing data

  function WithSector(v: Vol, x: nat, s: Sector): Vol {
    v.(disk := v.disk[x := s])
  }

  function WithSize(v: Vol, a: nat, n: nat): Vol
    requires a in v.inodes
  {
    v.(inodes := v.inodes[a := v.inodes[a].(size := n)])
  }

  lemma SizeKeeps(v: Vol, a: nat, n: nat)
    requires a in v.inodes
    ensures forall b, k: nat :: b in v.inodes && k <= INDEX ==> Block(WithSize(v, a, n), b, k) == Block(v, b, k)
    ensures OwnOk(v) ==> OwnOk(WithSize(v, a, n))
    ensures Isolated(v, WithSize(v, a, n), a)
    ensures forall i: nat :: i < BLOCKS * SECTOR ==> ByteAt(WithSize(v, a, n), a, i) == ByteAt(v, a, i)
  {
  }

  /** A data block is no index block, so overwriting it moves no block of any inode. */
  lemma DataKeeps(v: Vol, a: nat, k: nat, s: Sector)
    requires OwnOk(v) && a in v.inodes && k < BLOCKS && Block(v, a, k) != 0
    ensures var v1 := WithSector(v, Block(v, a, k), s);
            OwnOk(v1) && Isolated(v, v1, a) && forall b, j: nat :: b in v.inodes && j <= INDEX ==> Block(v1, b, j) == Block(v, b, j)
  {
    var x := Block(v, a, k);
    var v1 := WithSector(v, x, s);
    forall b | b in v.inodes ensures forall j: nat :: j <= INDEX ==> Block(v1, b, j) == Block(v, b, j) {
      assert Block(v, b, INDEX) == v.inodes[b].sectors[12];
      assert v.inodes[b].sectors[12] != x;
      SameBlocks(v, v1, b);
    }
    hide Block;
  }

  /** One chunk of the write loop, seen from the file. */
  lemma ChunkWritten(v: Vol, a: nat, s: Sector, data: seq<byte>)
    requires OwnOk(v) && a in v.inodes && v.inodes[a].size + |data| <= BLOCKS * SECTOR
    requires var size := v.inodes[a].size; var k, off := size / SECTOR, size % SECTOR;
             && k < BLOCKS && Block(v, a, k) != 0 && off + |data| <= SECTOR
             && s[off..off + |data|] == data && s[..off] == Read(v.disk, Block(v, a, k))[..off]
    ensures var size := v.inodes[a].size; var v1 := WithSector(v, Block(v, a, size / SECTOR), s);
            && (forall i: nat :: i < size ==> ByteAt(v1, a, i) == ByteAt(v, a, i))
            && forall j: nat :: j < |data| ==> ByteAt(v1, a, size + j) == data[j]
  {
    hide Block;
    var size := v.inodes[a].size;
    var k, off := size / SECTOR, size % SECTOR;
    var x := Block(v, a, k);
    var v1 := WithSector(v, x, s);
    DataKeeps(v, a, k, s);
    forall i: nat | i < size ensures ByteAt(v1, a, i) == ByteAt(v, a, i) {
      OldByte(v, a, s, i);
    }
    forall j: nat | j < |data| ensures ByteAt(v1, a, size + j) == data[j] {
      SamePlace(size, j);
      assert s[off + j] == data[j];
    }
  }

  lemma SamePlace(size: nat, j: nat)
    requires size % SECTOR + j < SECTOR
    ensures (size + j) / SECTOR == size / SECTOR && (size + j) % SECTOR == size % SECTOR + j
  {
  }

  lemma OldByte(v: Vol, a: nat, s: Sector, i: nat)
    requires OwnOk(v) && a in v.inodes && i < v.inodes[a].size <= BLOCKS * SECTOR
    requires var size := v.inodes[a].size; var k, off := size / SECTOR, size % SECTOR;
             k < BLOCKS && Block(v, a, k) != 0 && s[..off] == Read(v.disk, Block(v, a, k))[..off]
    ensures ByteAt(WithSector(v, Block(v, a, v.inodes[a].size / SECTOR), s), a, i) == ByteAt(v, a, i)
  {
    hide Block;
    var size := v.inodes[a].size;
    var k, off := size / SECTOR, size % SECTOR;
    DataKeeps(v, a, k, s);
    if i / SECTOR == k {
      assert i % SECTOR < off;
      assert s[..off][i % SECTOR] == Read(v.disk, Block(v, a, k))[..off][i % SECTOR];
    } else {
      assert Block(v, a, i / SECTOR) != Block(v, a, k);
    }
  }
}
