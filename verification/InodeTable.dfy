/** The on-disk inode table of fs/inode.c: 76-byte inodes packed without regard to sector
    boundaries; inode_locate, inode_sync and the disk read of inode_open. */
module InodeTable {
  import opened Sectors
  import opened Volume
  import opened Layout

  /** What inode_sync stores; open count, write_deny and list links are stored as zero. */
  datatype DiskInode = DiskInode(no: nat, size: nat, sectors: SectorList)

  predicate Storable(i: DiskInode) {
    i.no < U32 && i.size < U32 && forall k :: 0 <= k < 13 ==> i.sectors[k] < U32
  }

  function InodeWords(i: DiskInode): (w: seq<nat>)
    ensures |w| == 19
  {
    [i.no, i.size, 0, 0] + i.sectors + [0, 0]
  }

  function InodeBytes(i: DiskInode): (b: seq<byte>)
    ensures |b| == INODE_BYTES
  {
    TableBytes(InodeWords(i))
  }

  function InodeOf(b: seq<byte>): DiskInode
    requires |b| == INODE_BYTES
  {
    DiskInode(Word(b[0..4]), Word(b[4..8]), seq(13, k requires 0 <= k < 13 => Word(b[4 * (k + 4)..4 * (k + 4) + 4])))
  }

  lemma InodeRoundTrip(i: DiskInode)
    requires Storable(i)
    ensures InodeOf(InodeBytes(i)) == i
  {
    hide Word, TableBytes;
    var w := InodeWords(i);
    forall k | 0 <= k < 19 ensures Word(InodeBytes(i)[4 * k..4 * k + 4]) == w[k] {
      TableBytesAt(w, k);
      WordRoundTrip(w[k]);
    }
    assert Word(InodeBytes(i)[4 * 0..4 * 0 + 4]) == w[0] && Word(InodeBytes(i)[4 * 1..4 * 1 + 4]) == w[1];
    forall k | 0 <= k < 13 ensures InodeOf(InodeBytes(i)).sectors[k] == i.sectors[k] {
      assert Word(InodeBytes(i)[4 * (k + 4)..4 * (k + 4) + 4]) == w[k + 4];
    }
  }

  /** struct inode byte by byte: i_no in bytes 0 to 3, i_size in 4 to 7, i_sectors[j] in 16 + 4 * j to
      19 + 4 * j, zeros in all others. */
  lemma InodeLayout(i: DiskInode, k: nat)
    requires k < 4
    ensures var b := InodeBytes(i);
            && b[k] == Digit(i.no, k) && b[4 + k] == Digit(i.size, k) && b[8 + k] == b[12 + k] == b[68 + k] == b[72 + k] == 0
            && forall j :: 0 <= j < 13 ==> Digit(i.sectors[j], k) == b[16 + 4 * j + k]
  {
    hide TableBytes, Digit, WordBytes;
    var w := InodeWords(i);
    forall m: nat | m < 19 ensures InodeBytes(i)[4 * m + k] == Digit(w[m], k) { WordAt(i, m, k); }
    ZeroDigit(k);
    assert InodeBytes(i)[4 * 0 + k] == Digit(w[0], k) && InodeBytes(i)[4 * 1 + k] == Digit(w[1], k);
    assert InodeBytes(i)[4 * 2 + k] == Digit(w[2], k) && InodeBytes(i)[4 * 3 + k] == Digit(w[3], k);
    assert InodeBytes(i)[4 * 17 + k] == Digit(w[17], k) && InodeBytes(i)[4 * 18 + k] == Digit(w[18], k);
    forall j | 0 <= j < 13 ensures Digit(i.sectors[j], k) == InodeBytes(i)[16 + 4 * j + k] {
      assert w[j + 4] == i.sectors[j] && InodeBytes(i)[4 * (j + 4) + k] == Digit(w[j + 4], k);
    }
  }

  lemma WordAt(i: DiskInode, m: nat, k: nat)
    requires m < 19 && k < 4
    ensures InodeBytes(i)[4 * m + k] == Digit(InodeWords(i)[m], k)
  {
    hide TableBytes, Digit, WordBytes;
    TableBytesAt(InodeWords(i), m);
    LittleEndian(InodeWords(i)[m], k);
    assert InodeBytes(i)[4 * m..4 * m + 4][k] == InodeBytes(i)[4 * m + k];
  }

  lemma ZeroDigit(k: nat)
    requires k < 4
    ensures Digit(0, k) == 0
  {
  }

  // --------------------------------------------------------------- the table as bytes

  function TableByte(disk: map<nat, Sector>, table: nat, x: nat): byte {
    Read(disk, table + x / SECTOR)[x % SECTOR]
  }

  /** The 76 bytes of inode n. */
  function Stored(disk: map<nat, Sector>, table: nat, n: nat): (b: seq<byte>)
    ensures |b| == INODE_BYTES && forall t :: 0 <= t < INODE_BYTES ==> b[t] == TableByte(disk, table, INODE_BYTES * n + t)
  {
    seq<byte>(INODE_BYTES, t requires 0 <= t < INODE_BYTES => TableByte(disk, table, INODE_BYTES * n + t))
  }

  /** inode_locate: whether inode n spans two sectors, which sector of the table it starts in and
      where.  It lies in the table whole. */
  method InodeLocate(n: nat) returns (two: bool, sec: nat, off: nat)
    requires n < INODES
    ensures sec * SECTOR + off == INODE_BYTES * n && off < SECTOR
    ensures two <==> off + INODE_BYTES > SECTOR
    ensures sec < TABLE_SECTS && (two ==> sec + 1 < TABLE_SECTS)
  {
    var bytes := n * INODE_BYTES;
    sec := bytes / SECTOR;
    off := bytes % SECTOR;
    two := SECTOR - off < INODE_BYTES;
    assert bytes + INODE_BYTES <= TABLE_SECTS * SECTOR;
  }

  /** One or two consecutive sectors. */
  function Sects(disk: map<nat, Sector>, lba: nat, two: bool): (b: seq<byte>)
    ensures |b| == if two then 2 * SECTOR else SECTOR
  {
    if two then Read(disk, lba) + Read(disk, lba + 1) else Read(disk, lba)
  }

  function PutSects(disk: map<nat, Sector>, lba: nat, two: bool, b: seq<byte>): map<nat, Sector>
    requires |b| == if two then 2 * SECTOR else SECTOR
  {
    if two then disk[lba := b[..SECTOR]][lba + 1 := b[SECTOR..]] else disk[lba := b]
  }

  lemma Place(sec: nat, t: nat)
    requires t < 2 * SECTOR
    ensures (sec * SECTOR + t) / SECTOR == sec + t / SECTOR && (sec * SECTOR + t) % SECTOR == t % SECTOR
    ensures t / SECTOR == (if t < SECTOR then 0 else 1) && t % SECTOR == if t < SECTOR then t else t - SECTOR
  {
  }

  lemma SectsByte(disk: map<nat, Sector>, table: nat, sec: nat, two: bool, t: nat)
    requires t < if two then 2 * SECTOR else SECTOR
    ensures Sects(disk, table + sec, two)[t] == TableByte(disk, table, sec * SECTOR + t)
  {
    Place(sec, t);
  }

  /** A byte of the table after the sectors sec (and sec + 1) have been replaced by b. */
  lemma PutByte(disk: map<nat, Sector>, table: nat, sec: nat, two: bool, b: seq<byte>, x: nat)
    requires |b| == if two then 2 * SECTOR else SECTOR
    ensures TableByte(PutSects(disk, table + sec, two, b), table, x) ==
            if sec * SECTOR <= x < sec * SECTOR + |b| then b[x - sec * SECTOR] else TableByte(disk, table, x)
  {
    if sec * SECTOR <= x < sec * SECTOR + |b| {
      Place(sec, x - sec * SECTOR);
    }
  }

  /** The 76 bytes of inode n have become b; all others are as before. */
  ghost predicate Replaced(disk: map<nat, Sector>, disk1: map<nat, Sector>, table: nat, n: nat, b: seq<byte>)
    requires |b| == INODE_BYTES
  {
    forall x: nat :: TableByte(disk1, table, x) ==
                     var t := x - INODE_BYTES * n;
                     if 0 <= t < INODE_BYTES then b[t] else TableByte(disk, table, x)
  }

  /** Reading one or two sectors, replacing the inode's bytes and writing the sectors back. */
  method PutInode(disk: map<nat, Sector>, table: nat, n: nat, b: seq<byte>) returns (disk1: map<nat, Sector>)
    requires n < INODES && |b| == INODE_BYTES
    ensures Replaced(disk, disk1, table, n, b)
    ensures forall lba: nat :: !(table <= lba < table + TABLE_SECTS) ==> Read(disk1, lba) == Read(disk, lba)
  {
    hide Patch, PutSects, Sects, TableByte;
    var two, sec, off := InodeLocate(n);
    var lba := table + sec;
    var buf := Patch(Sects(disk, lba, two), off, b);
    disk1 := PutSects(disk, lba, two, buf);
    PutElsewhere(disk, lba, two, buf);
    forall x: nat ensures TableByte(disk1, table, x) ==
                          var t := x - INODE_BYTES * n;
                          if 0 <= t < INODE_BYTES then b[t] else TableByte(disk, table, x)
    {
      PutByte(disk, table, sec, two, buf, x);
      if sec * SECTOR <= x < sec * SECTOR + |buf| {
        SectsByte(disk, table, sec, two, x - sec * SECTOR);
      }
    }
  }

  /** Only the replaced inode reads differently. */
  lemma ReplacedOne(disk: map<nat, Sector>, disk1: map<nat, Sector>, table: nat, n: nat, b: seq<byte>, m: nat)
    requires |b| == INODE_BYTES && Replaced(disk, disk1, table, n, b)
    ensures Stored(disk1, table, m) == if m == n then b else Stored(disk, table, m)
  {
    hide TableByte;
    forall t | 0 <= t < INODE_BYTES ensures Stored(disk1, table, m)[t] == (if m == n then b else Stored(disk, table, m))[t] {
      if m != n { InodesApart(m, n, t); }
    }
  }

  /** The 76 bytes at the inode's number modulo 256 are the inode's; all others are as before. */
  ghost predicate Synced(disk: map<nat, Sector>, disk1: map<nat, Sector>, table: nat, i: DiskInode) {
    Replaced(disk, disk1, table, i.no % 256, InodeBytes(i))
  }

  /** inode_sync.  The inode number is narrowed to 8 bits first. */
  method InodeSync(disk: map<nat, Sector>, table: nat, i: DiskInode) returns (disk1: map<nat, Sector>)
    ensures Synced(disk, disk1, table, i)
    ensures forall lba: nat :: !(table <= lba < table + TABLE_SECTS) ==> Read(disk1, lba) == Read(disk, lba)
  {
    disk1 := PutInode(disk, table, i.no % 256, InodeBytes(i));
  }

  /** inode_delete: zeros over the inode's bytes, under its full number. */
  method InodeDelete(disk: map<nat, Sector>, table: nat, n: nat) returns (disk1: map<nat, Sector>)
    requires n < INODES
    ensures Replaced(disk, disk1, table, n, Zeros(INODE_BYTES))
    ensures forall lba: nat :: !(table <= lba < table + TABLE_SECTS) ==> Read(disk1, lba) == Read(disk, lba)
  {
    disk1 := PutInode(disk, table, n, Zeros(INODE_BYTES));
  }

  lemma PutElsewhere(disk: map<nat, Sector>, lba: nat, two: bool, b: seq<byte>)
    requires |b| == if two then 2 * SECTOR else SECTOR
    ensures forall x: nat :: x != lba && !(two && x == lba + 1) ==> Read(PutSects(disk, lba, two, b), x) == Read(disk, x)
  {
  }

  /** The disk half of inode_open. */
  method InodeRead(disk: map<nat, Sector>, table: nat, n: nat) returns (i: DiskInode)
    requires n < INODES
    ensures i == InodeOf(Stored(disk, table, n))
  {
    hide InodeOf, Sects, TableByte;
    var two, sec, off := InodeLocate(n);
    var buf := Sects(disk, table + sec, two);
    var b := buf[off..off + INODE_BYTES];
    forall t | 0 <= t < INODE_BYTES ensures b[t] == Stored(disk, table, n)[t] {
      SectsByte(disk, table, sec, two, off + t);
    }
    assert b == Stored(disk, table, n);
    i := InodeOf(b);
  }

  /** inode_sync stores the inode under its number modulo 256 and changes no other inode's bytes. */
  lemma SyncStores(disk: map<nat, Sector>, disk1: map<nat, Sector>, table: nat, i: DiskInode, m: nat)
    requires Storable(i) && Synced(disk, disk1, table, i)
    ensures InodeOf(Stored(disk1, table, i.no % 256)) == i
    ensures m != i.no % 256 ==> Stored(disk1, table, m) == Stored(disk, table, m)
  {
    hide InodeBytes, Replaced, InodeOf;
    InodeRoundTrip(i);
    ReplacedOne(disk, disk1, table, i.no % 256, InodeBytes(i), i.no % 256);
    ReplacedOne(disk, disk1, table, i.no % 256, InodeBytes(i), m);
  }

  lemma InodesApart(m: nat, n: nat, t: nat)
    requires m != n && t < INODE_BYTES
    ensures !(0 <= INODE_BYTES * m + t - INODE_BYTES * n < INODE_BYTES)
  {
  }

  /** A fresh inode_open after inode_sync restores number, size and sectors for every inode exactly
      when its number is below 256; from 256 on the stored inode is unchanged. */
  lemma SyncOpenIff(disk: map<nat, Sector>, disk1: map<nat, Sector>, table: nat, i: DiskInode)
    requires Storable(i) && i.no < INODES && Synced(disk, disk1, table, i)
    requires InodeOf(Stored(disk, table, i.no)) != i
    ensures InodeOf(Stored(disk1, table, i.no)) == i <==> i.no < 256
  {
    hide Synced, Storable, InodeOf;
    SyncStores(disk, disk1, table, i, i.no);
  }
}
