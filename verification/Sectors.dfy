/** 512-byte disk sectors and the little-endian structures that the file system keeps in
    them: tables of 32-bit sector numbers and 24-byte directory entries. */
module Sectors {
  import opened Entries

  const SECTOR: nat := 512
  const WORDS: nat := 128            // 32-bit numbers per sector
  const ENTRY: nat := 24             // sizeof(struct dir_entry)
  const PER_SECTOR: nat := 21        // 512 / 24
  const U32: nat := 0x1_0000_0000

  type byte = x: nat | x < 256
  type Sector = s: seq<byte> | |s| == SECTOR witness seq(SECTOR, _ => 0)

  function Zeros(n: nat): (s: seq<byte>)
    ensures |s| == n && forall i :: 0 <= i < n ==> s[i] == 0
  {
    seq(n, _ => 0)
  }

  /** `data` copied over the buffer from offset `at`: memcpy into an I/O buffer. */
  function Patch(s: seq<byte>, at: nat, data: seq<byte>): (r: seq<byte>)
    requires at + |data| <= |s|
    ensures |r| == |s|
    ensures forall i :: 0 <= i < |s| ==> r[i] == if at <= i < at + |data| then data[i - at] else s[i]
  {
    s[..at] + data + s[at + |data|..]
  }

  // ------------------------------------------------------------------ 32-bit words

  function Word(b: seq<byte>): (x: nat)
    requires |b| == 4
    ensures x < U32
  {
    var b0: nat, b1: nat, b2: nat, b3: nat := b[0], b[1], b[2], b[3];
    b0 + 0x100 * b1 + 0x1_0000 * b2 + 0x100_0000 * b3
  }

  function WordBytes(x: nat): (b: seq<byte>)
    ensures |b| == 4
  {
    [x % 0x100, x / 0x100 % 0x100, x / 0x1_0000 % 0x100, x / 0x100_0000 % 0x100]
  }

  lemma WordRoundTrip(x: nat)
    requires x < U32
    ensures Word(WordBytes(x)) == x
  {
    assert x / 0x1_0000 == x / 0x100 / 0x100;
    assert x / 0x100_0000 == x / 0x1_0000 / 0x100;
  }

  /** Digit k of a number in base 256. */
  function Digit(x: nat, k: nat): byte {
    if k == 0 then x % 256 else Digit(x / 256, k - 1)
  }

  /** Words are stored low byte first. */
  lemma LittleEndian(x: nat, k: nat)
    requires k < 4
    ensures WordBytes(x)[k] == Digit(x, k)
  {
    if k == 1 { TwoDigits(x); } else if k == 2 { ThreeDigits(x); } else if k == 3 { FourDigits(x); }
  }

  lemma WordDigits(b: seq<byte>, k: nat)
    requires k < 4 && |b| == 4
    ensures Digit(Word(b), k) == b[k]
  {
    var b0: nat, b1: nat, b2: nat, b3: nat := b[0], b[1], b[2], b[3];
    Shift(b3, 0, 0);
    Shift(b2, b3, if k < 2 then 0 else k - 2);
    Shift(b1, b2 + 256 * b3, if k < 1 then 0 else k - 1);
    Shift(b0, b1 + 256 * (b2 + 256 * b3), k);
    assert Word(b) == b0 + 256 * (b1 + 256 * (b2 + 256 * b3));
  }

  lemma Shift(low: nat, high: nat, k: nat)
    requires low < 256
    ensures Digit(low + 256 * high, k) == if k == 0 then low else Digit(high, k - 1)
  {
  }

  lemma TwoDigits(x: nat)
    ensures Digit(x, 1) == x / 0x100 % 0x100
  {
    assert Digit(x, 1) == Digit(x / 256, 0);
  }

  lemma ThreeDigits(x: nat)
    ensures Digit(x, 2) == x / 0x1_0000 % 0x100
  {
    TwoDigits(x / 256);
    assert x / 0x1_0000 == x / 0x100 / 0x100;
  }

  lemma FourDigits(x: nat)
    ensures Digit(x, 3) == x / 0x100_0000 % 0x100
  {
    ThreeDigits(x / 256);
    assert x / 0x100_0000 == x / 0x100 / 0x1_0000;
  }

  // --------------------------------------------------------------------- tables

  /** The sector numbers in an index block. */
  function Table(s: Sector): (t: seq<nat>)
    ensures |t| == WORDS
  {
    seq(WORDS, i requires 0 <= i < WORDS => Word(s[4 * i..4 * i + 4]))
  }

  function TableBytes(t: seq<nat>): (b: seq<byte>)
    ensures |b| == 4 * |t|
  {
    if t == [] then [] else WordBytes(t[0]) + TableBytes(t[1..])
  }

  lemma {:induction false} TableBytesAt(t: seq<nat>, i: nat)
    requires i < |t|
    ensures TableBytes(t)[4 * i..4 * i + 4] == WordBytes(t[i])
  {
    if i > 0 {
      TableBytesAt(t[1..], i - 1);
      assert TableBytes(t)[4 * i..4 * i + 4] == TableBytes(t[1..])[4 * (i - 1)..4 * (i - 1) + 4];
    }
  }

  /** Reading back an index block gives what was written. */
  lemma TableRoundTrip(t: seq<nat>)
    requires |t| == WORDS && forall i :: 0 <= i < WORDS ==> t[i] < U32
    ensures |TableBytes(t)| == SECTOR && Table(TableBytes(t)) == t
  {
    forall i | 0 <= i < WORDS ensures Table(TableBytes(t))[i] == t[i] {
      TableBytesAt(t, i);
      WordRoundTrip(t[i]);
    }
  }

  /** Entry i of an index block lies in its bytes 4 * i to 4 * i + 3. */
  lemma TableLayout(s: Sector, i: nat, k: nat)
    requires i < WORDS && k < 4
    ensures Digit(Table(s)[i], k) == s[4 * i + k]
  {
    hide Word, Digit;
    WordDigits(s[4 * i..4 * i + 4], k);
  }

  // ------------------------------------------------------------ directory entries

  function Code(k: Kind): byte {
    match k case Unknown => 0 case Regular => 1 case Directory => 2
  }

  /** FT_UNKNOWN, FT_REGULAR, FT_DIRECTORY; no other value is ever stored. */
  function KindOf(x: nat): Kind {
    if x == 1 then Regular else if x == 2 then Directory else Unknown
  }

  /** What create_dir_entry accepts: a name of at most 16 non-zero bytes. */
  predicate Writable(e: Entry) {
    |e.name| <= 16 && (forall i :: 0 <= i < |e.name| ==> 0 < e.name[i] as int < 256) && e.ino < U32
  }

  /** The name field holds its terminator, too. */
  predicate Fits(e: Entry) {
    Writable(e) && |e.name| <= 15
  }

  function NameBytes(name: string, n: nat): (b: seq<byte>)
    requires forall i :: 0 <= i < |name| ==> 0 < name[i] as int < 256
    ensures |b| == n
  {
    seq(n, i requires 0 <= i < n => if i < |name| then name[i] as int else 0)
  }

  /** The characters before the first zero byte. */
  function CString(b: seq<byte>): string {
    if b == [] || b[0] == 0 then [] else [b[0] as char] + CString(b[1..])
  }

  function EntryBytes(e: Entry): (b: seq<byte>)
    requires Writable(e)
    ensures |b| == ENTRY
  {
    NameBytes(e.name, 16) + WordBytes(e.ino) + WordBytes(Code(e.kind))
  }

  /** String functions read the name up to the first zero byte, beyond the 16-byte field if need be. */
  function EntryOf(b: seq<byte>): Entry
    requires |b| == ENTRY
  {
    Entry(CString(b), Word(b[16..20]), KindOf(Word(b[20..24])))
  }

  lemma {:induction false} NameRoundTrip(name: string, n: nat, rest: seq<byte>)
    requires |name| <= n && forall i :: 0 <= i < |name| ==> 0 < name[i] as int < 256
    ensures CString(NameBytes(name, n) + rest) == name + if |name| < n then [] else CString(rest)
  {
    hide NameBytes;
    var b := NameBytes(name, n) + rest;
    if name != [] {
      NameTail(name, n, rest);
      NameRoundTrip(name[1..], n - 1, rest);
      assert name == [name[0]] + name[1..];
    } else if n == 0 {
      assert b == rest;
    } else {
      NoName(n, rest);
    }
  }

  lemma NameTail(name: string, n: nat, rest: seq<byte>)
    requires 0 < |name| <= n && forall i :: 0 <= i < |name| ==> 0 < name[i] as int < 256
    ensures (NameBytes(name, n) + rest)[1..] == NameBytes(name[1..], n - 1) + rest && (NameBytes(name, n) + rest)[0] == name[0] as int
  {
  }

  lemma NoName(n: nat, rest: seq<byte>)
    requires n > 0
    ensures CString(NameBytes("", n) + rest) == ""
  {
  }

  /** An entry read back is the one written if and only if its name leaves room for the terminator or
      the first byte of the inode number happens to be one. */
  lemma EntryRoundTripIff(e: Entry)
    requires Writable(e)
    ensures EntryOf(EntryBytes(e)) == e <==> |e.name| <= 15 || e.ino % 256 == 0
  {
    hide Word, CString, WordBytes, NameBytes;
    var b, rest := EntryBytes(e), WordBytes(e.ino) + WordBytes(Code(e.kind));
    NameRoundTrip(e.name, 16, rest);
    WordRoundTrip(e.ino);
    WordRoundTrip(Code(e.kind));
    FirstByte(e.ino, WordBytes(Code(e.kind)));
    assert b == NameBytes(e.name, 16) + rest;
    assert b[16..20] == WordBytes(e.ino) && b[20..24] == WordBytes(Code(e.kind));
  }

  /** struct dir_entry byte by byte: the name padded with zeros in bytes 0 to 15, the inode number in 16 to
      19, the type, 0 for an unused slot, 1 for a file and 2 for a directory, in 20 to 23. */
  lemma EntryLayout(e: Entry)
    requires Writable(e)
    ensures var b := EntryBytes(e);
            && (forall i :: 0 <= i < 16 ==> b[i] == if i < |e.name| then e.name[i] as int else 0)
            && b[16] == Digit(e.ino, 0) && b[17] == Digit(e.ino, 1) && b[18] == Digit(e.ino, 2) && b[19] == Digit(e.ino, 3)
            && b[20] == (if e.kind == Unknown then 0 else if e.kind == Regular then 1 else 2) && b[21] == b[22] == b[23] == 0
  {
    hide Digit, Word;
    forall k: nat | k < 4 ensures EntryBytes(e)[16 + k] == Digit(e.ino, k) { LittleEndian(e.ino, k); }
    assert EntryBytes(e)[16 + 0] == Digit(e.ino, 0) && EntryBytes(e)[16 + 1] == Digit(e.ino, 1);
    assert EntryBytes(e)[16 + 2] == Digit(e.ino, 2) && EntryBytes(e)[16 + 3] == Digit(e.ino, 3);
  }

  lemma FirstByte(x: nat, rest: seq<byte>)
    requires x < U32
    ensures CString(WordBytes(x) + rest) == [] <==> x % 256 == 0
  {
  }

  lemma EntryRoundTrip(e: Entry)
    requires Fits(e)
    ensures EntryOf(EntryBytes(e)) == e
  {
    hide EntryOf, EntryBytes;
    EntryRoundTripIff(e);
  }

  /** The slots of a directory block. */
  function SlotsOf(s: Sector): (l: seq<Entry>)
    ensures |l| == PER_SECTOR
  {
    seq(PER_SECTOR, i requires 0 <= i < PER_SECTOR => EntryOf(s[ENTRY * i..ENTRY * i + ENTRY]))
  }

  lemma EmptySlot()
    ensures EntryOf(Zeros(ENTRY)) == EMPTY
  {
  }

  /** Copying an entry into a block changes that slot and no other. */
  lemma PatchSlot(s: Sector, i: nat, b: seq<byte>)
    requires i < PER_SECTOR && |b| == ENTRY
    ensures SlotsOf(Patch(s, ENTRY * i, b)) == SlotsOf(s)[i := EntryOf(b)]
  {
    var r := Patch(s, ENTRY * i, b);
    assert r[ENTRY * i..ENTRY * i + ENTRY] == b;
    forall j | 0 <= j < PER_SECTOR && j != i ensures r[ENTRY * j..ENTRY * j + ENTRY] == s[ENTRY * j..ENTRY * j + ENTRY] {
      SlotsApart(i, j);
    }
  }

  lemma SlotsApart(i: nat, j: nat)
    requires i != j
    ensures ENTRY * i + ENTRY <= ENTRY * j || ENTRY * j + ENTRY <= ENTRY * i
  {
  }

  lemma ZeroSlots()
    ensures SlotsOf(Zeros(SECTOR)) == seq(PER_SECTOR, _ => EMPTY)
  {
    EmptySlot();
    forall i | 0 <= i < PER_SECTOR ensures SlotsOf(Zeros(SECTOR))[i] == EMPTY {
      assert Zeros(SECTOR)[ENTRY * i..ENTRY * i + ENTRY] == Zeros(ENTRY);
    }
  }
}
