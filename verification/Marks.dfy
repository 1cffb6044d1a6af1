/** Conservation of blocks: over every run of file-system operations, how many marked blocks end up
    with no inode that owns them, and which operations are to blame. */
module Marks {
  import opened Basics
  import opened Entries
  import opened Sectors
  import opened Volume
  import opened DirModel
  import opened FileWrite
  import opened Directory
  import opened FileSystem
  import opened FsRuns

  ghost function Holds(v: Vol, a: nat): set<nat> {
    if a in v.inodes then Owned(v, a) else {}
  }

  /** A block that is marked and that no inode owns: nothing will ever give it back. */
  ghost predicate Orphan(v: Vol, x: nat) {
    InUse(v, x) && forall a :: a in v.inodes ==> x !in Owned(v, a)
  }

  /** The marks have changed as inode a's blocks have, but for the blocks `lost`, which were a's or
      free and are now marked without being a's. */
  ghost predicate Accounted(v: Vol, v1: Vol, a: nat, lost: seq<nat>) {
    && Distinct(lost)
    && (forall x: nat :: InUse(v1, x) <==> (InUse(v, x) && x !in Holds(v, a)) || x in Holds(v1, a) || x in lost)
    && (forall x: nat :: x in Holds(v1, a) && InUse(v, x) ==> x in Holds(v, a))
    && (forall x :: x in lost ==> x !in Holds(v1, a) && (x in Holds(v, a) || !InUse(v, x)))
  }

  lemma AccountedTrans(v: Vol, v1: Vol, v2: Vol, a: nat, l: seq<nat>, m: seq<nat>)
    requires Accounted(v, v1, a, l) && Accounted(v1, v2, a, m)
    ensures Accounted(v, v2, a, l + m)
  {
    hide InUse, Holds;
    forall i, j | 0 <= i < |l| && 0 <= j < |m| ensures l[i] != m[j] {
      assert l[i] in l && m[j] in m;
    }
  }

  lemma AccountedNone(v: Vol, v1: Vol, v2: Vol, a: nat)
    requires Accounted(v, v1, a, []) && Accounted(v1, v2, a, [])
    ensures Accounted(v, v2, a, [])
  {
    hide InUse, Holds;
  }

  /** Accounted for, the orphans gain exactly `lost`. */
  lemma OrphansGrow(v: Vol, v1: Vol, a: nat, lost: seq<nat>)
    requires OwnOk(v) && Isolated(v, v1, a) && Accounted(v, v1, a, lost)
    requires forall b :: b != a && b in v1.inodes ==> b in v.inodes
    ensures forall x: nat :: Orphan(v1, x) <==> Orphan(v, x) || x in lost
    ensures forall x :: x in lost ==> !Orphan(v, x)
  {
    forall b | b in v.inodes && b != a ensures b in v1.inodes && Owned(v1, b) == Owned(v, b) { OwnedKept(v, v1, a, b); }
    OwnedFacts(v);
    hide OwnOk, Isolated, InUse, Owned;
    forall x: nat ensures Orphan(v1, x) <==> Orphan(v, x) || x in lost {
      if Orphan(v1, x) && x !in lost {
        assert InUse(v, x) && x !in Holds(v, a);
      }
    }
  }

  lemma OwnedKept(v: Vol, v1: Vol, a: nat, b: nat)
    requires Isolated(v, v1, a) && b in v.inodes && b != a
    ensures b in v1.inodes && Owned(v1, b) == Owned(v, b)
  {
    hide Block;
    SameOwned(v, v1, b);
  }

  lemma OwnedFacts(v: Vol)
    requires OwnOk(v)
    ensures forall a, x :: a in v.inodes && x in Owned(v, a) ==> InUse(v, x)
    ensures forall a, b, x :: a in v.inodes && b in v.inodes && x in Owned(v, a) && x in Owned(v, b) ==> a == b
  {
    hide Block;
  }

  // --------------------------------------------------------------- one change at a time

  /** Neither marks nor blocks of a have changed. */
  lemma SameAccounts(v: Vol, v1: Vol, a: nat)
    requires OwnOk(v) && a in v.inodes && a in v1.inodes && v1.start == v.start && v1.bits == v.bits
    requires forall k: nat :: k <= INDEX ==> Block(v1, a, k) == Block(v, a, k)
    ensures Accounted(v, v1, a, [])
  {
    hide Block;
    SameOwned(v, v1, a);
    SameMarks(v, v1);
    OwnedFacts(v);
    hide OwnOk, Owned, InUse;
  }

  /** New blocks, all of which become blocks of a that were missing. */
  lemma PlacedAccounts(v: Vol, v1: Vol, a: nat, got: seq<nat>, lo: nat, hi: nat, off: int, index: bool)
    requires OwnOk(v) && a in v.inodes && Placed(v, v1, a, got, lo, hi, off, index) && off + lo == if index then 1 else 0
    requires (forall k: nat :: lo <= k < hi ==> Block(v, a, k) == 0) && (index ==> Block(v, a, INDEX) == 0)
    ensures Accounted(v, v1, a, [])
  {
    hide Block;
    TookBits(v, v1, got);
    PlacedOwned(v, v1, a, got, lo, hi, off, index);
    GotFree(v, v1, got);
    OwnedFacts(v);
    hide OwnOk, Owned, InUse, Placed;
  }

  lemma GotFree(v: Vol, v1: Vol, got: seq<nat>)
    requires Took(v, v1.bits, got)
    ensures forall x :: x in got ==> !InUse(v, x)
  {
  }

  lemma PlacedOwned(v: Vol, v1: Vol, a: nat, got: seq<nat>, lo: nat, hi: nat, off: int, index: bool)
    requires 0 < v.start && a in v.inodes && Placed(v, v1, a, got, lo, hi, off, index) && off + lo == if index then 1 else 0
    requires (forall k: nat :: lo <= k < hi ==> Block(v, a, k) == 0) && (index ==> Block(v, a, INDEX) == 0)
    ensures forall x :: x in Owned(v1, a) <==> x in Owned(v, a) || x in got
  {
    hide Block, Lowest;
    forall x | x in got ensures x in Owned(v1, a) {
      var i: nat :| i < |got| && got[i] == x;
      var k: nat := if index && i == 0 then INDEX else i - off;
      assert Block(v1, a, k) == x;
    }
    forall x | x in Owned(v, a) ensures x in Owned(v1, a) {
      var k: nat :| k <= INDEX && Block(v, a, k) != 0 && Block(v, a, k) == x;
      assert Block(v1, a, k) == x;
    }
    forall x | x in Owned(v1, a) ensures x in Owned(v, a) || x in got {
      var k: nat :| k <= INDEX && Block(v1, a, k) != 0 && Block(v1, a, k) == x;
      PlacedBlock(v, v1, a, got, lo, hi, off, index, k);
    }
  }

  /** The blocks number k to 139 and, last, the index block, as far as they exist. */
  function Behind(v: Vol, a: nat, k: nat): seq<nat>
    requires a in v.inodes
    decreases INDEX + 1 - k
  {
    if k > INDEX then [] else (if Block(v, a, k) == 0 then [] else [Block(v, a, k)]) + Behind(v, a, k + 1)
  }

  lemma {:induction false} BehindIs(v: Vol, a: nat, k: nat)
    requires OwnOk(v) && a in v.inodes
    ensures Distinct(Behind(v, a, k)) && 0 !in Behind(v, a, k)
    ensures forall x :: x in Behind(v, a, k) <==> exists j: nat :: k <= j <= INDEX && x == Block(v, a, j) != 0
    decreases INDEX + 1 - k
  {
    hide Block;
    if k <= INDEX {
      BehindIs(v, a, k + 1);
      var rest := Behind(v, a, k + 1);
      forall i | 0 <= i < |rest| ensures rest[i] != Block(v, a, k) {
        assert rest[i] in rest;
        var j: nat :| k + 1 <= j <= INDEX && rest[i] == Block(v, a, j) != 0;
      }
      forall x ensures x in Behind(v, a, k) <==> exists j: nat :: k <= j <= INDEX && x == Block(v, a, j) != 0 {
        if Block(v, a, k) != 0 && x == Block(v, a, k) { assert x in Behind(v, a, k); }
      }
    }
  }

  lemma UnindexedOwned(v: Vol, a: nat)
    requires OwnOk(v) && a in v.inodes
    ensures var v1, lost := Unindexed(v, a), Behind(v, a, DIRECT);
            forall x :: x in Owned(v, a) <==> x in Owned(v1, a) || x in lost
    ensures var v1, lost := Unindexed(v, a), Behind(v, a, DIRECT); forall x :: x in lost ==> x !in Owned(v1, a)
  {
    var v1, lost := Unindexed(v, a), Behind(v, a, DIRECT);
    UnindexedKeeps(v, a);
    BehindIs(v, a, DIRECT);
    hide Block, Isolated, Behind, InUse, Unindexed;
    forall x | x in Owned(v, a) && x !in lost ensures x in Owned(v1, a) {
      var k: nat :| k <= INDEX && Block(v, a, k) != 0 && Block(v, a, k) == x;
      assert Block(v1, a, k) == x;
    }
    forall x | x in Owned(v1, a) ensures x in Owned(v, a) && x !in lost {
      var k: nat :| k <= INDEX && Block(v1, a, k) != 0 && Block(v1, a, k) == x;
      assert k < DIRECT && Block(v, a, k) == x;
    }
    forall x | x in lost ensures x in Owned(v, a) {
      var j: nat :| DIRECT <= j <= INDEX && x == Block(v, a, j) != 0;
    }
  }

  /** The index block is forgotten, and with it what lies behind. */
  lemma UnindexedAccounts(v: Vol, a: nat)
    requires OwnOk(v) && a in v.inodes
    ensures Accounted(v, Unindexed(v, a), a, Behind(v, a, DIRECT))
  {
    hide Block, OwnOk, Owned, InUse, Isolated, Behind;
    UnindexedOwned(v, a);
    BehindIs(v, a, DIRECT);
    OwnedFacts(v);
    SameMarks(v, Unindexed(v, a));
  }

  /** Blocks lo to hi - 1. */
  function Blocks(v: Vol, a: nat, lo: nat, hi: nat): (s: seq<nat>)
    requires a in v.inodes && lo <= hi <= BLOCKS
    ensures |s| == hi - lo && forall x :: x in s <==> exists k: nat :: lo <= k < hi && Block(v, a, k) == x
  {
    var s := seq(hi - lo, i requires 0 <= i < hi - lo => Block(v, a, lo + i));
    assert forall k: nat :: lo <= k < hi ==> s[k - lo] == Block(v, a, k);
    s
  }

  lemma BlocksDistinct(v: Vol, a: nat, lo: nat, hi: nat)
    requires OwnOk(v) && a in v.inodes && lo <= hi <= BLOCKS && forall k: nat :: lo <= k < hi ==> Block(v, a, k) != 0
    ensures Distinct(Blocks(v, a, lo, hi))
  {
    hide Block;
  }

  lemma LostOwned(v: Vol, v1: Vol, a: nat, got: seq<nat>, has: nat, will: nat)
    requires OwnOk(v) && HasBlocks(v, a, has) && DIRECT < has < will <= BLOCKS && Placed(v, v1, a, got, DIRECT, will, 0, false)
    ensures forall x :: x in Owned(v1, a) <==> (x in Owned(v, a) && x !in Blocks(v, a, DIRECT, has)) || x in got[DIRECT..]
    ensures forall x :: x in Blocks(v, a, DIRECT, has) ==> x in Owned(v, a)
  {
    hide Block, Lowest;
    var was, more := Blocks(v, a, DIRECT, has), got[DIRECT..];
    hide Blocks;
    forall x | x in Owned(v, a) && x !in was ensures x in Owned(v1, a) {
      var k: nat :| k <= INDEX && Block(v, a, k) != 0 && Block(v, a, k) == x;
      assert Block(v1, a, k) == x;
    }
    forall x | x in more ensures x in Owned(v1, a) {
      var i: nat :| i < |more| && more[i] == x;
      assert Block(v1, a, DIRECT + i) == got[DIRECT + i] && got[DIRECT + i] in got;
    }
    forall x | x in Owned(v1, a) ensures (x in Owned(v, a) && x !in was) || x in more {
      var k: nat :| k <= INDEX && Block(v1, a, k) != 0 && Block(v1, a, k) == x;
      if DIRECT <= k < will {
        assert more[k - DIRECT] == x;
      } else {
        assert Block(v, a, k) == x;
      }
    }
  }

  /** The third situation: of the blocks taken the first twelve become nobody's, and so do the
      file's old blocks behind the index block: as many in all as the file had. */
  lemma LostAccounts(v: Vol, v1: Vol, a: nat, got: seq<nat>, has: nat, will: nat)
    requires OwnOk(v) && HasBlocks(v, a, has) && DIRECT < has < will <= BLOCKS && Placed(v, v1, a, got, DIRECT, will, 0, false)
    ensures |got| == will && Accounted(v, v1, a, got[..DIRECT] + Blocks(v, a, DIRECT, has))
    ensures |got[..DIRECT] + Blocks(v, a, DIRECT, has)| == has
  {
    hide Block, Blocks, Lowest;
    var was, spare, more := Blocks(v, a, DIRECT, has), got[..DIRECT], got[DIRECT..];
    LostOwned(v, v1, a, got, has, will);
    BlocksDistinct(v, a, DIRECT, has);
    TookBits(v, v1, got);
    GotFree(v, v1, got);
    OwnedFacts(v);
    assert got == spare + more;
    hide OwnOk, Owned, InUse, Placed, HasBlocks;
    forall x | x in spare ensures x !in more {}
    forall i, j | 0 <= i < |spare| && 0 <= j < |was| ensures spare[i] != was[j] {
      assert spare[i] in got && was[j] in was;
    }
  }

  // ---------------------------------------------------------------------- the operations

  lemma DeleteAccounts(v: Vol, v1: Vol, a: nat, ino: nat)
    requires OwnOk(v) && Deleted(v, v1, a, ino)
    ensures Accounted(v, v1, a, [])
  {
    hide OwnOk, Isolated, Owned, InUse, Deleted;
    DeletedOwn(v, v1, a, ino);
    OwnedFacts(v);
    OwnedFacts(v1);
  }

  lemma ReleaseAccounts(v: Vol, v1: Vol, a: nat)
    requires OwnOk(v) && Released(v, v1, a)
    ensures Accounted(v, v1, a, [])
  {
    hide OwnOk, Owned, Block;
  }

  lemma CreateAccounts(v: Vol, a: nat)
    requires OwnOk(v) && a !in v.inodes
    ensures Accounted(v, WithNew(v, a), a, [])
  {
    NewInode(v, a);
    hide OwnOk, Isolated, Block, WithNew;
    assert Owned(WithNew(v, a), a) == {};
    WithNewMarks(v, a);
    SameMarks(v, WithNew(v, a));
    hide InUse, Owned;
  }

  lemma WithNewMarks(v: Vol, a: nat)
    ensures WithNew(v, a).start == v.start && WithNew(v, a).bits == v.bits && a in WithNew(v, a).inodes
  {
  }

  /** A data block written and i_size set, after some blocks have been placed. */
  lemma PutAccounts(v: Vol, k: nat, a: nat, s: Sector, n: nat)
    requires OwnOk(v) && a in v.inodes && k < BLOCKS && Block(v, a, k) != 0
    ensures Accounted(v, WithSize(WithSector(v, Block(v, a, k), s), a, n), a, [])
  {
    hide Block, Isolated, Accounted;
    DataKeeps(v, a, k, s);
    var v1 := WithSector(v, Block(v, a, k), s);
    SizeKeeps(v1, a, n);
    hide OwnOk;
    SameAccounts(v, WithSize(v1, a, n), a);
  }

  /** One missing block placed, with an index block if it is the first behind one, and written. */
  lemma OnePlaced(v: Vol, v0: Vol, a: nat, got: seq<nat>, k: nat, off: int, s: Sector, n: nat)
    requires OwnOk(v) && a in v.inodes && k < BLOCKS && Placed(v, v0, a, got, k, k + 1, off, k == DIRECT) && off + k == if k == DIRECT then 1 else 0
    requires Block(v, a, k) == 0 && (k == DIRECT ==> Block(v, a, INDEX) == 0)
    ensures Accounted(v, WithSize(WithSector(v0, Block(v0, a, k), s), a, n), a, [])
  {
    hide Block, Accounted;
    PlacedKeeps(v, v0, a, got, k, k + 1, off, k == DIRECT);
    PlacedAccounts(v, v0, a, got, k, k + 1, off, k == DIRECT);
    assert Block(v0, a, k) == got[off + k] && got[off + k] in got;
    hide OwnOk;
    PutAccounts(v0, k, a, s, n);
    AccountedNone(v, v0, WithSize(WithSector(v0, Block(v0, a, k), s), a, n), a);
  }

  lemma MakeDirAccounts(v: Vol, v1: Vol, n: nat, parent: nat)
    requires OwnOk(v) && NewDir(v, v1, n, parent)
    ensures Accounted(v, v1, n, [])
  {
    hide OwnOk, Isolated, Block, Placed, DotsBlock, Accounted, WithNew;
    var v' := WithNew(v, n);
    var v0, got :| DirPut(v', v0, v1, got, n, parent);
    NewInode(v, n);
    WithNewMarks(v, n);
    CreateAccounts(v, n);
    OnePlaced(v', v0, n, got, 0, 0, DotsBlock(n, parent), 2 * ENTRY);
    AccountedNone(v, v', v1, n);
  }

  lemma SlotAccounts(v: Vol, v1: Vol, a: nat, k: nat, i: nat, e: Entry)
    requires OwnOk(v) && SlotFills(v, v1, a, k, i, e)
    ensures Accounted(v, v1, a, [])
  {
    hide OwnOk, Isolated, Block, EntryBytes, Patch, Accounted, FullUpTo, NoneFree;
    PutAccounts(v, k, a, Patch(Read(v.disk, Block(v, a, k)), ENTRY * i, EntryBytes(e)), v.inodes[a].size + ENTRY);
  }

  /** What an insertion loses: when the direct blocks are full, whatever index block there is. */
  function LostByInsert(v: Vol, a: nat): seq<nat>
    requires a in v.inodes
  {
    if FullUpTo(v, a, DIRECT) then Behind(v, a, DIRECT) else []
  }

  lemma BlockAccounts(v: Vol, v1: Vol, a: nat, k: nat, e: Entry)
    requires OwnOk(v) && BlockFills(v, v1, a, k, e)
    ensures Accounted(v, v1, a, if k == DIRECT then Behind(v, a, DIRECT) else [])
  {
    hide OwnOk, Isolated, Block, EntryBytes, Patch, Placed, Accounted, FullUpTo, Behind, Unindexed;
    var vx := if k < DIRECT then v else Unindexed(v, a);
    UnindexedKeeps(v, a);
    var v0, got, off :| BlockPut(vx, v0, v1, a, got, k, off, e);
    OnePlaced(vx, v0, a, got, k, off, Patch(Zeros(SECTOR), 0, EntryBytes(e)), vx.inodes[a].size + ENTRY);
    if k == DIRECT {
      UnindexedAccounts(v, a);
      AccountedTrans(v, vx, v1, a, Behind(v, a, DIRECT), []);
      assert Behind(v, a, DIRECT) + [] == Behind(v, a, DIRECT);
    }
  }

  lemma InsertAccounts(v: Vol, v1: Vol, a: nat, e: Entry)
    requires OwnOk(v) && Inserted(v, v1, a, e)
    ensures a in v.inodes && Accounted(v, v1, a, LostByInsert(v, a))
  {
    hide OwnOk, Isolated, Block, EntryBytes, Patch, Accounted, FullUpTo, Behind, NewBlockPut, Here, PutSlot, NoneFree;
    if k: nat, i: nat :| SlotFills(v, v1, a, k, i, e) {
      SlotNotFull(v, a, k, i);
      SlotAccounts(v, v1, a, k, i, e);
    } else {
      var k: nat :| BlockFills(v, v1, a, k, e);
      if k < DIRECT { MissingNotFull(v, a, k); }
      BlockAccounts(v, v1, a, k, e);
    }
  }

  /** How many blocks a write loses: in the third situation, as many as the file has. */
  function LostByWrite(size: nat, count: nat): nat {
    if Loses(Needed(size), Needed(size + count)) then Needed(size) else 0
  }

  ghost predicate Loss(v: Vol, v1: Vol, a: nat, n: nat) {
    exists lost: seq<nat> :: |lost| == n && Accounted(v, v1, a, lost)
  }

  lemma BegunAccounts(v: Vol, v0: Vol, a: nat)
    requires OwnOk(v) && FileOk(v, a) && Begun(v, v0, a)
    ensures Accounted(v, v0, a, [])
  {
    hide OwnOk, Block, Accounted, Placed;
    if v.inodes[a].sectors[0] != 0 {
      SameAccounts(v, v0, a);
    } else {
      var got :| Placed(v, v0, a, got, 0, 1, 0, false);
      PlacedAccounts(v, v0, a, got, 0, 1, 0, false);
    }
  }

  lemma PlanAccounts(v: Vol, v1: Vol, a: nat, count: nat)
    requires OwnOk(v) && a in v.inodes && HasBlocks(v, a, Needed(v.inodes[a].size)) && Planned(v, v1, a, count)
    requires v.inodes[a].size + count < BLOCKS * SECTOR
    ensures Loss(v, v1, a, LostByWrite(v.inodes[a].size, count))
  {
    hide OwnOk, Block, Accounted, Placed, Blocks;
    var has, will := Needed(v.inodes[a].size), Needed(v.inodes[a].size + count);
    if will == has {
      SameAccounts(v, v1, a);
      assert Accounted(v, v1, a, []);
    } else {
      var lo, off, index := Anew(has), Ahead(has, will) - Anew(has), has <= DIRECT < will;
      var got :| Placed(v, v1, a, got, lo, will, off, index);
      if has > DIRECT {
        LostAccounts(v, v1, a, got, has, will);
      } else {
        PlacedAccounts(v, v1, a, got, lo, will, off, index);
        assert Accounted(v, v1, a, []);
      }
    }
  }

  lemma StoreAccounts(v: Vol, v1: Vol, a: nat, buf: seq<byte>)
    requires OwnOk(v) && Stored(v, v1, a, buf)
    ensures Accounted(v, v1, a, [])
  {
    hide Block, ByteAt, Accounted, IsData, Isolated;
    StoredKeeps(v, v1, a, buf);
    SameAccounts(v, v1, a);
  }

  lemma WriteAccounts(v: Vol, v1: Vol, a: nat, buf: seq<byte>)
    requires OwnOk(v) && FileOk(v, a) && Wrote(v, v1, a, buf)
    ensures Loss(v, v1, a, LostByWrite(v.inodes[a].size, |buf|))
  {
    hide OwnOk, Isolated, HasBlocks, Begun, Planned, FileOk, Block, ByteAt, Accounted, LostByWrite;
    var v0, vp :| Begun(v, v0, a) && Planned(v0, vp, a, |buf|) && Stored(vp, v1, a, buf);
    SizesSame(v, v0, vp, a, |buf|);
    BegunHas(v, v0, a);
    PlannedGrows(v0, vp, a, |buf|);
    BegunAccounts(v, v0, a);
    PlanAccounts(v0, vp, a, |buf|);
    StoreAccounts(vp, v1, a, buf);
    var lost: seq<nat> :| |lost| == LostByWrite(v.inodes[a].size, |buf|) && Accounted(v0, vp, a, lost);
    AccountedTrans(v, v0, vp, a, [], lost);
    AccountedTrans(v, vp, v1, a, [] + lost, []);
    assert [] + lost + [] == lost;
  }

  // ------------------------------------------------------------------------------ runs

  /** How many blocks an operation loses. */
  function LostBy(s: State, op: Op): nat {
    var a := op.subject;
    if a !in s.v.inodes then 0
    else match op
      case Write(_, buf) => LostByWrite(s.v.inodes[a].size, |buf|)
      case Insert(_, _) => |LostByInsert(s.v, a)|
      case _ => 0
  }

  /** An operation loses blocks exactly when it is a write in the third situation or an insertion into
      a directory whose direct blocks are full and which has an index block. */
  lemma LosesIff(s: State, op: Op)
    requires FsInv(s)
    ensures LostBy(s, op) > 0 <==>
            var a := op.subject;
            && a in s.v.inodes
            && ((op.Write? && Loses(Needed(s.v.inodes[a].size), Needed(s.v.inodes[a].size + |op.buf|)))
                || (op.Insert? && FullUpTo(s.v, a, DIRECT) && Block(s.v, a, INDEX) != 0))
  {
    hide OwnOk, FileOk, DirOk, FullUpTo, Block, Behind, Loses;
    var a := op.subject;
    if op.Insert? && a in s.v.inodes {
      BehindIs(s.v, a, DIRECT);
      if Block(s.v, a, INDEX) == 0 { NoIndexNoBlocks(s.v, a); }
      if x :| x in Behind(s.v, a, DIRECT) {
        var j: nat :| DIRECT <= j <= INDEX && x == Block(s.v, a, j) != 0;
      }
      if Block(s.v, a, INDEX) != 0 { assert Block(s.v, a, INDEX) in Behind(s.v, a, DIRECT); }
      if Behind(s.v, a, DIRECT) != [] { assert Behind(s.v, a, DIRECT)[0] in Behind(s.v, a, DIRECT); }
    }
  }

  lemma NoIndexNoBlocks(v: Vol, a: nat)
    requires a in v.inodes && Block(v, a, INDEX) == 0
    ensures forall k: nat :: DIRECT <= k <= INDEX ==> Block(v, a, k) == 0
  {
    assert Block(v, a, INDEX) == v.inodes[a].sectors[12];
  }

  /** Exactly the blocks `lost` have become orphans. */
  ghost predicate NewOrphans(v: Vol, v1: Vol, lost: seq<nat>) {
    && Distinct(lost) && (forall x :: x in lost ==> !Orphan(v, x))
    && forall x: nat :: Orphan(v1, x) <==> Orphan(v, x) || x in lost
  }

  ghost predicate LosesBlocks(v: Vol, v1: Vol, n: nat) {
    exists lost: seq<nat> :: |lost| == n && NewOrphans(v, v1, lost)
  }

  lemma StepAccounts(s: State, s1: State, op: Op)
    requires FsInv(s) && Step(s, s1, op)
    ensures Loss(s.v, s1.v, op.subject, LostBy(s, op))
  {
    hide OwnOk, FileOk, DirOk, CanAdd, Roomy, Wrote, Inserted, Deleted, NewDir, Released, Accounted, LostByWrite, LostByInsert;
    var v, v1, a := s.v, s1.v, op.subject;
    match op
    case Write(_, buf) => WriteAccounts(v, v1, a, buf);
    case Insert(_, e) => InsertAccounts(v, v1, a, e);
    case Delete(_, ino) =>
      DeleteAccounts(v, v1, a, ino);
      assert Accounted(v, v1, a, []);
    case Create(_) =>
      CreateAccounts(v, a);
      assert Accounted(v, v1, a, []);
    case MakeDir(_, parent) =>
      MakeDirAccounts(v, v1, a, parent);
      assert Accounted(v, v1, a, []);
    case Release(_) =>
      ReleaseAccounts(v, v1, a);
      assert Accounted(v, v1, a, []);
  }

  /** Every step makes exactly LostBy blocks orphans, and no orphan ever stops being one. */
  lemma StepLoses(s: State, s1: State, op: Op)
    requires FsInv(s) && Step(s, s1, op)
    ensures LosesBlocks(s.v, s1.v, LostBy(s, op))
  {
    hide OwnOk, Isolated, FileOk, DirOk, Step, Accounted, LostBy, Orphan;
    StepAccounts(s, s1, op);
    StepOwn(s, s1, op);
    KindsStay(s, s1, op);
    var lost: seq<nat> :| |lost| == LostBy(s, op) && Accounted(s.v, s1.v, op.subject, lost);
    OrphansGrow(s.v, s1.v, op.subject, lost);
    assert Distinct(lost) by { LostDistinct(s.v, s1.v, op.subject, lost); }
    assert NewOrphans(s.v, s1.v, lost);
  }

  lemma LostDistinct(v: Vol, v1: Vol, a: nat, lost: seq<nat>)
    requires Accounted(v, v1, a, lost)
    ensures Distinct(lost)
  {
  }

  /** What the first n operations of a run lose. */
  function TotalLost(ss: seq<State>, ops: seq<Op>, n: nat): nat
    requires n <= |ops| < |ss|
  {
    if n == 0 then 0 else TotalLost(ss, ops, n - 1) + LostBy(ss[n - 1], ops[n - 1])
  }

  /** Over every run the orphans are those of the first state and exactly as many more as the
      operations have lost: nothing else leaks, and nothing is ever recovered. */
  lemma {:induction false} BlocksConserved(ss: seq<State>, ops: seq<Op>, n: nat)
    requires FsRun(ss, ops) && n <= |ops|
    ensures LosesBlocks(ss[0].v, ss[n].v, TotalLost(ss, ops, n))
  {
    hide FsInv, Step, LostBy, Orphan;
    if n == 0 {
      assert NewOrphans(ss[0].v, ss[0].v, []);
    } else {
      BlocksConserved(ss, ops, n - 1);
      FsSafe(ss, ops, n - 1);
      StepLoses(ss[n - 1], ss[n], ops[n - 1]);
      var l: seq<nat> :| |l| == TotalLost(ss, ops, n - 1) && NewOrphans(ss[0].v, ss[n - 1].v, l);
      var m: seq<nat> :| |m| == LostBy(ss[n - 1], ops[n - 1]) && NewOrphans(ss[n - 1].v, ss[n].v, m);
      OrphansAdd(ss[0].v, ss[n - 1].v, ss[n].v, l, m);
    }
  }

  lemma OrphansAdd(v: Vol, v1: Vol, v2: Vol, l: seq<nat>, m: seq<nat>)
    requires NewOrphans(v, v1, l) && NewOrphans(v1, v2, m)
    ensures NewOrphans(v, v2, l + m)
  {
    hide Orphan;
    forall i, j | 0 <= i < |l| && 0 <= j < |m| ensures l[i] != m[j] {
      assert l[i] in l && m[j] in m;
    }
  }

  /** On a partition just formatted only the bits behind the last block are marked without an owner. */
  lemma FormattedOrphans(v: Vol, x: nat)
    requires v.inodes == map[0 := Inode(2 * ENTRY, [v.start] + seq(12, _ => 0))] && v.start > 0
    ensures Orphan(v, x) <==> InUse(v, x) && x != v.start
  {
    FormattedBlocks(v);
    hide Block;
    assert Owned(v, 0) == {v.start} by { assert Block(v, 0, 0) == v.start; }
  }

  /** As long as no operation loses blocks, every marked block of a partition that started out
      formatted is some inode's or lies behind the last block. */
  lemma EveryBlockOwned(ss: seq<State>, ops: seq<Op>, n: nat, x: nat)
    requires FsRun(ss, ops) && n <= |ops| && ss[0].v.inodes == map[0 := Inode(2 * ENTRY, [ss[0].v.start] + seq(12, _ => 0))]
    requires forall i :: 0 <= i < n ==> LostBy(ss[i], ops[i]) == 0
    ensures InUse(ss[n].v, x) <==>
            (exists a :: a in ss[n].v.inodes && x in Owned(ss[n].v, a)) || (InUse(ss[0].v, x) && x != ss[0].v.start)
  {
    hide OwnOk, Step, LostBy, Owned, InUse, FileOk, DirOk;
    BlocksConserved(ss, ops, n);
    FsSafe(ss, ops, n);
    FormattedStart(ss[0].v);
    FormattedOrphans(ss[0].v, x);
    NothingLost(ss, ops, n);
    OwnedFacts(ss[n].v);
  }

  lemma {:induction false} NothingLost(ss: seq<State>, ops: seq<Op>, n: nat)
    requires n <= |ops| < |ss| && forall i :: 0 <= i < n ==> LostBy(ss[i], ops[i]) == 0
    ensures TotalLost(ss, ops, n) == 0
  {
    if n > 0 { NothingLost(ss, ops, n - 1); }
  }
}
