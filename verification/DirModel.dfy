/** A directory as the sequence of its live entries: how that sequence is read off the blocks of
    the directory's inode, and how changing one block changes it. */
module DirModel {
  import opened Basics
  import opened Entries
  import opened Sectors
  import opened Volume

  /** The slots of block k; none when the block is missing. */
  function Here(v: Vol, a: nat, k: nat): seq<Entry>
    requires a in v.inodes && k < BLOCKS
  {
    if Block(v, a, k) == 0 then [] else SlotsOf(Read(v.disk, Block(v, a, k)))
  }

  function Upto(v: Vol, a: nat, k: nat): seq<Entry>
    requires a in v.inodes && k <= BLOCKS
  {
    if k == 0 then [] else Upto(v, a, k - 1) + Here(v, a, k - 1)
  }

  function From(v: Vol, a: nat, k: nat): seq<Entry>
    requires a in v.inodes && k <= BLOCKS
    decreases BLOCKS - k
  {
    if k == BLOCKS then [] else Here(v, a, k) + From(v, a, k + 1)
  }

  function Entered(l: seq<Entry>): seq<Entry> {
    if l == [] then [] else (if l[0].kind == Unknown then [] else [l[0]]) + Entered(l[1..])
  }

  /** The live entries of a directory in block and slot order. */
  function Listing(v: Vol, a: nat): seq<Entry>
    requires a in v.inodes
  {
    Entered(From(v, a, 0))
  }

  // ------------------------------------------------------------------- splitting

  lemma {:induction false} LiveAppend(l: seq<Entry>, m: seq<Entry>)
    ensures Entered(l + m) == Entered(l) + Entered(m)
  {
    if l == [] {
      assert l + m == m;
    } else {
      assert (l + m)[1..] == l[1..] + m;
      LiveAppend(l[1..], m);
    }
  }

  lemma {:induction false} LiveIn(l: seq<Entry>)
    ensures forall e :: e in Entered(l) <==> e in l && e.kind != Unknown
  {
    if l != [] {
      LiveIn(l[1..]);
      assert l == [l[0]] + l[1..];
    }
  }

  lemma LiveSplit(l: seq<Entry>, i: nat)
    requires i < |l|
    ensures Entered(l) == Entered(l[..i]) + (if l[i].kind == Unknown then [] else [l[i]]) + Entered(l[i + 1..])
  {
    hide Entered;
    Cut(l, i);
    LiveThree(l[..i], l[i], l[i + 1..]);
  }

  lemma Cut(l: seq<Entry>, i: nat)
    requires i < |l|
    ensures l == l[..i] + ([l[i]] + l[i + 1..])
  {
  }

  lemma LiveThree(pre: seq<Entry>, e: Entry, post: seq<Entry>)
    ensures Entered(pre + ([e] + post)) == Entered(pre) + (if e.kind == Unknown then [] else [e]) + Entered(post)
  {
    hide Entered;
    LiveAppend(pre, [e] + post);
    LiveAppend([e], post);
    LiveOne(e);
    Shift(Entered(pre), Entered([e]), Entered(post));
  }

  lemma LiveOne(e: Entry)
    ensures Entered([e]) == if e.kind == Unknown then [] else [e]
  {
  }

  lemma {:induction false} Splits(v: Vol, a: nat, k: nat)
    requires a in v.inodes && k <= BLOCKS
    ensures From(v, a, 0) == Upto(v, a, k) + From(v, a, k)
  {
    hide Here;
    if k > 0 {
      Splits(v, a, k - 1);
      Shift(Upto(v, a, k - 1), Here(v, a, k - 1), From(v, a, k));
    }
  }

  lemma Shift(l: seq<Entry>, m: seq<Entry>, n: seq<Entry>)
    ensures l + (m + n) == (l + m) + n
  {
  }

  lemma {:induction false} UptoSame(v: Vol, v1: Vol, a: nat, k: nat)
    requires a in v.inodes && a in v1.inodes && k <= BLOCKS && forall j: nat :: j < k ==> Here(v1, a, j) == Here(v, a, j)
    ensures Upto(v1, a, k) == Upto(v, a, k)
  {
    if k > 0 { UptoSame(v, v1, a, k - 1); }
  }

  lemma {:induction false} FromSame(v: Vol, v1: Vol, a: nat, k: nat)
    requires a in v.inodes && a in v1.inodes && k <= BLOCKS
    requires forall j: nat :: k <= j < BLOCKS ==> Here(v1, a, j) == Here(v, a, j)
    ensures From(v1, a, k) == From(v, a, k)
    decreases BLOCKS - k
  {
    if k < BLOCKS { FromSame(v, v1, a, k + 1); }
  }

  /** The listing, split around block k. */
  lemma ListingSplit(v: Vol, a: nat, k: nat)
    requires a in v.inodes && k < BLOCKS
    ensures Listing(v, a) == Entered(Upto(v, a, k)) + Entered(Here(v, a, k)) + Entered(From(v, a, k + 1))
  {
    hide Here, Entered;
    Splits(v, a, k);
    LiveAppend(Upto(v, a, k), From(v, a, k));
    LiveAppend(Here(v, a, k), From(v, a, k + 1));
    Shift(Entered(Upto(v, a, k)), Entered(Here(v, a, k)), Entered(From(v, a, k + 1)));
  }

  function Around(pre: seq<Entry>, l: seq<Entry>, post: seq<Entry>): seq<Entry> { pre + l + post }

  lemma ListingAround(v: Vol, a: nat, k: nat)
    requires a in v.inodes && k < BLOCKS
    ensures Listing(v, a) == Around(Entered(Upto(v, a, k)), Entered(Here(v, a, k)), Entered(From(v, a, k + 1)))
  {
    hide Here, Entered, Upto, From, Listing;
    ListingSplit(v, a, k);
  }

  /** l1 is l with e inserted at position p. */
  predicate InsertedAt(l: seq<Entry>, l1: seq<Entry>, p: nat, e: Entry) {
    p <= |l| && l1 == l[..p] + [e] + l[p..]
  }

  /** One entry more in block k is one entry more in the listing, at the same place. */
  lemma {:induction false} BlockInserted(v: Vol, v1: Vol, a: nat, k: nat, q: nat, e: Entry)
    requires a in v.inodes && a in v1.inodes && k < BLOCKS
    requires forall j: nat :: j < BLOCKS && j != k ==> Here(v1, a, j) == Here(v, a, j)
    requires InsertedAt(Entered(Here(v, a, k)), Entered(Here(v1, a, k)), q, e)
    ensures InsertedAt(Listing(v, a), Listing(v1, a), |Entered(Upto(v, a, k))| + q, e)
  {
    hide Here, Entered, Upto, From, Listing, Around, InsertedAt;
    SameAround(v, v1, a, k);
    InsertMiddle(Entered(Upto(v, a, k)), Entered(Here(v, a, k)), Entered(Here(v1, a, k)), Entered(From(v, a, k + 1)), q, e);
  }

  /** The rest of the listing when only block k differs. */
  lemma SameAround(v: Vol, v1: Vol, a: nat, k: nat)
    requires a in v.inodes && a in v1.inodes && k < BLOCKS
    requires forall j: nat :: j < BLOCKS && j != k ==> Here(v1, a, j) == Here(v, a, j)
    ensures Listing(v, a) == Around(Entered(Upto(v, a, k)), Entered(Here(v, a, k)), Entered(From(v, a, k + 1)))
    ensures Listing(v1, a) == Around(Entered(Upto(v, a, k)), Entered(Here(v1, a, k)), Entered(From(v, a, k + 1)))
  {
    hide Here, Entered, Upto, From, Listing, Around;
    ListingAround(v, a, k);
    ListingAround(v1, a, k);
    UptoSame(v, v1, a, k);
    FromSame(v, v1, a, k + 1);
  }

  lemma InsertMiddle(pre: seq<Entry>, l: seq<Entry>, l1: seq<Entry>, post: seq<Entry>, q: nat, e: Entry)
    requires InsertedAt(l, l1, q, e)
    ensures InsertedAt(Around(pre, l, post), Around(pre, l1, post), |pre| + q, e)
  {
  }

  /** Filling a free slot. */
  lemma SlotFilled(l: seq<Entry>, i: nat, e: Entry)
    requires i < |l| && l[i].kind == Unknown && e.kind != Unknown
    ensures InsertedAt(Entered(l), Entered(l[i := e]), |Entered(l[..i])|, e)
  {
    LiveSplit(l, i);
    LiveSplit(l[i := e], i);
    assert l[i := e][..i] == l[..i] && l[i := e][i + 1..] == l[i + 1..];
  }

  // -------------------------------------------------------------- well-formedness

  predicate Proper(name: string) {
    name != "" && name != "." && name != ".."
  }

  /** "." and ".." come first; all names differ, and so do the inode numbers of the others. */
  ghost predicate ListOk(l: seq<Entry>, a: nat) {
    && |l| >= 2 && l[0] == Entry(".", a, Directory) && l[1].name == ".." && l[1].kind == Directory
    && (forall i :: 2 <= i < |l| ==> Proper(l[i].name))
    && (forall i, j :: 2 <= i < j < |l| ==> l[i].name != l[j].name && l[i].ino != l[j].ino)
  }

  /** Free slots hold nothing but zeros. */
  ghost predicate CleanOk(v: Vol, a: nat)
    requires a in v.inodes
  {
    forall k: nat, e :: k < BLOCKS && e in Here(v, a, k) && e.kind == Unknown ==> e == EMPTY
  }

  /** "." and ".." are the first two slots of the first block. */
  ghost predicate DotsOk(v: Vol, a: nat)
    requires a in v.inodes
  {
    Block(v, a, 0) != 0 && Here(v, a, 0)[0].kind != Unknown && Here(v, a, 0)[1].kind != Unknown
  }

  /** Only the first block may be without further entries. */
  ghost predicate NoIdleBlock(v: Vol, a: nat)
    requires a in v.inodes
  {
    forall k: nat :: 0 < k < BLOCKS && Block(v, a, k) != 0 ==> Entered(Here(v, a, k)) != []
  }

  /** An index block has a block behind it. */
  ghost predicate IndexUsed(v: Vol, a: nat)
    requires a in v.inodes
  {
    Block(v, a, INDEX) != 0 ==> Block(v, a, DIRECT) != 0
  }

  /** A directory in order: i_size is 24 times the number of live entries. */
  ghost predicate DirOk(v: Vol, a: nat) {
    && a in v.inodes && IndexUsed(v, a) && v.inodes[a].size == ENTRY * |Listing(v, a)|
    && DotsOk(v, a) && CleanOk(v, a) && NoIdleBlock(v, a) && ListOk(Listing(v, a), a)
  }

  lemma {:induction false} LiveLength(l: seq<Entry>, i: nat)
    requires i <= |l| && forall j :: 0 <= j < i ==> l[j].kind != Unknown
    ensures |Entered(l)| >= i && Entered(l)[..i] == l[..i]
  {
    if i > 0 {
      LiveLength(l[1..], i - 1);
      assert l[..i] == [l[0]] + l[1..][..i - 1];
    }
  }

  /** The dots precede everything from slot 2 of block 0 on. */
  lemma DotsFirst(v: Vol, a: nat, k: nat)
    requires a in v.inodes && DotsOk(v, a) && 0 < k <= BLOCKS
    ensures |Entered(Upto(v, a, k))| >= 2
    decreases k
  {
    LiveAppend(Upto(v, a, k - 1), Here(v, a, k - 1));
    if k == 1 {
      LiveLength(Here(v, a, 0), 2);
    } else {
      DotsFirst(v, a, k - 1);
    }
  }

  lemma NewEntry(l: seq<Entry>, l1: seq<Entry>, p: nat, e: Entry, a: nat)
    requires ListOk(l, a) && InsertedAt(l, l1, p, e) && p >= 2 && Proper(e.name)
    requires forall i :: 2 <= i < |l| ==> l[i].name != e.name && l[i].ino != e.ino
    ensures ListOk(l1, a)
  {
  }

  lemma LessEntry(l: seq<Entry>, l1: seq<Entry>, p: nat, e: Entry, a: nat)
    requires ListOk(l1, a) && InsertedAt(l, l1, p, e) && p >= 2
    ensures ListOk(l, a)
  {
    forall i | 0 <= i < |l| ensures l[i] == l1[if i < p then i else i + 1] {}
    forall i | 2 <= i < |l| ensures Proper(l[i].name) { assert Proper(l1[if i < p then i else i + 1].name); }
  }

  /** Removing the entry that was inserted gives the listing back, whatever happened to the
      blocks in between. */
  lemma RemoveUndoesInsert(l: seq<Entry>, l1: seq<Entry>, l2: seq<Entry>, p: nat, q: nat, e: Entry, f: Entry, a: nat)
    requires InsertedAt(l, l1, p, e) && InsertedAt(l2, l1, q, f) && ListOk(l1, a) && p >= 2 && q >= 2 && e.ino == f.ino
    ensures l2 == l
  {
    assert l1[p] == e && l1[q] == f;
    assert p == q;
    assert l == l1[..p] + l1[p + 1..];
    assert l2 == l1[..q] + l1[q + 1..];
  }

  // ---------------------------------------------------------------------- look-up

  lemma {:induction false} ByNameAppend(l: seq<Entry>, m: seq<Entry>, name: string)
    ensures ByName(l + m, name) == if ByName(l, name).Some? then ByName(l, name) else ByName(m, name)
  {
    if l == [] {
      assert l + m == m;
    } else {
      assert (l + m)[1..] == l[1..] + m;
      ByNameAppend(l[1..], m, name);
    }
  }

  /** Looking up a non-empty name among all slots is looking it up among the live entries. */
  lemma {:induction false} ByNameLive(l: seq<Entry>, name: string)
    requires name != "" && forall e :: e in l && e.kind == Unknown ==> e == EMPTY
    ensures ByName(l, name) == ByName(Entered(l), name)
  {
    if l != [] {
      assert l[0] in l;
      ByNameLive(l[1..], name);
      LiveCons(l);
      ByNameAppend(if l[0].kind == Unknown then [] else [l[0]], Entered(l[1..]), name);
    }
  }

  lemma LiveCons(l: seq<Entry>)
    requires l != []
    ensures Entered(l) == (if l[0].kind == Unknown then [] else [l[0]]) + Entered(l[1..])
  {
  }

  lemma {:induction false} FromClean(v: Vol, a: nat, k: nat)
    requires a in v.inodes && CleanOk(v, a) && k <= BLOCKS
    ensures forall e :: e in From(v, a, k) && e.kind == Unknown ==> e == EMPTY
    decreases BLOCKS - k
  {
    if k < BLOCKS { FromClean(v, a, k + 1); }
  }

  /** search_dir_entry finds a non-empty name exactly when a live entry carries it, and then
      returns that entry. */
  lemma SearchExact(v: Vol, a: nat, name: string)
    requires DirOk(v, a) && name != ""
    ensures ByName(From(v, a, 0), name).Some? <==> exists e :: e in Listing(v, a) && e.name == name
    ensures forall e :: e in Listing(v, a) && e.name == name && Proper(name) ==> ByName(From(v, a, 0), name) == Some(e)
  {
    hide From, Entered, Here, Block, DotsOk, ByName, ListOk;
    FromClean(v, a, 0);
    ByNameLive(From(v, a, 0), name);
    if Proper(name) {
      forall e | e in Listing(v, a) && e.name == name ensures ByName(Listing(v, a), name) == Some(e) {
        OneBearer(Listing(v, a), a, e);
      }
    }
  }

  lemma OneBearer(l: seq<Entry>, a: nat, e: Entry)
    requires ListOk(l, a) && e in l && Proper(e.name)
    ensures ByName(l, e.name) == Some(e)
  {
  }
}
