/** dir_read of fs/dir.c: one directory entry per call, in block and slot order. */
module Enumeration {
  import opened Basics
  import opened Entries
  import opened Sectors
  import opened Volume
  import opened DirModel
  import opened FileWrite
  import opened Directory

  lemma EnteredMore(l: seq<Entry>, i: nat)
    requires i < |l|
    ensures Entered(l[..i + 1]) == Entered(l[..i]) + (if l[i].kind == Unknown then [] else [l[i]])
  {
    hide Entered;
    assert l[..i + 1] == l[..i] + [l[i]];
    LiveAppend(l[..i], [l[i]]);
    LiveOne(l[i]);
  }

  lemma NothingEntered()
    ensures Entered([]) == []
  {
  }

  /** The slots of one block.  `cur` counts the bytes of live entries passed; the scan stops at
      the live entry where it meets `pos`. */
  method ScanSlots(slots: seq<Entry>, start: nat, pos: nat) returns (hit: Option<nat>, cur: nat)
    requires start <= pos && start % ENTRY == 0 && pos % ENTRY == 0
    ensures hit.Some? ==> hit.value < |slots| && slots[hit.value].kind != Unknown
    ensures hit.Some? ==> start + ENTRY * |Entered(slots[..hit.value])| == pos
    ensures hit.None? ==> cur == start + ENTRY * |Entered(slots)| <= pos
  {
    var i := 0;
    cur := start;
    NothingEntered();
    while i < |slots|
      invariant i <= |slots| && cur == start + ENTRY * |Entered(slots[..i])| <= pos
    {
      EnteredMore(slots, i);
      if slots[i].kind != Unknown {
        if cur < pos {
          Multiples(cur, pos);
          cur := cur + ENTRY;
        } else {
          assert cur == pos;  // ASSERT, line 367
          return Some(i), cur;
        }
      }
      i := i + 1;
    }
    assert slots[..i] == slots;
    hit := None;
  }

  lemma Multiples(x: nat, y: nat)
    requires x < y && y % ENTRY == 0
    requires x % ENTRY == 0
    ensures x + ENTRY <= y && (x + ENTRY) % ENTRY == 0
  {
  }

  /** An open directory: struct dir. */
  class Handle {
    const inode: nat
    var pos: nat  // dir_pos

    constructor (a: nat)
      ensures inode == a && pos == 0
    {
      inode, pos := a, 0;
    }

    /** dir_read. */
    method DirRead(p: Partition) returns (r: Option<Entry>)
      requires inode in p.inodes && pos % ENTRY == 0
      modifies this
      ensures r == ReadAt(p.View(), inode, old(pos)) && pos == old(pos) + if r.Some? then ENTRY else 0
    {
      hide Block, Here, SlotsOf, Entered;
      ghost var v := p.View();
      var size := p.inodes[inode].size;
      var all := AllBlocks(p, inode);
      var blocks := if p.inodes[inode].sectors[12] != 0 then BLOCKS else DIRECT;
      var k, cur := 0, 0;
      ghost var at := pos;
      UptoNone(v, inode);
      while k < blocks
        invariant k <= blocks <= BLOCKS && pos == at && cur == ENTRY * |Entered(Upto(v, inode, k))| <= pos
      {
        if pos >= size {
          return None;
        }
        UptoMore(v, inode, k);
        if all[k] == 0 {
          MissingBlock(v, inode, k);
        } else {
          var slots := SlotsOf(Read(p.disk, all[k]));
          PresentBlock(v, inode, k);
          var hit, cur1 := ScanSlots(slots, cur, pos);
          if hit.Some? {
            HitIs(v, inode, k, hit.value, pos);
            pos := pos + ENTRY;
            return Some(slots[hit.value]);
          }
          cur := cur1;
        }
        k := k + 1;
      }
      AllSeen(v, inode, blocks);
      return None;
    }
  }

  /** The entry that dir_read returns at position pos. */
  function ReadAt(v: Vol, a: nat, pos: nat): Option<Entry>
    requires a in v.inodes
  {
    if pos >= v.inodes[a].size || pos / ENTRY >= |Listing(v, a)| then None else Some(Listing(v, a)[pos / ENTRY])
  }

  lemma UptoMore(v: Vol, a: nat, k: nat)
    requires a in v.inodes && k < BLOCKS
    ensures |Entered(Upto(v, a, k + 1))| == |Entered(Upto(v, a, k))| + |Entered(Here(v, a, k))|
  {
    hide Entered, Here;
    LiveAppend(Upto(v, a, k), Here(v, a, k));
  }

  lemma MissingBlock(v: Vol, a: nat, k: nat)
    requires a in v.inodes && k < BLOCKS && Block(v, a, k) == 0
    ensures Entered(Here(v, a, k)) == []
  {
  }

  lemma PresentBlock(v: Vol, a: nat, k: nat)
    requires a in v.inodes && k < BLOCKS && Block(v, a, k) != 0
    ensures Here(v, a, k) == SlotsOf(Read(v.disk, Block(v, a, k)))
  {
  }

  lemma HitIs(v: Vol, a: nat, k: nat, i: nat, pos: nat)
    requires a in v.inodes && k < BLOCKS && i < |Here(v, a, k)| && Here(v, a, k)[i].kind != Unknown
    requires pos == ENTRY * (|Entered(Upto(v, a, k))| + |Entered(Here(v, a, k)[..i])|)
    ensures pos / ENTRY < |Listing(v, a)| && Listing(v, a)[pos / ENTRY] == Here(v, a, k)[i]
  {
    hide Block, Here, Upto, From, Entered, Listing;
    var l := Here(v, a, k);
    ListingSplit(v, a, k);
    LiveSplit(l, i);
    Middle(Entered(Upto(v, a, k)), Entered(l[..i]), l[i], Entered(l[i + 1..]), Entered(From(v, a, k + 1)));
    assert pos / ENTRY == |Entered(Upto(v, a, k))| + |Entered(l[..i])|;
  }

  lemma AllSeen(v: Vol, a: nat, n: nat)
    requires a in v.inodes && (n == BLOCKS || (n == DIRECT && v.inodes[a].sectors[12] == 0))
    ensures Listing(v, a) == Entered(Upto(v, a, n))
  {
    hide Entered, Here;
    Splits(v, a, n);
    NoneAfter(v, a, n);
    assert Upto(v, a, n) + [] == Upto(v, a, n);
  }

  lemma {:induction false} NoneAfter(v: Vol, a: nat, k: nat)
    requires a in v.inodes && DIRECT <= k <= BLOCKS && (k == BLOCKS || v.inodes[a].sectors[12] == 0)
    ensures From(v, a, k) == []
    decreases BLOCKS - k
  {
    if k < BLOCKS { NoneAfter(v, a, k + 1); }
  }

  /** What k successive calls return, the first one at position pos. */
  ghost function Calls(v: Vol, a: nat, pos: nat, k: nat): (rs: seq<Option<Entry>>)
    requires a in v.inodes
    ensures |rs| == k
    decreases k
  {
    if k == 0 then []
    else
      var r := ReadAt(v, a, pos);
      [r] + Calls(v, a, if r.Some? then pos + ENTRY else pos, k - 1)
  }

  lemma {:induction false} CallsFrom(v: Vol, a: nat, n: nat, k: nat)
    requires a in v.inodes && v.inodes[a].size == ENTRY * |Listing(v, a)|
    ensures forall i :: 0 <= i < k ==>
              Calls(v, a, ENTRY * n, k)[i] == if n + i < |Listing(v, a)| then Some(Listing(v, a)[n + i]) else None
    decreases k
  {
    hide Listing;
    if k > 0 {
      Position(n, |Listing(v, a)|);
      var m := if n < |Listing(v, a)| then n + 1 else n;
      CallsFrom(v, a, m, k - 1);
      assert Calls(v, a, ENTRY * n, k) == [ReadAt(v, a, ENTRY * n)] + Calls(v, a, ENTRY * m, k - 1);
      forall i | 0 < i < k
        ensures Calls(v, a, ENTRY * n, k)[i] == if n + i < |Listing(v, a)| then Some(Listing(v, a)[n + i]) else None
      {
        assert Calls(v, a, ENTRY * n, k)[i] == Calls(v, a, ENTRY * m, k - 1)[i - 1];
      }
    }
  }

  lemma Position(n: nat, m: nat)
    ensures ENTRY * n / ENTRY == n && (ENTRY * n >= ENTRY * m <==> n >= m)
  {
  }

  /** From position 0, successive dir_read calls return every live entry exactly once, in block and
      slot order, and then NULL for ever: the first NULL comes after exactly i_size / 24 entries. */
  lemma EnumeratesAll(v: Vol, a: nat, k: nat)
    requires DirOk(v, a)
    ensures forall i :: 0 <= i < k ==> Calls(v, a, 0, k)[i] == if i < |Listing(v, a)| then Some(Listing(v, a)[i]) else None
    ensures |Listing(v, a)| == v.inodes[a].size / ENTRY
  {
    hide Listing, Calls, DotsOk, CleanOk, NoIdleBlock, ListOk, Block;
    CallsFrom(v, a, 0, k);
    Position(|Listing(v, a)|, 0);
    assert ENTRY * 0 == 0;
    forall i | 0 <= i < k
      ensures Calls(v, a, 0, k)[i] == if i < |Listing(v, a)| then Some(Listing(v, a)[i]) else None
    {
      assert 0 + i == i;
    }
  }
}
