/** Every sys_malloc and sys_free keeps the heap invariant, and the invariant keeps all the
    memory that is in use for different purposes apart. */
module HeapProof {
  import opened Basics
  import opened HeapModel

  // --------------------------------------------------------------------- counting

  lemma {:induction false} CountSame(l: seq<nat>, m: seq<nat>, a: nat, d: nat, k: nat)
    requires d < DESCS && forall i :: 0 <= i < k ==> (BlockAddr(a, d, i) in l <==> BlockAddr(a, d, i) in m)
    ensures CountFree(l, a, d, k) == CountFree(m, a, d, k)
  {
    if k > 0 { CountSame(l, m, a, d, k - 1); }
  }

  /** `m` has block j of arena a in addition to what `l` has. */
  lemma {:induction false} CountOneMore(l: seq<nat>, m: seq<nat>, a: nat, d: nat, k: nat, j: nat)
    requires d < DESCS && j < k && BlockAddr(a, d, j) !in l && BlockAddr(a, d, j) in m
    requires forall i :: 0 <= i < k && i != j ==> (BlockAddr(a, d, i) in l <==> BlockAddr(a, d, i) in m)
    ensures CountFree(m, a, d, k) == CountFree(l, a, d, k) + 1
  {
    if j < k - 1 { CountOneMore(l, m, a, d, k - 1, j); } else { CountSame(l, m, a, d, k - 1); }
  }

  lemma {:induction false} CountAll(l: seq<nat>, a: nat, d: nat, k: nat)
    requires d < DESCS && forall i :: 0 <= i < k ==> BlockAddr(a, d, i) in l
    ensures CountFree(l, a, d, k) == k
  {
    if k > 0 { CountAll(l, a, d, k - 1); }
  }

  lemma {:induction false} CountFull(l: seq<nat>, a: nat, d: nat, k: nat, i: nat)
    requires d < DESCS && i < k && CountFree(l, a, d, k) == k
    ensures BlockAddr(a, d, i) in l
  {
    if i < k - 1 { CountFull(l, a, d, k - 1, i); }
  }

  // ----------------------------------------------------------------- large blocks

  lemma NotYours(h: Heap, a: nat, n: nat)
    requires ArenasOk(h) && FreshPages(h, a, n) && n > 0
    ensures a !in h.arenas
  {
  }

  lemma LargeRoom(a: nat, size: nat)
    ensures ArenaOf(LargePtr(a)) == a && LargePages(size) > 0
    ensures size > 1024 ==> Snug(Large(LargePages(size)), size)
  {
  }

  lemma AddLargeArenas(h: Heap, a: nat, size: nat)
    requires ArenasOk(h) && FreshPages(h, a, LargePages(size)) && a !in h.arenas && LargePages(size) > 0
    ensures ArenasOk(AddLarge(h, a, size))
  {
  }

  lemma AddLargeBlocks(h: Heap, a: nat, size: nat)
    requires BlocksOk(h) && a !in h.arenas && size > 1024
    ensures BlocksOk(AddLarge(h, a, size))
  {
    hide BlockShaped, ArenaOf, LargePages, LargePtr, BlockSize, IsBlock, LiveOk, LivesOk;
    LargeRoom(a, size);
    AddLargeSame(h, a, size);
    AddLargeLives(h, a, size);
  }

  lemma AddLargeSame(h: Heap, a: nat, size: nat)
    requires a !in h.arenas && ArenaOf(LargePtr(a)) == a
    ensures var h1 := AddLarge(h, a, size);
            forall p: nat :: (IsBlock(h1, p) <==> IsBlock(h, p)) && (IsBlock(h, p) ==> ArenaOf(p) != a && h1.arenas[ArenaOf(p)] == h.arenas[ArenaOf(p)] && p != LargePtr(a))
  {
  }

  lemma AddLargeLives(h: Heap, a: nat, size: nat)
    requires LivesOk(h) && a !in h.arenas && size > 1024
    ensures LivesOk(AddLarge(h, a, size))
  {
  }

  lemma DropLargeArenas(h: Heap, a: nat)
    requires ArenasOk(h) && a in h.arenas
    ensures ArenasOk(DropLarge(h, a))
  {
    hide CountFree, PerArena, LargePtr;
    var h1 := DropLarge(h, a);
    forall b | b in h1.arenas && h1.arenas[b].Large? ensures LargePtr(b) in h1.live {
      LargeRoom(a, 0);
      LargeRoom(b, 0);
    }
  }

  lemma DropLargeBlocks(h: Heap, a: nat)
    requires BlocksOk(h) && a in h.arenas && h.arenas[a].Large?
    ensures BlocksOk(DropLarge(h, a))
  {
    hide Snug, BlockShaped;
  }

  // ------------------------------------------------------------------- refilling

  lemma {:induction false} BlocksAre(a: nat, d: nat, k: nat)
    requires d < DESCS
    ensures |Blocks(a, d, k)| == k && forall i :: 0 <= i < k ==> Blocks(a, d, k)[i] == BlockAddr(a, d, i)
  {
    if k > 0 { BlocksAre(a, d, k - 1); }
  }

  /** The new arena's blocks are distinct and are exactly the block-shaped addresses of its page. */
  lemma BlocksExact(a: nat, d: nat)
    requires d < DESCS
    ensures Distinct(Blocks(a, d, PerArena(d)))
    ensures forall p :: p in Blocks(a, d, PerArena(d)) <==> ArenaOf(p) == a && BlockShaped(p, d)
    ensures PerArena(d) > 0 && Blocks(a, d, PerArena(d)) != []
  {
    var n, l := PerArena(d), Blocks(a, d, PerArena(d));
    BlocksAre(a, d, n);
    Sizes(d);
    forall i, j | 0 <= i < j < n ensures l[i] != l[j] {
      BlocksApart(a, d, i, j);
    }
    forall p ensures p in l <==> ArenaOf(p) == a && BlockShaped(p, d) {
      if p in l {
        var i :| 0 <= i < n && l[i] == p;
        BlockIsShaped(a, d, i);
      }
    }
  }

  /** A new small arena at a page without one: what becomes a block. */
  lemma NewBlocks(h: Heap, h1: Heap, a: nat, d: nat, cnt: nat)
    requires a !in h.arenas && h1.arenas == h.arenas[a := Small(d, cnt)]
    ensures forall p: nat :: IsBlock(h1, p) <==> IsBlock(h, p) || (ArenaOf(p) == a && BlockShaped(p, d))
    ensures forall p: nat :: IsBlock(h, p) ==> ArenaOf(p) != a && h1.arenas[ArenaOf(p)] == h.arenas[ArenaOf(p)]
    ensures forall p: nat :: IsBlock(h1, p) ==> ArenaOf(p) in h1.arenas && h1.arenas[ArenaOf(p)].Small? && h1.arenas[ArenaOf(p)].desc < DESCS
  {
  }

  lemma RefillBlocks(h: Heap, a: nat, d: nat)
    requires BlocksOk(h) && a !in h.arenas && d < DESCS && h.free[d] == []
    ensures BlocksOk(Refill(h, a, d))
  {
    hide CoverOk, LivesOk, PerArena, Blocks, IsBlock, ArenaOf, Distinct;
    RefillLives(h, a, d);
    RefillFree(h, a, d);
    RefillCover(h, a, d);
  }

  lemma RefillFree(h: Heap, a: nat, d: nat)
    requires FreeOk(h) && a !in h.arenas && d < DESCS && h.free[d] == [] && forall p :: p in h.live ==> ArenaOf(p) != a
    ensures FreeOk(Refill(h, a, d))
  {
    hide BlockShaped, ArenaOf, IsBlock, PerArena, Blocks;
    BlocksExact(a, d);
    var h1 := Refill(h, a, d);
    assert h1.free[d] == Blocks(a, d, PerArena(d));
    NewBlocks(h, h1, a, d, PerArena(d));
  }

  lemma RefillCover(h: Heap, a: nat, d: nat)
    requires CoverOk(h) && a !in h.arenas && d < DESCS && h.free[d] == []
    ensures CoverOk(Refill(h, a, d))
  {
    hide BlockShaped, ArenaOf, IsBlock, PerArena, Blocks;
    BlocksExact(a, d);
    var h1 := Refill(h, a, d);
    assert h1.free[d] == Blocks(a, d, PerArena(d));
    NewBlocks(h, h1, a, d, PerArena(d));
    forall p: nat | IsBlock(h1, p) ensures p in h1.free[h1.arenas[ArenaOf(p)].desc] || p in h1.live {
      if IsBlock(h, p) { assert h1.arenas[ArenaOf(p)] == h.arenas[ArenaOf(p)]; } else { assert p in Blocks(a, d, PerArena(d)); }
    }
  }

  lemma RefillLives(h: Heap, a: nat, d: nat)
    requires LivesOk(h) && a !in h.arenas && d < DESCS && |h.free| == DESCS
    ensures LivesOk(Refill(h, a, d)) && forall p :: p in h.live ==> ArenaOf(p) != a
  {
  }

  lemma RefillArenas(h: Heap, a: nat, d: nat)
    requires ArenasOk(h) && FreshPages(h, a, 1) && a !in h.arenas && d < DESCS && h.free[d] == []
    ensures ArenasOk(Refill(h, a, d))
  {
    hide CountFree, PerArena, Blocks, BlockAddr, LargePtr, AllApart;
    var h1 := Refill(h, a, d);
    RefillApart(h, a, d);
    RefillOwnCount(h, a, d);
    forall b | b in h.arenas && h.arenas[b].Small?
      ensures var e := h.arenas[b].desc; h.arenas[b].cnt == CountFree(h1.free[e], b, e, PerArena(e))
    {
      RefillCount(h, a, d, b);
    }
  }

  lemma RefillApart(h: Heap, a: nat, d: nat)
    requires AllApart(h.arenas) && FreshPages(h, a, 1) && a !in h.arenas
    ensures forall n: nat :: AllApart(h.arenas[a := Small(d, n)])
  {
  }

  /** In the new arena every block is free. */
  lemma RefillOwnCount(h: Heap, a: nat, d: nat)
    requires |h.free| == DESCS && d < DESCS && h.free[d] == []
    ensures CountFree(Refill(h, a, d).free[d], a, d, PerArena(d)) == PerArena(d)
  {
    hide CountFree, PerArena, Blocks, BlockAddr, BlockShaped, ArenaOf;
    var l := Refill(h, a, d).free[d];
    BlocksExact(a, d);
    forall i | 0 <= i < PerArena(d) ensures BlockAddr(a, d, i) in l { BlockIsShaped(a, d, i); }
    CountAll(l, a, d, PerArena(d));
  }

  /** A new arena does not change the count of another one. */
  lemma RefillCount(h: Heap, a: nat, d: nat, b: nat)
    requires ArenasOk(h) && b != a && b in h.arenas && h.arenas[b].Small? && d < DESCS && h.free[d] == []
    ensures var e := h.arenas[b].desc; h.arenas[b].cnt == CountFree(Refill(h, a, d).free[e], b, e, PerArena(e))
  {
    hide CountFree, PerArena, Blocks, BlockAddr, BlockShaped, ArenaOf;
    var e, h1 := h.arenas[b].desc, Refill(h, a, d);
    BlocksExact(a, d);
    forall i | 0 <= i < PerArena(e) ensures BlockAddr(b, e, i) in h1.free[e] <==> BlockAddr(b, e, i) in h.free[e] {
      BlockIsShaped(b, e, i);
    }
    CountSame(h.free[e], h1.free[e], b, e, PerArena(e));
  }

  // ------------------------------------------------------- taking and giving a block

  /** Changing a small arena's count moves no block. */
  lemma SameBlocks(h: Heap, h1: Heap, a: nat, cnt: nat)
    requires a in h.arenas && h.arenas[a].Small? && h1.arenas == h.arenas[a := h.arenas[a].(cnt := cnt)]
    ensures forall p: nat :: IsBlock(h1, p) <==> IsBlock(h, p)
    ensures forall p: nat :: IsBlock(h, p) ==> h1.arenas[ArenaOf(p)].desc == h.arenas[ArenaOf(p)].desc
  {
  }

  lemma SameApart(m: map<nat, Arena>, a: nat, cnt: nat)
    requires AllApart(m) && a in m && m[a].Small?
    ensures AllApart(m[a := m[a].(cnt := cnt)])
  {
  }

  lemma SameLives(h: Heap, h1: Heap, a: nat, cnt: nat)
    requires a in h.arenas && h.arenas[a].Small? && h1.arenas == h.arenas[a := h.arenas[a].(cnt := cnt)]
    ensures forall p :: p in h.live && p in h1.live && h1.live[p] == h.live[p] && LiveOk(h, p) ==> LiveOk(h1, p)
  {
  }

  lemma PopBlocks(h: Heap, d: nat, size: nat)
    requires BlocksOk(h) && PopOk(h, d) && 0 < size && Snug(Small(d, 0), size)
    ensures BlocksOk(Pop(h, d, size))
  {
    var h1, p, l := Pop(h, d, size), h.free[d][0], h.free[d];
    var a := ArenaOf(p);
    assert p in l && l == [p] + l[1..];
    SameBlocks(h, h1, a, h1.arenas[a].cnt);
    SameLives(h, h1, a, h1.arenas[a].cnt);
    assert LiveOk(h1, p);
    hide BlockShaped, ArenaOf, IsBlock, LiveOk, BlockSize;
    forall i, j | 0 <= i < j < |h1.free[d]| ensures h1.free[d][i] != h1.free[d][j] {
      assert h1.free[d][i] == l[i + 1] && h1.free[d][j] == l[j + 1];
    }
    forall x | x in h1.free[d] ensures x in l && x != p {
      var i :| 0 <= i < |h1.free[d]| && h1.free[d][i] == x;
      assert l[i + 1] == x;
    }
  }

  lemma PushBlocks(h: Heap, p: nat)
    requires BlocksOk(h) && p in h.live && IsBlock(h, p)
    ensures BlocksOk(Push(h, p))
  {
    var h1, a := Push(h, p), ArenaOf(p);
    var d := h.arenas[a].desc;
    SameBlocks(h, h1, a, h1.arenas[a].cnt);
    SameLives(h, h1, a, h1.arenas[a].cnt);
    hide BlockShaped, ArenaOf, IsBlock, LiveOk, BlockSize;
    assert p !in h.free[d];
  }

  /** Arena a's list of descriptor d gains (or loses) exactly block p. */
  lemma CountChanges(h: Heap, less: seq<nat>, more: seq<nat>, p: nat, b: nat)
    requires IsBlock(h, p) && b in h.arenas && h.arenas[b].Small? && h.arenas[b].desc == h.arenas[ArenaOf(p)].desc
    requires p !in less && p in more && forall x :: x != p ==> (x in less <==> x in more)
    ensures var d := h.arenas[b].desc;
            CountFree(more, b, d, PerArena(d)) == CountFree(less, b, d, PerArena(d)) + if b == ArenaOf(p) then 1 else 0
  {
    var d := h.arenas[b].desc;
    var n := PerArena(d);
    if b == ArenaOf(p) {
      var j: nat :| j < n && p == BlockAddr(b, d, j);
      forall i | 0 <= i < n && i != j ensures BlockAddr(b, d, i) != p {
        if i < j { BlocksApart(b, d, i, j); } else { BlocksApart(b, d, j, i); }
      }
      CountOneMore(less, more, b, d, n, j);
    } else {
      forall i | 0 <= i < n ensures BlockAddr(b, d, i) != p { BlockIsShaped(b, d, i); }
      CountSame(less, more, b, d, n);
    }
  }

  lemma PopArenas(h: Heap, d: nat, size: nat)
    requires ArenasOk(h) && FreeOk(h) && PopOk(h, d)
    ensures ArenasOk(Pop(h, d, size)) && h.arenas[ArenaOf(h.free[d][0])].cnt > 0
  {
    var h1, p, l := Pop(h, d, size), h.free[d][0], h.free[d];
    assert p in l && l == [p] + l[1..] && p !in l[1..];
    forall b | b in h.arenas && h.arenas[b].Small? && h.arenas[b].desc == d
      ensures CountFree(l, b, d, PerArena(d)) == CountFree(l[1..], b, d, PerArena(d)) + if b == ArenaOf(p) then 1 else 0
    {
      CountChanges(h, l[1..], l, p, b);
    }
    SameApart(h.arenas, ArenaOf(p), h1.arenas[ArenaOf(p)].cnt);
    hide CountFree, PerArena, LargePtr, IsBlock, ArenaOf, Apart;
  }

  lemma PushArenas(h: Heap, p: nat)
    requires ArenasOk(h) && FreeOk(h) && IsBlock(h, p) && p in h.live
    ensures ArenasOk(Push(h, p))
  {
    var h1, d := Push(h, p), h.arenas[ArenaOf(p)].desc;
    var l := h.free[d];
    assert p !in l;
    forall b | b in h.arenas && h.arenas[b].Small? && h.arenas[b].desc == d
      ensures CountFree(l + [p], b, d, PerArena(d)) == CountFree(l, b, d, PerArena(d)) + if b == ArenaOf(p) then 1 else 0
    {
      CountChanges(h, l, l + [p], p, b);
    }
    forall b | b in h.arenas && h.arenas[b].Large? ensures LargePtr(b) != p {
      LargeRoom(b, 0);
    }
    SameApart(h.arenas, ArenaOf(p), h1.arenas[ArenaOf(p)].cnt);
    hide CountFree, PerArena, LargePtr, IsBlock, ArenaOf, Apart;
  }

  // ---------------------------------------------------------- giving an arena back

  lemma {:induction false} RemovedIs(l: seq<nat>, x: nat)
    requires Distinct(l)
    ensures Distinct(Removed(l, x)) && forall y :: y in Removed(l, x) <==> y in l && y != x
  {
    if l != [] {
      assert l == [l[0]] + l[1..];
      forall i, j | 0 <= i < j < |l[1..]| ensures l[1..][i] != l[1..][j] {
        assert l[1..][i] == l[i + 1] && l[1..][j] == l[j + 1];
      }
      RemovedIs(l[1..], x);
      assert l[0] !in l[1..];
    }
  }

  lemma {:induction false} RemovedAllIs(l: seq<nat>, a: nat, d: nat, k: nat)
    requires d < DESCS && Distinct(l)
    ensures Distinct(RemovedAll(l, a, d, k))
    ensures forall y :: y in RemovedAll(l, a, d, k) <==> y in l && forall i :: 0 <= i < k ==> y != BlockAddr(a, d, i)
  {
    if k > 0 {
      RemovedAllIs(l, a, d, k - 1);
      RemovedIs(RemovedAll(l, a, d, k - 1), BlockAddr(a, d, k - 1));
    }
  }

  /** Removing all its blocks leaves exactly the other arenas' blocks on the list. */
  lemma DropList(h: Heap, a: nat, d: nat)
    requires FreeOk(h) && d < DESCS
    ensures Distinct(RemovedAll(h.free[d], a, d, PerArena(d)))
    ensures forall p :: p in RemovedAll(h.free[d], a, d, PerArena(d)) <==> p in h.free[d] && ArenaOf(p) != a
  {
    RemovedAllIs(h.free[d], a, d, PerArena(d));
    forall p | p in h.free[d]
      ensures ArenaOf(p) == a <==> exists i :: 0 <= i < PerArena(d) && p == BlockAddr(a, d, i)
    {
      assert IsBlock(h, p);
      forall i | 0 <= i < PerArena(d) ensures ArenaOf(BlockAddr(a, d, i)) == a { BlockIsShaped(a, d, i); }
    }
  }

  /** An arena all of whose blocks are free holds nothing live. */
  lemma NothingLive(h: Heap, a: nat, p: nat)
    requires ArenasOk(h) && BlocksOk(h) && a in h.arenas && h.arenas[a].Small? && h.arenas[a].cnt == PerArena(h.arenas[a].desc)
    requires p in h.live
    ensures ArenaOf(p) != a
  {
    assert LiveOk(h, p);
    if ArenaOf(p) == a {
      var d := h.arenas[a].desc;
      var i: nat :| i < PerArena(d) && p == BlockAddr(a, d, i);
      CountFull(h.free[d], a, d, PerArena(d), i);
    }
  }

  lemma DropSmallBlocks(h: Heap, a: nat, d: nat)
    requires BlocksOk(h) && a in h.arenas && h.arenas[a].Small? && h.arenas[a].desc == d < DESCS
    requires forall p :: p in h.live ==> ArenaOf(p) != a
    ensures BlocksOk(DropSmall(h, a, d))
  {
    hide BlockShaped, ArenaOf, PerArena, RemovedAll, BlockSize, LargePtr, IsBlock, LiveOk;
    var h1 := DropSmall(h, a, d);
    DropList(h, a, d);
    DropSmallLives(h, a, d);
    FewerBlocks(h, h1, a);
    forall p: nat | IsBlock(h1, p) ensures p in h1.free[h1.arenas[ArenaOf(p)].desc] || p in h1.live {
      assert IsBlock(h, p);
    }
  }

  lemma FewerBlocks(h: Heap, h1: Heap, a: nat)
    requires h1.arenas == h.arenas - {a}
    ensures forall p: nat :: IsBlock(h1, p) <==> IsBlock(h, p) && ArenaOf(p) != a
    ensures forall p: nat :: IsBlock(h, p) ==> ArenaOf(p) in h.arenas && h.arenas[ArenaOf(p)].Small? && h.arenas[ArenaOf(p)].desc < DESCS
    ensures forall p: nat :: IsBlock(h1, p) ==> ArenaOf(p) in h1.arenas && h1.arenas[ArenaOf(p)] == h.arenas[ArenaOf(p)]
  {
  }

  lemma DropSmallLives(h: Heap, a: nat, d: nat)
    requires LivesOk(h) && |h.free| == DESCS && d < DESCS && forall p :: p in h.live ==> ArenaOf(p) != a
    ensures LivesOk(DropSmall(h, a, d))
  {
  }

  lemma DropSmallArenas(h: Heap, a: nat, d: nat)
    requires ArenasOk(h) && FreeOk(h) && a in h.arenas && h.arenas[a].Small? && h.arenas[a].desc == d < DESCS
    ensures ArenasOk(DropSmall(h, a, d))
  {
    var h1 := DropSmall(h, a, d);
    DropList(h, a, d);
    forall b | b in h1.arenas && h1.arenas[b].Small? && h1.arenas[b].desc == d
      ensures CountFree(h1.free[d], b, d, PerArena(d)) == CountFree(h.free[d], b, d, PerArena(d))
    {
      forall i | 0 <= i < PerArena(d) ensures ArenaOf(BlockAddr(b, d, i)) == b { BlockIsShaped(b, d, i); }
      CountSame(h1.free[d], h.free[d], b, d, PerArena(d));
    }
    hide CountFree, PerArena, LargePtr, RemovedAll, ArenaOf;
  }

  // ------------------------------------------------------------------- the calls

  /** sys_malloc keeps the heap invariant. */
  lemma MallocKeeps(h: Heap, h1: Heap, size: nat, p: nat, a: nat)
    requires HeapInv(h) && Malloced(h, h1, size, p, a)
    ensures HeapInv(h1) && p in h1.live && h1.live[p] == size && p !in h.live
    ensures h1.live == h.live[p := size]
  {
    if size > 1024 {
      MallocLarge(h, size, a);
    } else if h.free[DescOf(size)] != [] {
      PopKeeps(h, DescOf(size), size);
    } else {
      MallocRefill(h, size, a);
    }
  }

  lemma DescSnug(size: nat)
    requires size <= 1024
    ensures Snug(Small(DescOf(size), 0), size) && DescOf(size) < DESCS
  {
    DescFits(size);
  }

  lemma MallocLarge(h: Heap, size: nat, a: nat)
    requires HeapInv(h) && size > 1024 && FreshPages(h, a, LargePages(size))
    ensures HeapInv(AddLarge(h, a, size)) && LargePtr(a) !in h.live
  {
    LargeRoom(a, size);
    NotYours(h, a, LargePages(size));
    AddLargeArenas(h, a, size);
    AddLargeBlocks(h, a, size);
    forall q | q in h.live ensures ArenaOf(q) != a { assert LiveOk(h, q); }
  }

  lemma PopKeeps(h: Heap, d: nat, size: nat)
    requires HeapInv(h) && PopOk(h, d) && d == DescOf(size) && 0 < size <= 1024
    ensures HeapInv(Pop(h, d, size)) && h.free[d][0] !in h.live
  {
    DescFits(size);
    PopBlocks(h, d, size);
    PopArenas(h, d, size);
    assert h.free[d][0] in h.free[d];
  }

  lemma MallocRefill(h: Heap, size: nat, a: nat)
    requires HeapInv(h) && 0 < size <= 1024 && h.free[DescOf(size)] == [] && FreshPages(h, a, 1)
    requires PopOk(Refill(h, a, DescOf(size)), DescOf(size))
    ensures var h1, d := Refill(h, a, DescOf(size)), DescOf(size);
            HeapInv(Pop(h1, d, size)) && h1.free[d][0] !in h.live
  {
    hide BlockAddr, BlockSize, BlockShaped, IsBlock, CountFree, Snug, LivesOk, LiveOk, LargePtr, Blocks, FreshPages, DescOf;
    DescSnug(size);
    var d := DescOf(size);
    var h1 := Refill(h, a, d);
    DescFits(size);
    NotYours(h, a, 1);
    RefillBlocks(h, a, d);
    RefillArenas(h, a, d);
    PopBlocks(h1, d, size);
    PopArenas(h1, d, size);
    BlocksExact(a, d);
    assert h1.free[d] == Blocks(a, d, PerArena(d));
    assert h1.free[d][0] in h1.free[d] && ArenaOf(h1.free[d][0]) == a;
  }

  /** sys_free of a live pointer keeps the heap invariant. */
  lemma FreeKeeps(h: Heap, h1: Heap, p: nat)
    requires HeapInv(h) && Freed(h, h1, p)
    ensures HeapInv(h1) && h1.live == h.live - {p}
  {
    assert LiveOk(h, p);
    var a := ArenaOf(p);
    if h.arenas[a].Large? {
      DropLargeArenas(h, a);
      DropLargeBlocks(h, a);
    } else {
      FreeSmall(h, p);
    }
  }

  lemma FreeSmall(h: Heap, p: nat)
    requires HeapInv(h) && p in h.live && IsBlock(h, p)
    ensures var a := ArenaOf(p); var d := h.arenas[a].desc;
            HeapInv(if h.arenas[a].cnt + 1 == PerArena(d) then DropSmall(Push(h, p), a, d) else Push(h, p))
  {
    var a := ArenaOf(p);
    var d, h1 := h.arenas[a].desc, Push(h, p);
    PushBlocks(h, p);
    PushArenas(h, p);
    if h.arenas[a].cnt + 1 == PerArena(d) {
      forall q | q in h1.live ensures ArenaOf(q) != a { NothingLive(h1, a, q); }
      DropSmallBlocks(h1, a, d);
      DropSmallArenas(h1, a, d);
    }
  }

  // --------------------------------------------------------------- what it is for

  /** The bytes a live pointer may use. */
  function Room(h: Heap, p: nat): int
    requires ArenaOf(p) in h.arenas && (h.arenas[ArenaOf(p)].Small? ==> h.arenas[ArenaOf(p)].desc < DESCS)
  {
    match h.arenas[ArenaOf(p)]
    case Small(d, _) => BlockSize(d)
    case Large(n) => n * 4096 - HEADER
  }

  predicate Disjoint(p: int, n: int, q: int, m: int) {
    p + n <= q || q + m <= p
  }

  /** No byte serves two purposes. */
  ghost predicate NoOverlap(h: Heap) {
    && (forall p :: p in h.live ==> Homed(h, p) && h.live[p] <= Room(h, p))
    && (forall p, q :: p in h.live && q in h.live && p != q ==> Homed(h, p) && Homed(h, q) && Disjoint(p, Room(h, p), q, Room(h, q)))
    && (forall p, a: nat :: p in h.live && a in h.arenas ==> Homed(h, p) && Disjoint(p, Room(h, p), a * 4096, HEADER))
    && (forall p, d: nat, f: nat :: p in h.live && d < |h.free| && f in h.free[d] ==>
          Homed(h, p) && Disjoint(p, Room(h, p), f, NODE))
    && (forall a: nat, d: nat, f: nat :: a in h.arenas && d < |h.free| && f in h.free[d] ==> Disjoint(a * 4096, HEADER, f, NODE))
  }

  predicate Homed(h: Heap, p: nat) {
    ArenaOf(p) in h.arenas && (h.arenas[ArenaOf(p)].Small? ==> h.arenas[ArenaOf(p)].desc < DESCS)
  }

  lemma LiveInside(h: Heap, p: nat)
    requires LivesOk(h) && p in h.live
    ensures Homed(h, p) && 0 < h.live[p] <= Room(h, p)
    ensures var a := ArenaOf(p); a * 4096 + HEADER <= p && p + Room(h, p) <= (a + Span(h.arenas[a])) * 4096
  {
    assert LiveOk(h, p);
    var a := ArenaOf(p);
    if h.arenas[a].Small? {
      var d := h.arenas[a].desc;
      var i: nat :| i < PerArena(d) && p == BlockAddr(a, d, i);
      BlockFits(a, d, i);
    }
  }

  lemma FreeInside(h: Heap, d: nat, f: nat)
    requires FreeOk(h) && d < DESCS && f in h.free[d]
    ensures Homed(h, f) && h.arenas[ArenaOf(f)].Small? && BlockSize(d) >= 16 && h.arenas[ArenaOf(f)].desc == d
    ensures ArenaOf(f) * 4096 + HEADER <= f && f + BlockSize(d) <= (ArenaOf(f) + 1) * 4096
  {
    assert IsBlock(h, f);
    var i: nat :| i < PerArena(d) && f == BlockAddr(ArenaOf(f), d, i);
    BlockFits(ArenaOf(f), d, i);
  }

  lemma SpansApart(h: Heap, a: nat, b: nat)
    requires AllApart(h.arenas) && a in h.arenas && b in h.arenas && a != b
    ensures (a + Span(h.arenas[a])) * 4096 <= b * 4096 || (b + Span(h.arenas[b])) * 4096 <= a * 4096
  {
  }

  /** Two blocks of one small arena do not overlap. */
  lemma SameArenaApart(h: Heap, p: nat, q: nat)
    requires IsBlock(h, p) && IsBlock(h, q) && ArenaOf(p) == ArenaOf(q) && p != q
    ensures var n := BlockSize(h.arenas[ArenaOf(p)].desc); Disjoint(p, n, q, n)
  {
    var a := ArenaOf(p);
    var d := h.arenas[a].desc;
    var i: nat :| i < PerArena(d) && p == BlockAddr(a, d, i);
    var j: nat :| j < PerArena(d) && q == BlockAddr(a, d, j);
    if i < j { BlocksApart(a, d, i, j); } else { BlocksApart(a, d, j, i); }
  }

  lemma LivesApart(h: Heap, p: nat, q: nat)
    requires HeapInv(h) && p in h.live && q in h.live && p != q
    ensures Homed(h, p) && Homed(h, q) && Disjoint(p, Room(h, p), q, Room(h, q))
  {
    LiveInside(h, p);
    LiveInside(h, q);
    if ArenaOf(p) != ArenaOf(q) {
      SpansApart(h, ArenaOf(p), ArenaOf(q));
    } else {
      assert LiveOk(h, p) && LiveOk(h, q);
      SameArenaApart(h, p, q);
    }
  }

  lemma LiveOffHeader(h: Heap, p: nat, a: nat)
    requires HeapInv(h) && p in h.live && a in h.arenas
    ensures Homed(h, p) && Disjoint(p, Room(h, p), a * 4096, HEADER)
  {
    LiveInside(h, p);
    if a != ArenaOf(p) {
      SpansApart(h, a, ArenaOf(p));
      assert Span(h.arenas[a]) > 0;
    }
  }

  lemma LiveOffFree(h: Heap, p: nat, d: nat, f: nat)
    requires HeapInv(h) && p in h.live && d < DESCS && f in h.free[d]
    ensures Homed(h, p) && Disjoint(p, Room(h, p), f, NODE)
  {
    LiveInside(h, p);
    FreeInside(h, d, f);
    if ArenaOf(p) != ArenaOf(f) {
      SpansApart(h, ArenaOf(p), ArenaOf(f));
    } else {
      assert LiveOk(h, p) && IsBlock(h, f);
      SameArenaApart(h, p, f);
    }
  }

  lemma FreeOffHeader(h: Heap, a: nat, d: nat, f: nat)
    requires HeapInv(h) && a in h.arenas && d < DESCS && f in h.free[d]
    ensures Disjoint(a * 4096, HEADER, f, NODE)
  {
    FreeInside(h, d, f);
    if a != ArenaOf(f) {
      SpansApart(h, a, ArenaOf(f));
      assert Span(h.arenas[a]) > 0;
    }
  }

  lemma InvApart(h: Heap)
    requires HeapInv(h)
    ensures NoOverlap(h)
  {
    hide Room, Disjoint, CountFree, IsBlock, LiveOk, LargePtr, PerArena, AllApart, ArenaOf;
    forall p | p in h.live ensures Homed(h, p) && h.live[p] <= Room(h, p) { LiveInside(h, p); }
    forall p, q | p in h.live && q in h.live && p != q
      ensures Homed(h, p) && Homed(h, q) && Disjoint(p, Room(h, p), q, Room(h, q)) { LivesApart(h, p, q); }
    forall p, a: nat | p in h.live && a in h.arenas
      ensures Homed(h, p) && Disjoint(p, Room(h, p), a * 4096, HEADER) { LiveOffHeader(h, p, a); }
    forall p, d: nat, f: nat | p in h.live && d < |h.free| && f in h.free[d]
      ensures Homed(h, p) && Disjoint(p, Room(h, p), f, NODE) { LiveOffFree(h, p, d, f); }
    forall a: nat, d: nat, f: nat | a in h.arenas && d < |h.free| && f in h.free[d]
      ensures Disjoint(a * 4096, HEADER, f, NODE) { FreeOffHeader(h, a, d, f); }
  }

  // ----------------------------------------------------------------------- runs

  /** block_desc_init: seven empty free lists. */
  function EmptyHeap(): Heap { Heap(map[], seq(DESCS, _ => []), map[]) }

  datatype Call = Malloc(size: nat, p: nat, page: nat) | Free(p: nat)

  ghost predicate Called(h: Heap, h1: Heap, c: Call) {
    match c
    case Malloc(size, p, a) => Malloced(h, h1, size, p, a)
    case Free(p) => Freed(h, h1, p)
  }

  ghost predicate HeapRun(hs: seq<Heap>, cs: seq<Call>) {
    && |hs| == |cs| + 1 && hs[0] == EmptyHeap()
    && forall i :: 0 <= i < |cs| ==> Called(hs[i], hs[i + 1], cs[i])
  }

  lemma EmptyOk()
    ensures HeapInv(EmptyHeap())
  {
  }

  lemma {:induction false} RunKeepsHeap(hs: seq<Heap>, cs: seq<Call>, n: nat)
    requires HeapRun(hs, cs) && n <= |cs|
    ensures HeapInv(hs[n])
  {
    hide HeapInv, Malloced, Freed;
    if n == 0 {
      EmptyOk();
    } else {
      RunKeepsHeap(hs, cs, n - 1);
      var h, h1 := hs[n - 1], hs[n];
      assert Called(h, h1, cs[n - 1]);
      match cs[n - 1]
      case Malloc(size, p, a) => MallocKeeps(h, h1, size, p, a);
      case Free(p) => FreeKeeps(h, h1, p);
    }
  }

  /** The free lists are queues.  While a class's list lasts, successive requests of the class
      get its blocks in list order. */
  lemma {:induction false} ListOrder(hs: seq<Heap>, cs: seq<Call>, d: nat, k: nat)
    requires k <= |cs| < |hs| && d < DESCS && |hs[0].free| == DESCS && k <= |hs[0].free[d]|
    requires forall i :: 0 <= i < |cs| ==> cs[i].Malloc? && Snug(Small(d, 0), cs[i].size) && Called(hs[i], hs[i + 1], cs[i])
    ensures |hs[k].free| == DESCS && hs[k].free[d] == hs[0].free[d][k..]
    ensures forall i :: 0 <= i < k ==> cs[i].p == hs[0].free[d][i]
  {
    if k > 0 {
      ListOrder(hs, cs, d, k - 1);
      assert Called(hs[k - 1], hs[k], cs[k - 1]);
      ClassOf(cs[k - 1].size, d);
    }
  }

  lemma ClassOf(size: nat, d: nat)
    requires d < DESCS && Snug(Small(d, 0), size)
    ensures DescOf(size) == d
  {
    Sizes(d);
    if d > 0 { Sizes(d - 1); }
  }

  /** A freed block whose arena stays is handed out again last, after all the blocks that were
      free before it. */
  lemma FreedReusedLast(h: Heap, hs: seq<Heap>, cs: seq<Call>, p: nat)
    requires |cs| < |hs| && Freed(h, hs[0], p) && h.arenas[ArenaOf(p)].Small? && ArenaOf(p) in hs[0].arenas
    requires var d := h.arenas[ArenaOf(p)].desc;
             |cs| == |h.free[d]| + 1 && forall i :: 0 <= i < |cs| ==>
               cs[i].Malloc? && Snug(Small(d, 0), cs[i].size) && Called(hs[i], hs[i + 1], cs[i])
    ensures var d := h.arenas[ArenaOf(p)].desc;
            cs[|h.free[d]|].p == p && forall i :: 0 <= i < |h.free[d]| ==> cs[i].p == h.free[d][i]
  {
    hide Snug, Malloced;
    ListOrder(hs, cs, h.arenas[ArenaOf(p)].desc, |cs|);
  }

  /** In every run of sys_malloc and sys_free that frees only live pointers: live blocks overlap
      neither one another nor an arena header nor a free-list node, and each has the smallest
      class or number of pages that the size asked for allows; the free lists hold exactly the blocks that are not live; a small arena's cnt
      is the number of its blocks on the list and stays below blocks_per_arena. */
  lemma HeapSafe(hs: seq<Heap>, cs: seq<Call>, n: nat)
    requires HeapRun(hs, cs) && n <= |cs|
    ensures NoOverlap(hs[n])
    ensures |hs[n].free| == DESCS && forall d: nat, p: nat :: d < DESCS ==>
              (p in hs[n].free[d] <==> IsBlock(hs[n], p) && hs[n].arenas[ArenaOf(p)].desc == d && p !in hs[n].live)
    ensures forall p :: p in hs[n].live ==> ArenaOf(p) in hs[n].arenas && Snug(hs[n].arenas[ArenaOf(p)], hs[n].live[p])
    ensures forall a :: a in hs[n].arenas && hs[n].arenas[a].Small? ==> var d := hs[n].arenas[a].desc;
              d < DESCS && hs[n].arenas[a].cnt == CountFree(hs[n].free[d], a, d, PerArena(d)) < PerArena(d)
  {
    RunKeepsHeap(hs, cs, n);
    InvApart(hs[n]);
    hide CountFree, PerArena, NoOverlap, BlockShaped, LiveOk;
  }
}
