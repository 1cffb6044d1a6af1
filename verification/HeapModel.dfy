/** The arena allocator of kernel/memory.c on values: what sys_malloc and sys_free do to the
    arena headers, the descriptors' free lists and the set of live blocks, and the invariant
    that keeps live blocks, headers and free-list nodes apart. */
module HeapModel {
  import opened Basics

  const HEADER: nat := 12     // sizeof(struct arena)
  const NODE: nat := 8        // sizeof(struct mem_block)
  const DESCS: nat := 7       // DESC_INT

  /** block_desc_init: 16, 32, ..., 1024 bytes. */
  function BlockSize(d: nat): (r: nat)
    requires d < DESCS
    ensures r >= 16
  {
    if d == 0 then 16 else 2 * BlockSize(d - 1)
  }

  function Quotient(x: nat, y: nat): nat
    requires y > 0
  {
    x / y
  }

  function PerArena(d: nat): nat
    requires d < DESCS
  {
    Quotient(4096 - HEADER, BlockSize(d))
  }

  /** The first descriptor whose blocks are large enough. */
  function DescOf(size: nat): nat {
    if size <= 16 then 0 else if size <= 32 then 1 else if size <= 64 then 2 else if size <= 128 then 3
    else if size <= 256 then 4 else if size <= 512 then 5 else 6
  }

  /** arena2block and block2arena; an arena is named by its page number. */
  function BlockAddr(a: nat, d: nat, i: nat): nat
    requires d < DESCS
  {
    a * 4096 + HEADER + BlockSize(d) * i
  }

  function ArenaOf(p: nat): nat { p / 4096 }

  /** The block handed out for a large arena: (void*)(ar + 1). */
  function LargePtr(a: nat): nat { a * 4096 + HEADER }

  datatype Arena = Small(desc: nat, cnt: nat) | Large(pages: nat)

  /** `live` records what the callers hold: pointer and requested size. */
  datatype Heap = Heap(arenas: map<nat, Arena>, free: seq<seq<nat>>, live: map<nat, nat>)

  // ------------------------------------------------------------------- geometry

  lemma Sizes(d: nat)
    requires d < DESCS
    ensures (d == 0 ==> BlockSize(d) == 16) && (d == 1 ==> BlockSize(d) == 32) && (d == 2 ==> BlockSize(d) == 64)
    ensures (d == 3 ==> BlockSize(d) == 128) && (d == 4 ==> BlockSize(d) == 256) && (d == 5 ==> BlockSize(d) == 512)
    ensures d == 6 ==> BlockSize(d) == 1024
  {
  }

  /** A block lies in its arena's page, behind the header. */
  lemma BlockFits(a: nat, d: nat, i: nat)
    requires d < DESCS && i < PerArena(d)
    ensures a * 4096 + HEADER <= BlockAddr(a, d, i) && BlockAddr(a, d, i) + BlockSize(d) <= (a + 1) * 4096
    ensures ArenaOf(BlockAddr(a, d, i)) == a && BlockSize(d) >= 16
  {
    Sizes(d);
    RoomFor(BlockSize(d), i);
  }

  lemma RoomFor(b: nat, i: nat)
    requires b == 16 || b == 32 || b == 64 || b == 128 || b == 256 || b == 512 || b == 1024
    requires i < Quotient(4096 - HEADER, b)
    ensures HEADER + b * i + b <= 4096
  {
  }

  /** The blocks of an arena lie side by side from the header on, and the page has no room for
      one more. */
  lemma BlocksTile(a: nat, d: nat, i: nat)
    requires d < DESCS
    ensures BlockAddr(a, d, 0) == a * 4096 + 12 && BlockAddr(a, d, i + 1) == BlockAddr(a, d, i) + BlockSize(d)
    ensures BlockAddr(a, d, PerArena(d)) <= (a + 1) * 4096 < BlockAddr(a, d, PerArena(d) + 1)
  {
    Sizes(d);
    NoRoomFor(BlockSize(d));
  }

  lemma NoRoomFor(b: nat)
    requires b == 16 || b == 32 || b == 64 || b == 128 || b == 256 || b == 512 || b == 1024
    ensures var n := Quotient(4096 - HEADER, b); HEADER + b * n <= 4096 < HEADER + b * (n + 1)
  {
  }

  lemma BlocksApart(a: nat, d: nat, i: nat, j: nat)
    requires d < DESCS && i < j
    ensures BlockAddr(a, d, i) + BlockSize(d) <= BlockAddr(a, d, j)
  {
  }

  lemma DescFits(size: nat)
    requires size <= 1024
    ensures DescOf(size) < DESCS && size <= BlockSize(DescOf(size))
    ensures DescOf(size) > 0 ==> BlockSize(DescOf(size) - 1) < size
  {
    Sizes(DescOf(size));
    if DescOf(size) > 0 { Sizes(DescOf(size) - 1); }
  }

  // ------------------------------------------------------------------- invariant

  function Span(x: Arena): nat {
    if x.Small? then 1 else x.pages
  }

  predicate Apart(a: nat, x: Arena, b: nat, y: Arena) {
    a + Span(x) <= b || b + Span(y) <= a
  }

  /** `p` is the address of a block of size class d in its page. */
  ghost predicate BlockShaped(p: nat, d: nat) {
    d < DESCS && exists i: nat :: i < PerArena(d) && p == BlockAddr(ArenaOf(p), d, i)
  }

  /** `p` is a block of an existing small arena. */
  ghost predicate IsBlock(h: Heap, p: nat) {
    ArenaOf(p) in h.arenas && h.arenas[ArenaOf(p)].Small? && BlockShaped(p, h.arenas[ArenaOf(p)].desc)
  }

  lemma BlockIsShaped(a: nat, d: nat, i: nat)
    requires d < DESCS && i < PerArena(d)
    ensures BlockShaped(BlockAddr(a, d, i), d) && ArenaOf(BlockAddr(a, d, i)) == a
  {
    BlockFits(a, d, i);
  }

  /** How many of the first k blocks of arena a are on `list`. */
  function CountFree(list: seq<nat>, a: nat, d: nat, k: nat): (n: nat)
    requires d < DESCS
    ensures n <= k
  {
    if k == 0 then 0
    else CountFree(list, a, d, k - 1) + if BlockAddr(a, d, k - 1) in list then 1 else 0
  }

  ghost predicate AllApart(m: map<nat, Arena>) {
    forall a, b :: a in m && b in m && a != b ==> Apart(a, m[a], b, m[b])
  }

  ghost predicate ArenasOk(h: Heap) {
    && |h.free| == DESCS
    && AllApart(h.arenas)
    && (forall a :: a in h.arenas && h.arenas[a].Small? ==>
          var d := h.arenas[a].desc; d < DESCS && h.arenas[a].cnt == CountFree(h.free[d], a, d, PerArena(d)))
    && (forall a :: a in h.arenas && h.arenas[a].Large? ==> h.arenas[a].pages > 0 && LargePtr(a) in h.live)
  }

  /** A free list has no repetition and holds only blocks of its descriptor that are not live. */
  ghost predicate FreeOk(h: Heap) {
    && |h.free| == DESCS
    && (forall d :: 0 <= d < DESCS ==> Distinct(h.free[d]))
    && (forall d: nat, p: nat :: d < DESCS && p in h.free[d] ==>
          IsBlock(h, p) && h.arenas[ArenaOf(p)].desc == d && p !in h.live)
  }

  /** Every block of every small arena is live or on its descriptor's free list. */
  ghost predicate CoverOk(h: Heap) {
    && |h.free| == DESCS
    && (forall p: nat :: IsBlock(h, p) ==> p in h.free[h.arenas[ArenaOf(p)].desc] || p in h.live)
  }

  ghost predicate LivesOk(h: Heap) {
    forall p :: p in h.live ==> LiveOk(h, p)
  }

  ghost predicate BlocksOk(h: Heap) {
    FreeOk(h) && CoverOk(h) && LivesOk(h)
  }

  /** An arena of this kind is what a request of `size` bytes calls for: up to 1024 bytes the
      smallest class with room, above that the smallest number of pages with room. */
  predicate Snug(x: Arena, size: nat) {
    match x
    case Small(d, _) => size <= 1024 && d < DESCS && size <= BlockSize(d) && (d == 0 || BlockSize(d - 1) < size)
    case Large(n) => 1024 < size && (n - 1) * 4096 < size + HEADER <= n * 4096
  }

  /** A live pointer is a block of a small arena or the start of a large one, of the right size. */
  ghost predicate LiveOk(h: Heap, p: nat)
    requires p in h.live
  {
    && ArenaOf(p) in h.arenas && h.live[p] > 0 && Snug(h.arenas[ArenaOf(p)], h.live[p])
    && if h.arenas[ArenaOf(p)].Small? then IsBlock(h, p) else p == LargePtr(ArenaOf(p))
  }

  /** Between calls no small arena is entirely free. */
  ghost predicate Tight(h: Heap) {
    forall a :: a in h.arenas && h.arenas[a].Small? && h.arenas[a].desc < DESCS ==> h.arenas[a].cnt < PerArena(h.arenas[a].desc)
  }

  ghost predicate HeapInv(h: Heap) {
    ArenasOk(h) && BlocksOk(h) && Tight(h)
  }

  // ----------------------------------------------------------------- the operations

  /** n pages from a belong to nobody. */
  ghost predicate FreshPages(h: Heap, a: nat, n: nat) {
    forall b :: b in h.arenas ==> a + n <= b || b + Span(h.arenas[b]) <= a
  }

  function LargePages(size: nat): nat { (size + HEADER + 4096 - 1) / 4096 }

  function AddLarge(h: Heap, a: nat, size: nat): Heap {
    h.(arenas := h.arenas[a := Large(LargePages(size))], live := h.live[LargePtr(a) := size])
  }

  /** All blocks of a new arena, in address order. */
  function Blocks(a: nat, d: nat, k: nat): seq<nat>
    requires d < DESCS
  {
    if k == 0 then [] else Blocks(a, d, k - 1) + [BlockAddr(a, d, k - 1)]
  }

  function Refill(h: Heap, a: nat, d: nat): Heap
    requires d < DESCS && |h.free| == DESCS
  {
    h.(arenas := h.arenas[a := Small(d, PerArena(d))], free := h.free[d := h.free[d] + Blocks(a, d, PerArena(d))])
  }

  function SetCnt(h: Heap, a: nat, cnt: int): Heap
    requires a in h.arenas && h.arenas[a].Small?
  {
    h.(arenas := h.arenas[a := h.arenas[a].(cnt := if cnt >= 0 then cnt else 0)])
  }

  function Pop(h: Heap, d: nat, size: nat): Heap
    requires d < DESCS && |h.free| == DESCS && h.free[d] != []
    requires ArenaOf(h.free[d][0]) in h.arenas && h.arenas[ArenaOf(h.free[d][0])].Small?
  {
    var p := h.free[d][0];
    SetCnt(h, ArenaOf(p), h.arenas[ArenaOf(p)].cnt - 1).(free := h.free[d := h.free[d][1..]], live := h.live[p := size])
  }

  function Push(h: Heap, p: nat): Heap
    requires |h.free| == DESCS && ArenaOf(p) in h.arenas && h.arenas[ArenaOf(p)].Small? && h.arenas[ArenaOf(p)].desc < DESCS
  {
    var a, d := ArenaOf(p), h.arenas[ArenaOf(p)].desc;
    SetCnt(h, a, h.arenas[a].cnt + 1).(free := h.free[d := h.free[d] + [p]], live := h.live - {p})
  }

  /** list_remove of x. */
  function Removed(list: seq<nat>, x: nat): seq<nat> {
    if list == [] then [] else if list[0] == x then list[1..] else [list[0]] + Removed(list[1..], x)
  }

  /** list_remove of the first k blocks of arena a, one after the other. */
  function RemovedAll(list: seq<nat>, a: nat, d: nat, k: nat): seq<nat>
    requires d < DESCS
  {
    if k == 0 then list else Removed(RemovedAll(list, a, d, k - 1), BlockAddr(a, d, k - 1))
  }

  function DropSmall(h: Heap, a: nat, d: nat): Heap
    requires d < DESCS && |h.free| == DESCS
  {
    h.(arenas := h.arenas - {a}, free := h.free[d := RemovedAll(h.free[d], a, d, PerArena(d))])
  }

  function DropLarge(h: Heap, a: nat): Heap {
    h.(arenas := h.arenas - {a}, live := h.live - {LargePtr(a)})
  }

  /** What a successful sys_malloc(size) does; `a` is where malloc_page put new pages, if any. */
  ghost predicate Malloced(h: Heap, h1: Heap, size: nat, p: nat, a: nat) {
    && |h.free| == DESCS && size > 0
    && if size > 1024 then FreshPages(h, a, LargePages(size)) && h1 == AddLarge(h, a, size) && p == LargePtr(a)
       else
         var d := DescOf(size);
         d < DESCS &&
         if h.free[d] != []
         then PopOk(h, d) && h1 == Pop(h, d, size) && p == h.free[d][0]
         else FreshPages(h, a, 1) && PopOk(Refill(h, a, d), d) && h1 == Pop(Refill(h, a, d), d, size)
              && p == Refill(h, a, d).free[d][0]
  }

  predicate PopOk(h: Heap, d: nat) {
    && d < DESCS && |h.free| == DESCS && h.free[d] != []
    && ArenaOf(h.free[d][0]) in h.arenas && h.arenas[ArenaOf(h.free[d][0])].Small?
  }

  /** What sys_free(p) does. */
  ghost predicate Freed(h: Heap, h1: Heap, p: nat) {
    && |h.free| == DESCS && p in h.live && ArenaOf(p) in h.arenas
    && match h.arenas[ArenaOf(p)]
       case Large(_) => h1 == DropLarge(h, ArenaOf(p))
       case Small(d, cnt) => d < DESCS && h1 == if cnt + 1 == PerArena(d) then DropSmall(Push(h, p), ArenaOf(p), d) else Push(h, p)
  }
}
