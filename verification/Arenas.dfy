/** The block allocator of threads/malloc.c: descriptors, arenas and free lists as values. */
module Arenas {
  import opened Basics
  import opened Intervals
  import Division

  /** sizeof (struct arena) on x86-64. */
  const HEADER: nat := 24
  /** sizeof (struct block): the two pointers of a list element. */
  const NODE: nat := 16
  /** The descriptors malloc_init() sets up: blocks of 16, 32, ..., 1024 bytes. */
  const DESCS: nat := 7

  /** The block size of descriptor d. */
  function Size(d: nat): nat {
    if d == 0 then 16 else 2 * Size(d - 1)
  }

  /** blocks_per_arena of descriptor d. */
  function Per(d: nat): nat {
    if Size(d) == 0 then 0 else (PGSIZE - HEADER) / Size(d)
  }

  lemma Sizes(d: nat)
    requires d < DESCS
    ensures 16 <= Size(d) <= 1024 && Per(d) >= 3 && Per(d) * Size(d) <= PGSIZE - HEADER < (Per(d) + 1) * Size(d)
  {
    assert Size(1) == 32 && Size(2) == 64 && Size(3) == 128;
    assert Size(4) == 256 && Size(5) == 512 && Size(6) == 1024;
  }

  /** A block: a page and its number in the arena on that page. */
  datatype Blk = Blk(page: nat, index: nat)

  /** A page of blocks with free_cnt of them free, or pages that hold one big block. */
  datatype Arena = Small(desc: nat, freeCnt: nat) | Big(pageCnt: nat)

  /** live records what malloc() has handed out, with the sizes asked for. */
  datatype Heap = Heap(arenas: map<nat, Arena>, lists: seq<seq<Blk>>, free: set<nat>, live: map<Blk, nat>)

  // ----- addresses ---------------------------------------------------------------------------

  /** Where block i of an arena begins, after the header: i * Size(d). */
  function Offset(d: nat, i: nat): nat {
    if i == 0 then 0 else Offset(d, i - 1) + Size(d)
  }

  lemma {:induction false} OffsetIs(d: nat, i: nat)
    ensures Offset(d, i) == i * Size(d)
  {
    if i > 0 {
      OffsetIs(d, i - 1);
      assert i * Size(d) == (i - 1) * Size(d) + Size(d);
    }
  }

  lemma {:induction false} OffsetGrows(d: nat, i: nat, j: nat)
    requires i < j
    ensures Offset(d, i) + Size(d) <= Offset(d, j)
  {
    if i < j - 1 { OffsetGrows(d, i, j - 1); }
  }

  lemma BlockInPage(d: nat, i: nat)
    requires d < DESCS && i < Per(d)
    ensures Offset(d, i) + Size(d) <= PGSIZE - HEADER
  {
    Sizes(d);
    OffsetIs(d, Per(d));
    OffsetGrows(d, i, Per(d));
  }

  lemma TimesDivides(i: nat, s: nat)
    requires s > 0
    ensures i * s % s == 0 && i * s / s == i
  {
    Division.DivIs(i * s, s, i, 0);
    Division.DivMod(i * s, s);
    assert s * i == i * s;
  }

  lemma OffsetDivides(d: nat, i: nat)
    requires d < DESCS
    ensures Size(d) > 0 && Offset(d, i) % Size(d) == 0 && Offset(d, i) / Size(d) == i
  {
    Sizes(d);
    OffsetIs(d, i);
    TimesDivides(i, Size(d));
  }

  /** arena_to_block() */
  function AddressIn(arenas: map<nat, Arena>, b: Blk): nat {
    b.page * 4096 + HEADER + if b.page in arenas && arenas[b.page].Small? then Offset(arenas[b.page].desc, b.index) else 0
  }

  function Address(h: Heap, b: Blk): nat {
    AddressIn(h.arenas, b)
  }

  function Span(a: Arena): nat {
    if a.Big? then a.pageCnt else 1
  }

  /** block_size(), for a block that malloc() returned. */
  function BlockSize(h: Heap, b: Blk): nat {
    if b.page !in h.arenas then 0
    else match h.arenas[b.page]
    case Small(d, _) => Size(d)
    case Big(n) => if n == 0 then 0 else n * 4096 - HEADER
  }

  predicate IsBlock(h: Heap, b: Blk) {
    b.page in h.arenas &&
    match h.arenas[b.page]
    case Small(d, _) => d < DESCS && b.index < Per(d)
    case Big(n) => b.index == 0 && n > 0
  }

  lemma OnPage(page: nat, ofs: nat)
    requires HEADER + ofs < PGSIZE
    ensures (page * 4096 + HEADER + ofs) / PGSIZE == page && (page * 4096 + HEADER + ofs) % PGSIZE == HEADER + ofs
  {
  }

  /** block_to_arena(): the page a block's address lies on is its arena's, and its checks hold. */
  lemma BlockToArena(h: Heap, b: Blk)
    requires IsBlock(h, b)
    ensures Address(h, b) / PGSIZE == b.page
    ensures h.arenas[b.page].Small? ==> var s := Size(h.arenas[b.page].desc);
      s > 0 && (Address(h, b) % PGSIZE - HEADER) % s == 0 && (Address(h, b) % PGSIZE - HEADER) / s == b.index
    ensures h.arenas[b.page].Big? ==> Address(h, b) % PGSIZE == HEADER
  {
    if h.arenas[b.page].Small? {
      var d := h.arenas[b.page].desc;
      Sizes(d);
      BlockInPage(d, b.index);
      OffsetDivides(d, b.index);
      OnPage(b.page, Offset(d, b.index));
    } else {
      OnPage(b.page, 0);
    }
  }

  // ----- the invariant -----------------------------------------------------------------------

  /** No arena's pages are free, and no arena begins on the pages of another. */
  ghost predicate PagesOk(h: Heap) {
    && (forall p, q :: p in h.arenas && q in h.free ==> q < p || p + Span(h.arenas[p]) <= q)
    && (forall p, q :: p in h.arenas && q in h.arenas && p < q ==> p + Span(h.arenas[p]) <= q)
    && (forall p :: p in h.arenas && h.arenas[p].Big? ==> h.arenas[p].pageCnt > 0)
  }

  function Listed(h: Heap, d: nat): seq<Blk> {
    if d < |h.lists| then h.lists[d] else []
  }

  /** A block of a small arena of descriptor d. */
  predicate BelongsTo(h: Heap, b: Blk, d: nat) {
    b.page in h.arenas && h.arenas[b.page].Small? && h.arenas[b.page].desc == d && b.index < Per(d)
  }

  /** Free lists hold blocks of their own descriptor, each once. */
  ghost predicate ListsOk(h: Heap) {
    && |h.lists| == DESCS
    && (forall d :: NoDup(Listed(h, d)))
    && (forall d, b :: b in Listed(h, d) ==> BelongsTo(h, b, d))
  }

  /** How many blocks of the arena on page p are in s. */
  function CountPage(s: seq<Blk>, p: nat): nat {
    if s == [] then 0 else (if s[0].page == p then 1 else 0) + CountPage(s[1..], p)
  }

  /** free_cnt counts the arena's blocks on the free list. */
  ghost predicate CountsOk(h: Heap) {
    forall p :: p in h.arenas && h.arenas[p].Small? ==>
      h.arenas[p].desc < DESCS && h.arenas[p].freeCnt == CountPage(Listed(h, h.arenas[p].desc), p)
  }

  /** No arena but the one on page p, if any, is wholly free. */
  ghost predicate NoneIdle(h: Heap, but: Option<nat>) {
    forall p :: p in h.arenas && h.arenas[p].Small? && but != Some(p) ==> h.arenas[p].freeCnt < Per(h.arenas[p].desc)
  }

  /** A block handed out is a block, is not on a free list, and is as large as asked for. */
  ghost predicate LiveOk(h: Heap) {
    forall b :: b in h.live ==>
      IsBlock(h, b) && (h.arenas[b.page].Small? ==> b !in Listed(h, h.arenas[b.page].desc)) && 0 < h.live[b] <= BlockSize(h, b)
  }

  /** No block is lost: each is free or handed out. */
  ghost predicate NoneLost(h: Heap) {
    forall b :: IsBlock(h, b) ==> b in h.live || (h.arenas[b.page].Small? && b in Listed(h, h.arenas[b.page].desc))
  }

  ghost predicate InvBut(h: Heap, but: Option<nat>) {
    PagesOk(h) && ListsOk(h) && CountsOk(h) && NoneIdle(h, but) && LiveOk(h) && NoneLost(h)
  }

  /** What holds between calls. */
  ghost predicate Inv(h: Heap) {
    InvBut(h, None)
  }

  // ----- disjoint blocks -----------------------------------------------------------------------

  /** The bytes from a up to a + n, and from b up to b + m, do not overlap. */
  predicate Apart(a: nat, n: nat, b: nat, m: nat) {
    a + n <= b || b + m <= a
  }

  lemma BlockWithinArena(h: Heap, b: Blk)
    requires IsBlock(h, b)
    ensures b.page * 4096 + HEADER <= Address(h, b)
    ensures Address(h, b) + BlockSize(h, b) <= (b.page + Span(h.arenas[b.page])) * 4096
  {
    if h.arenas[b.page].Small? { BlockInPage(h.arenas[b.page].desc, b.index); }
  }

  lemma BlocksApartAt(h: Heap, b: Blk, c: Blk)
    requires PagesOk(h) && IsBlock(h, b) && IsBlock(h, c)
    requires b.page < c.page || (b.page == c.page && b.index < c.index)
    ensures Address(h, b) + BlockSize(h, b) <= Address(h, c)
  {
    BlockWithinArena(h, b);
    BlockWithinArena(h, c);
    if b.page == c.page { OffsetGrows(h.arenas[b.page].desc, b.index, c.index); }
  }

  /** Distinct blocks are apart. */
  lemma BlocksApart(h: Heap, b: Blk, c: Blk)
    requires PagesOk(h) && IsBlock(h, b) && IsBlock(h, c) && b != c
    ensures Apart(Address(h, b), BlockSize(h, b), Address(h, c), BlockSize(h, c))
  {
    if b.page < c.page || (b.page == c.page && b.index < c.index) {
      BlocksApartAt(h, b, c);
    } else {
      BlocksApartAt(h, c, b);
    }
  }

  /** Blocks that are handed out do not overlap, lie inside their arena behind its header, and
      are at least as large as asked for. */
  lemma LiveBlocksApart(h: Heap, b: Blk, c: Blk)
    requires Inv(h) && b in h.live && c in h.live && b != c
    ensures Apart(Address(h, b), h.live[b], Address(h, c), h.live[c])
    ensures b.page * 4096 + HEADER <= Address(h, b)
    ensures Address(h, b) + h.live[b] <= (b.page + Span(h.arenas[b.page])) * 4096
  {
    BlocksApart(h, b, c);
    BlockWithinArena(h, b);
  }

  // ----- a new arena ---------------------------------------------------------------------------

  /** All blocks of a new arena on page p, in order. */
  function Blocks(p: nat, n: nat): seq<Blk> {
    if n == 0 then [] else Blocks(p, n - 1) + [Blk(p, n - 1)]
  }

  lemma {:induction false} BlocksAre(p: nat, n: nat)
    ensures |Blocks(p, n)| == n && forall i :: 0 <= i < n ==> Blocks(p, n)[i] == Blk(p, i)
  {
    if n > 0 { BlocksAre(p, n - 1); }
  }

  lemma {:induction false} CountJoin(s: seq<Blk>, r: seq<Blk>, p: nat)
    ensures CountPage(s + r, p) == CountPage(s, p) + CountPage(r, p)
  {
    if s == [] {
      assert s + r == r;
    } else {
      assert (s + r)[1..] == s[1..] + r;
      CountJoin(s[1..], r, p);
    }
  }

  lemma {:induction false} CountBlocks(p: nat, n: nat, q: nat)
    ensures CountPage(Blocks(p, n), q) == if p == q then n else 0
  {
    if n > 0 {
      CountBlocks(p, n - 1, q);
      CountJoin(Blocks(p, n - 1), [Blk(p, n - 1)], q);
    }
  }

  function AddArena(h: Heap, d: nat, p: nat): Heap
    requires d < |h.lists|
  {
    Heap(h.arenas[p := Small(d, Per(d))], h.lists[d := Blocks(p, Per(d))], h.free - {p}, h.live)
  }

  /** The lists of h' are those of h, but for that of d. */
  lemma OtherLists(h: Heap, h': Heap, d: nat, s: seq<Blk>)
    requires d < |h.lists| && h'.lists == h.lists[d := s]
    ensures forall e :: Listed(h', e) == if e == d then s else Listed(h, e)
  {
  }

  lemma AddArenaCounts(h: Heap, d: nat, p: nat)
    requires ListsOk(h) && CountsOk(h) && d < DESCS && Listed(h, d) == [] && p !in h.arenas
    ensures CountsOk(AddArena(h, d, p))
  {
    var h' := AddArena(h, d, p);
    OtherLists(h, h', d, Blocks(p, Per(d)));
    forall q | q in h'.arenas && h'.arenas[q].Small?
      ensures h'.arenas[q].freeCnt == CountPage(Listed(h', h'.arenas[q].desc), q)
    {
      CountBlocks(p, Per(d), q);
    }
  }

  lemma AddArenaLists(h: Heap, d: nat, p: nat)
    requires ListsOk(h) && d < DESCS && Listed(h, d) == [] && p !in h.arenas
    ensures ListsOk(AddArena(h, d, p))
  {
    var h' := AddArena(h, d, p);
    OtherLists(h, h', d, Blocks(p, Per(d)));
    BlocksAre(p, Per(d));
  }

  lemma AddArenaLive(h: Heap, d: nat, p: nat)
    requires ListsOk(h) && LiveOk(h) && NoneLost(h) && d < DESCS && Listed(h, d) == [] && p !in h.arenas
    ensures LiveOk(AddArena(h, d, p)) && NoneLost(AddArena(h, d, p))
  {
    var h' := AddArena(h, d, p);
    OtherLists(h, h', d, Blocks(p, Per(d)));
    BlocksAre(p, Per(d));
    forall b | b in h'.live
      ensures IsBlock(h', b) && (h'.arenas[b.page].Small? ==> b !in Listed(h', h'.arenas[b.page].desc)) && 0 < h'.live[b] <= BlockSize(h', b)
    {
      assert IsBlock(h, b);
    }
    forall b | IsBlock(h', b)
      ensures b in h'.live || (h'.arenas[b.page].Small? && b in Listed(h', h'.arenas[b.page].desc))
    {
      if b.page == p {
        assert Blocks(p, Per(d))[b.index] == b;
      } else {
        assert IsBlock(h, b);
      }
    }
  }

  lemma AddArenaPages(h: Heap, d: nat, p: nat)
    requires PagesOk(h) && NoneIdle(h, None) && d < |h.lists| && p in h.free
    ensures p !in h.arenas && PagesOk(AddArena(h, d, p)) && NoneIdle(AddArena(h, d, p), Some(p))
  {
  }

  lemma AddArenaFirst(h: Heap, d: nat, p: nat)
    requires d < DESCS <= |h.lists|
    ensures var s := Listed(AddArena(h, d, p), d); s != [] && s[0].page == p
  {
    Sizes(d);
    BlocksAre(p, Per(d));
  }

  lemma AddArenaInv(h: Heap, d: nat, p: nat)
    requires Inv(h) && d < DESCS && Listed(h, d) == [] && p in h.free
    ensures InvBut(AddArena(h, d, p), Some(p))
  {
    AddArenaPages(h, d, p);
    AddArenaCounts(h, d, p);
    AddArenaLists(h, d, p);
    AddArenaLive(h, d, p);
  }

  // ----- taking a block --------------------------------------------------------------------------

  /** The first block of d's free list is handed out. */
  function Take(h: Heap, d: nat, size: nat): Heap
    requires d < |h.lists| && h.lists[d] != [] && h.lists[d][0].page in h.arenas && h.arenas[h.lists[d][0].page].Small?
    requires h.arenas[h.lists[d][0].page].freeCnt > 0
  {
    var b := h.lists[d][0];
    Heap(h.arenas[b.page := Small(d, h.arenas[b.page].freeCnt - 1)], h.lists[d := h.lists[d][1..]], h.free, h.live[b := size])
  }

  lemma SameBlocks(h: Heap, h': Heap)
    requires h'.arenas.Keys == h.arenas.Keys
    requires forall p :: p in h.arenas && h.arenas[p].Big? ==> h'.arenas[p] == h.arenas[p]
    requires forall p :: p in h.arenas && h.arenas[p].Small? ==> h'.arenas[p].Small? && h'.arenas[p].desc == h.arenas[p].desc
    ensures forall b :: (IsBlock(h', b) <==> IsBlock(h, b)) && BlockSize(h', b) == BlockSize(h, b)
    ensures forall b, d :: BelongsTo(h', b, d) <==> BelongsTo(h, b, d)
    ensures PagesOk(h) && h'.free == h.free ==> PagesOk(h')
  {
  }

  lemma TakeLists(h: Heap, d: nat, size: nat)
    requires ListsOk(h) && CountsOk(h) && d < DESCS && Listed(h, d) != []
    requires BelongsTo(h, h.lists[d][0], d) && h.arenas[h.lists[d][0].page].freeCnt > 0
    ensures ListsOk(Take(h, d, size)) && CountsOk(Take(h, d, size)) && h.lists[d][0] !in Listed(Take(h, d, size), d)
  {
    var h', s := Take(h, d, size), h.lists[d];
    OtherLists(h, h', d, s[1..]);
    SameBlocks(h, h');
    forall e, c | c in Listed(h', e)
      ensures BelongsTo(h', c, e)
    {
      assert c in Listed(h, e);
    }
  }

  lemma TakeLive(h: Heap, d: nat, size: nat)
    requires ListsOk(h) && CountsOk(h) && LiveOk(h) && d < DESCS && Listed(h, d) != [] && 0 < size <= Size(d)
    requires BelongsTo(h, h.lists[d][0], d) && h.arenas[h.lists[d][0].page].freeCnt > 0
    ensures LiveOk(Take(h, d, size))
  {
    var h', s := Take(h, d, size), h.lists[d];
    OtherLists(h, h', d, s[1..]);
    SameBlocks(h, h');
    TakeLists(h, d, size);
    forall b | b in h'.live
      ensures IsBlock(h', b) && (h'.arenas[b.page].Small? ==> b !in Listed(h', h'.arenas[b.page].desc)) && 0 < h'.live[b] <= BlockSize(h', b)
    {
      if b != s[0] { assert b in h.live; }
    }
  }

  lemma TakeKeeps(h: Heap, d: nat, size: nat)
    requires NoneLost(h) && d < |h.lists| && Listed(h, d) != []
    requires BelongsTo(h, h.lists[d][0], d) && h.arenas[h.lists[d][0].page].freeCnt > 0
    ensures NoneLost(Take(h, d, size))
  {
    var h', s := Take(h, d, size), h.lists[d];
    OtherLists(h, h', d, s[1..]);
    SameBlocks(h, h');
    assert s == [s[0]] + s[1..];
    forall b | IsBlock(h', b)
      ensures b in h'.live || (h'.arenas[b.page].Small? && b in Listed(h', h'.arenas[b.page].desc))
    {
      assert IsBlock(h, b);
    }
  }

  lemma TakePages(h: Heap, d: nat, size: nat, but: Option<nat>)
    requires PagesOk(h) && NoneIdle(h, but) && d < |h.lists| && Listed(h, d) != []
    requires but == None || but == Some(h.lists[d][0].page)
    requires BelongsTo(h, h.lists[d][0], d) && 0 < h.arenas[h.lists[d][0].page].freeCnt <= Per(d)
    ensures PagesOk(Take(h, d, size)) && NoneIdle(Take(h, d, size), None)
  {
    SameBlocks(h, Take(h, d, size));
  }

  lemma TakeInv(h: Heap, d: nat, size: nat, but: Option<nat>)
    requires InvBut(h, but) && d < DESCS && Listed(h, d) != [] && 0 < size <= Size(d)
    requires but == None || but == Some(h.lists[d][0].page)
    requires BelongsTo(h, h.lists[d][0], d) && 0 < h.arenas[h.lists[d][0].page].freeCnt <= Per(d)
    ensures Inv(Take(h, d, size))
  {
    TakePages(h, d, size, but);
    TakeLists(h, d, size);
    TakeLive(h, d, size);
    TakeKeeps(h, d, size);
  }

  // ----- giving a block back ------------------------------------------------------------------------

  /** A block goes to the front of its free list. */
  function Give(h: Heap, b: Blk): Heap
    requires b.page in h.arenas && h.arenas[b.page].Small? && h.arenas[b.page].desc < |h.lists|
  {
    var a := h.arenas[b.page];
    Heap(h.arenas[b.page := Small(a.desc, a.freeCnt + 1)], h.lists[a.desc := [b] + h.lists[a.desc]], h.free, h.live - {b})
  }

  lemma GiveLists(h: Heap, b: Blk, d: nat)
    requires ListsOk(h) && CountsOk(h) && BelongsTo(h, b, d) && d < DESCS && b !in Listed(h, d)
    ensures ListsOk(Give(h, b)) && CountsOk(Give(h, b))
  {
    var h', s := Give(h, b), h.lists[d];
    OtherLists(h, h', d, [b] + s);
    SameBlocks(h, h');
    assert ([b] + s)[1..] == s;
    forall e, c | c in Listed(h', e)
      ensures BelongsTo(h', c, e)
    {
      assert c == b || c in Listed(h, e);
    }
  }

  lemma GiveLive(h: Heap, b: Blk, d: nat)
    requires LiveOk(h) && NoneLost(h) && BelongsTo(h, b, d) && d < |h.lists|
    ensures LiveOk(Give(h, b)) && NoneLost(Give(h, b))
  {
    var h', s := Give(h, b), h.lists[d];
    OtherLists(h, h', d, [b] + s);
    SameBlocks(h, h');
    forall c | c in h'.live
      ensures IsBlock(h', c) && (h'.arenas[c.page].Small? ==> c !in Listed(h', h'.arenas[c.page].desc)) && 0 < h'.live[c] <= BlockSize(h', c)
    {
      assert c in h.live && c != b;
    }
    forall c | IsBlock(h', c)
      ensures c in h'.live || (h'.arenas[c.page].Small? && c in Listed(h', h'.arenas[c.page].desc))
    {
      assert IsBlock(h, c);
    }
  }

  lemma GivePages(h: Heap, b: Blk, d: nat)
    requires PagesOk(h) && NoneIdle(h, None) && BelongsTo(h, b, d) && d < |h.lists|
    ensures PagesOk(Give(h, b)) && NoneIdle(Give(h, b), Some(b.page)) && Give(h, b).arenas[b.page].freeCnt <= Per(d)
    ensures Give(h, b).arenas[b.page].freeCnt < Per(d) ==> NoneIdle(Give(h, b), None)
  {
    SameBlocks(h, Give(h, b));
  }

  lemma GiveInv(h: Heap, b: Blk, d: nat)
    requires Inv(h) && b in h.live && BelongsTo(h, b, d)
    ensures d < |h.lists| && InvBut(Give(h, b), Some(b.page)) && Give(h, b).arenas[b.page].freeCnt <= Per(d)
    ensures Give(h, b).arenas[b.page].freeCnt < Per(d) ==> Inv(Give(h, b))
  {
    assert h.arenas[b.page].desc < DESCS;
    GiveLists(h, b, d);
    GiveLive(h, b, d);
    GivePages(h, b, d);
  }

  // ----- a wholly free arena --------------------------------------------------------------------------

  /** s without the blocks of page p whose number is below n. */
  function Without(s: seq<Blk>, p: nat, n: nat): seq<Blk> {
    if s == [] then []
    else (if s[0].page == p && s[0].index < n then [] else [s[0]]) + Without(s[1..], p, n)
  }

  /** list_remove() of b. */
  function RemoveOne(s: seq<Blk>, b: Blk): seq<Blk> {
    if s == [] then [] else if s[0] == b then s[1..] else [s[0]] + RemoveOne(s[1..], b)
  }

  lemma {:induction false} WithoutHas(s: seq<Blk>, p: nat, n: nat, b: Blk)
    ensures b in Without(s, p, n) <==> b in s && !(b.page == p && b.index < n)
  {
    if s != [] {
      WithoutHas(s[1..], p, n, b);
      assert s == [s[0]] + s[1..];
    }
  }

  lemma {:induction false} WithoutNoDup(s: seq<Blk>, p: nat, n: nat)
    requires NoDup(s)
    ensures NoDup(Without(s, p, n))
  {
    if s != [] {
      WithoutNoDup(s[1..], p, n);
      WithoutHas(s[1..], p, n, s[0]);
    }
  }

  lemma {:induction false} WithoutNone(s: seq<Blk>, p: nat)
    ensures Without(s, p, 0) == s
  {
    if s != [] { WithoutNone(s[1..], p); }
  }

  lemma {:induction false} RemoveAbsent(s: seq<Blk>, b: Blk)
    requires b !in s
    ensures RemoveOne(s, b) == s
  {
    if s != [] { RemoveAbsent(s[1..], b); }
  }

  /** Removing the blocks one by one. */
  lemma {:induction false} WithoutNext(s: seq<Blk>, p: nat, n: nat)
    requires NoDup(s)
    ensures RemoveOne(Without(s, p, n), Blk(p, n)) == Without(s, p, n + 1)
  {
    if s != [] {
      WithoutNext(s[1..], p, n);
      WithoutHas(s[1..], p, n, Blk(p, n));
      var r, r' := Without(s[1..], p, n), Without(s[1..], p, n + 1);
      assert [] + r == r && [] + r' == r' && ([s[0]] + r)[1..] == r;
      if s[0] == Blk(p, n) { RemoveAbsent(r, Blk(p, n)); }
    }
  }

  lemma {:induction false} CountWithout(s: seq<Blk>, p: nat, n: nat, q: nat)
    requires p != q
    ensures CountPage(Without(s, p, n), q) == CountPage(s, q)
  {
    if s != [] {
      CountWithout(s[1..], p, n, q);
      var r := Without(s[1..], p, n);
      assert [] + r == r && ([s[0]] + r)[1..] == r;
    }
  }

  /** The block numbers of page p in s. */
  ghost function Numbers(s: seq<Blk>, p: nat): set<nat> {
    set b | b in s && b.page == p :: b.index
  }

  lemma NotTwice(s: seq<Blk>, p: nat)
    requires NoDup(s) && s != [] && s[0].page == p
    ensures s[0].index !in Numbers(s[1..], p)
  {
    assert s[0] !in s[1..];
  }

  lemma {:induction false} CountNumbers(s: seq<Blk>, p: nat)
    requires NoDup(s)
    ensures |Numbers(s, p)| == CountPage(s, p)
  {
    if s != [] {
      CountNumbers(s[1..], p);
      assert s == [s[0]] + s[1..];
      if s[0].page == p {
        assert Numbers(s, p) == Numbers(s[1..], p) + {s[0].index};
        NotTwice(s, p);
      } else {
        assert Numbers(s, p) == Numbers(s[1..], p);
      }
    } else {
      assert Numbers(s, p) == {};
    }
  }

  lemma SubsetFull(a: set<nat>, b: set<nat>)
    requires a <= b && |a| == |b|
    ensures a == b
  {
    assert b == a + (b - a);
  }

  /** When free_cnt reaches blocks_per_arena, every block of the arena is on the free list. */
  lemma AllListed(s: seq<Blk>, p: nat, n: nat, i: nat)
    requires NoDup(s) && CountPage(s, p) == n && i < n && forall b :: b in s && b.page == p ==> b.index < n
    ensures Blk(p, i) in s
  {
    CountNumbers(s, p);
    IntervalHas(0, n);
    assert Numbers(s, p) <= Interval(0, n);
    SubsetFull(Numbers(s, p), Interval(0, n));
    assert i in Numbers(s, p);
  }

  /** free_cnt never exceeds blocks_per_arena. */
  lemma CountBound(s: seq<Blk>, p: nat, n: nat)
    requires NoDup(s) && forall b :: b in s && b.page == p ==> b.index < n
    ensures CountPage(s, p) <= n
  {
    CountNumbers(s, p);
    IntervalHas(0, n);
    assert Numbers(s, p) <= Interval(0, n);
    SubsetCount(Numbers(s, p), Interval(0, n));
  }

  lemma SubsetCount(a: set<nat>, b: set<nat>)
    requires a <= b
    ensures |a| <= |b|
  {
    assert b == a + (b - a);
  }

  /** The first block of a free list may be handed out. */
  lemma MayTake(h: Heap, d: nat)
    requires ListsOk(h) && CountsOk(h) && d < DESCS && Listed(h, d) != []
    ensures var b := h.lists[d][0]; BelongsTo(h, b, d) && 0 < h.arenas[b.page].freeCnt <= Per(d) && b in Listed(h, d)
  {
    var b := h.lists[d][0];
    assert b in Listed(h, d);
    CountBound(Listed(h, d), b.page, Per(d));
  }

  /** The arena on page p goes, with all its blocks. */
  function DropArena(h: Heap, p: nat): Heap
    requires p in h.arenas && h.arenas[p].Small? && h.arenas[p].desc < |h.lists|
  {
    var d := h.arenas[p].desc;
    Heap(h.arenas - {p}, h.lists[d := Without(h.lists[d], p, Per(d))], h.free + {p}, h.live)
  }

  lemma DropLists(h: Heap, p: nat, d: nat)
    requires ListsOk(h) && CountsOk(h) && p in h.arenas && h.arenas[p].Small? && h.arenas[p].desc == d
    ensures d < DESCS && ListsOk(DropArena(h, p))
  {
    var h', s := DropArena(h, p), h.lists[d];
    OtherLists(h, h', d, Without(s, p, Per(d)));
    WithoutNoDup(Listed(h, d), p, Per(d));
    forall e, b | b in Listed(h', e)
      ensures BelongsTo(h', b, e)
    {
      WithoutHas(s, p, Per(d), b);
      assert b in Listed(h, e) && BelongsTo(h, b, e);
    }
  }

  lemma DropCounts(h: Heap, p: nat, d: nat)
    requires ListsOk(h) && CountsOk(h) && p in h.arenas && h.arenas[p].Small? && h.arenas[p].desc == d
    ensures d < DESCS && CountsOk(DropArena(h, p))
  {
    var h', s := DropArena(h, p), h.lists[d];
    OtherLists(h, h', d, Without(s, p, Per(d)));
    forall q | q in h'.arenas && h'.arenas[q].Small?
      ensures h'.arenas[q].freeCnt == CountPage(Listed(h', h'.arenas[q].desc), q)
    {
      CountWithout(s, p, Per(d), q);
    }
  }

  /** No block of a wholly free arena is handed out. */
  lemma IdleIsDead(h: Heap, p: nat, d: nat, b: Blk)
    requires ListsOk(h) && CountsOk(h) && LiveOk(h) && p in h.arenas && h.arenas[p] == Small(d, Per(d)) && b in h.live
    ensures b.page != p
  {
    if b.page == p {
      assert IsBlock(h, b);
      AllListed(Listed(h, d), p, Per(d), b.index);
    }
  }

  lemma DropLive(h: Heap, p: nat, d: nat)
    requires ListsOk(h) && CountsOk(h) && LiveOk(h) && NoneLost(h) && p in h.arenas && h.arenas[p] == Small(d, Per(d))
    ensures d < DESCS && LiveOk(DropArena(h, p)) && NoneLost(DropArena(h, p))
  {
    var h', s := DropArena(h, p), h.lists[d];
    OtherLists(h, h', d, Without(s, p, Per(d)));
    forall b | b in h'.live
      ensures IsBlock(h', b) && (h'.arenas[b.page].Small? ==> b !in Listed(h', h'.arenas[b.page].desc)) && 0 < h'.live[b] <= BlockSize(h', b)
    {
      IdleIsDead(h, p, d, b);
      assert IsBlock(h, b);
      WithoutHas(s, p, Per(d), b);
    }
    forall b | IsBlock(h', b)
      ensures b in h'.live || (h'.arenas[b.page].Small? && b in Listed(h', h'.arenas[b.page].desc))
    {
      assert IsBlock(h, b) && b.page != p;
      WithoutHas(s, p, Per(d), b);
    }
  }

  lemma DropPages(h: Heap, p: nat)
    requires PagesOk(h) && NoneIdle(h, Some(p)) && p in h.arenas && h.arenas[p].Small? && h.arenas[p].desc < |h.lists|
    ensures PagesOk(DropArena(h, p)) && NoneIdle(DropArena(h, p), None)
  {
  }

  lemma DropInv(h: Heap, p: nat, d: nat)
    requires InvBut(h, Some(p)) && p in h.arenas && h.arenas[p] == Small(d, Per(d))
    ensures d < DESCS && Inv(DropArena(h, p))
  {
    DropLists(h, p, d);
    DropCounts(h, p, d);
    DropLive(h, p, d);
    DropPages(h, p);
  }

  /** The smallest descriptor that serves size bytes, or DESCS. */
  function Serving(size: nat): nat {
    if size <= 16 then 0 else if size <= 32 then 1 else if size <= 64 then 2 else if size <= 128 then 3
    else if size <= 256 then 4 else if size <= 512 then 5 else if size <= 1024 then 6 else DESCS
  }

  /** The pages that a big block of size bytes needs, with its header. */
  function PagesFor(size: nat): nat {
    (size + HEADER + 4095) / 4096
  }

  /** What malloc() computes for it in 64-bit words. */
  function PageCnt(size: nat): nat {
    (size + HEADER + 4095) % 0x1_0000_0000_0000_0000 / 4096
  }

  /** The greatest size for which that is right. */
  const MAX_SIZE: nat := 0xFFFF_FFFF_FFFF_EFE8

  /** The pages hold the header and size bytes if and only if size is at most MAX_SIZE; beyond it
      they are one or none. */
  lemma PageCntExact(size: nat)
    requires size < 0x1_0000_0000_0000_0000
    ensures HEADER + size <= PageCnt(size) * 4096 <==> size <= MAX_SIZE
    ensures size <= MAX_SIZE ==> PageCnt(size) == PagesFor(size) && (PageCnt(size) - 1) * 4096 < HEADER + size
    ensures size > MAX_SIZE ==> PageCnt(size) == if size < 0xFFFF_FFFF_FFFF_FFE9 then 0 else 1
  {
    var n := size + 24 + 4095;
    if size <= MAX_SIZE {
      assert n % 0x1_0000_0000_0000_0000 == n;
    } else {
      assert n % 0x1_0000_0000_0000_0000 == n - 0x1_0000_0000_0000_0000;
    }
  }

  /** A block is free, or pages for one are. */
  ghost predicate CanServe(h: Heap, size: nat) {
    if Serving(size) < DESCS then Listed(h, Serving(size)) != [] || h.free != {}
    else exists p :: Run(h.free, p, PagesFor(size))
  }

  // ----- big blocks ---------------------------------------------------------------------------------------

  /** n pages from p on are free. */
  predicate Run(free: set<nat>, p: nat, n: nat) {
    Interval(p, n) <= free
  }

  lemma OnePage(free: set<nat>, p: nat)
    ensures Run(free, p, 1) <==> p in free
  {
    IntervalHas(p, 1);
    assert p in Interval(p, 1);
  }

  function AddBig(h: Heap, p: nat, n: nat, size: nat): Heap {
    Heap(h.arenas[p := Big(n)], h.lists, h.free - Interval(p, n), h.live[Blk(p, 0) := size])
  }

  lemma AddBigPages(h: Heap, p: nat, n: nat, size: nat)
    requires PagesOk(h) && n > 0 && Run(h.free, p, n)
    ensures PagesOk(AddBig(h, p, n, size)) && p !in h.arenas
  {
    IntervalHas(p, n);
    assert p in h.free;
    forall q | q in h.arenas
      ensures q + Span(h.arenas[q]) <= p || p + n <= q
    {
      assert q !in h.free;
    }
  }

  lemma AddBigLive(h: Heap, p: nat, n: nat, size: nat)
    requires LiveOk(h) && NoneLost(h) && n > 0 && p !in h.arenas && 0 < size <= n * 4096 - HEADER
    ensures LiveOk(AddBig(h, p, n, size)) && NoneLost(AddBig(h, p, n, size))
  {
    var h' := AddBig(h, p, n, size);
    assert forall d :: Listed(h', d) == Listed(h, d);
    forall b | b in h'.live
      ensures IsBlock(h', b) && (h'.arenas[b.page].Small? ==> b !in Listed(h', h'.arenas[b.page].desc)) && 0 < h'.live[b] <= BlockSize(h', b)
    {
      if b != Blk(p, 0) { assert b in h.live && IsBlock(h, b); }
    }
    forall b | IsBlock(h', b)
      ensures b in h'.live || (h'.arenas[b.page].Small? && b in Listed(h', h'.arenas[b.page].desc))
    {
      if b.page != p { assert IsBlock(h, b); }
    }
  }

  lemma AddBigInv(h: Heap, p: nat, n: nat, size: nat)
    requires Inv(h) && n > 0 && Run(h.free, p, n) && 0 < size <= n * 4096 - HEADER
    ensures p !in h.arenas && Inv(AddBig(h, p, n, size))
  {
    AddBigPages(h, p, n, size);
    AddBigLive(h, p, n, size);
    SameLists(h, AddBig(h, p, n, size));
  }

  /** Big arenas make no difference to the free lists. */
  lemma SameLists(h: Heap, h': Heap)
    requires ListsOk(h) && CountsOk(h) && NoneIdle(h, None) && h'.lists == h.lists
    requires forall p :: p in h.arenas && h.arenas[p].Small? ==> p in h'.arenas && h'.arenas[p] == h.arenas[p]
    requires forall p :: p in h'.arenas && h'.arenas[p].Small? ==> p in h.arenas && h'.arenas[p] == h.arenas[p]
    ensures ListsOk(h') && CountsOk(h') && NoneIdle(h', None)
  {
    assert forall d :: Listed(h', d) == Listed(h, d);
    forall d, b | b in Listed(h', d)
      ensures BelongsTo(h', b, d)
    {
      assert b in Listed(h, d) && BelongsTo(h, b, d);
    }
  }

  function DropBig(h: Heap, p: nat): Heap
    requires p in h.arenas && h.arenas[p].Big?
  {
    Heap(h.arenas - {p}, h.lists, h.free + Interval(p, h.arenas[p].pageCnt), h.live - {Blk(p, 0)})
  }

  lemma DropBigPages(h: Heap, p: nat)
    requires PagesOk(h) && p in h.arenas && h.arenas[p].Big?
    ensures PagesOk(DropBig(h, p))
  {
    IntervalHas(p, h.arenas[p].pageCnt);
  }

  lemma DropBigLive(h: Heap, p: nat)
    requires LiveOk(h) && NoneLost(h) && p in h.arenas && h.arenas[p].Big?
    ensures LiveOk(DropBig(h, p)) && NoneLost(DropBig(h, p))
  {
    var h' := DropBig(h, p);
    assert forall d :: Listed(h', d) == Listed(h, d);
    forall b | b in h'.live
      ensures IsBlock(h', b) && (h'.arenas[b.page].Small? ==> b !in Listed(h', h'.arenas[b.page].desc)) && 0 < h'.live[b] <= BlockSize(h', b)
    {
      assert b in h.live && IsBlock(h, b);
    }
    forall b | IsBlock(h', b)
      ensures b in h'.live || (h'.arenas[b.page].Small? && b in Listed(h', h'.arenas[b.page].desc))
    {
      assert IsBlock(h, b);
    }
  }

  lemma DropBigInv(h: Heap, p: nat)
    requires Inv(h) && p in h.arenas && h.arenas[p].Big?
    ensures Inv(DropBig(h, p))
  {
    DropBigPages(h, p);
    DropBigLive(h, p);
    SameLists(h, DropBig(h, p));
  }

  // ----- contents --------------------------------------------------------------------------------------

  function Byte(x: map<nat, nat>, a: nat): nat {
    if a in x then x[a] else 0
  }

  /** x and y agree on the n bytes from lo on. */
  ghost predicate SameBytes(x: map<nat, nat>, y: map<nat, nat>, lo: nat, n: nat) {
    forall a :: lo <= a < lo + n ==> Byte(y, a) == Byte(x, a)
  }

  /** x and y agree but for the n bytes from lo on. */
  ghost predicate SameElsewhere(x: map<nat, nat>, y: map<nat, nat>, lo: nat, n: nat) {
    forall a: nat :: a < lo || lo + n <= a ==> Byte(y, a) == Byte(x, a)
  }

  /** Every block handed out, but the one excepted, still is, where it was, as large as it was and with the same contents. */
  ghost predicate Undisturbed(h: Heap, x: map<nat, nat>, h': Heap, y: map<nat, nat>, but: Option<Blk>) {
    forall b :: b in h.live && but != Some(b) ==> Intact(h, x, h', y, b)
  }

  ghost predicate Intact(h: Heap, x: map<nat, nat>, h': Heap, y: map<nat, nat>, b: Blk)
    requires b in h.live
  {
    && b in h'.live && h'.live[b] == h.live[b]
    && Address(h', b) == Address(h, b) && BlockSize(h', b) == BlockSize(h, b)
    && SameBytes(x, y, Address(h, b), BlockSize(h, b))
  }

  lemma UndisturbedTrans(h: Heap, x: map<nat, nat>, h1: Heap, y: map<nat, nat>, h2: Heap, z: map<nat, nat>, but: Option<Blk>, but': Option<Blk>)
    requires Undisturbed(h, x, h1, y, but) && Undisturbed(h1, y, h2, z, but') && (but' == None || but' == but)
    ensures Undisturbed(h, x, h2, z, but)
  {
    forall b | b in h.live && but != Some(b)
      ensures Intact(h, x, h2, z, b)
    {
      assert Intact(h, x, h1, y, b) && Intact(h1, y, h2, z, b);
    }
  }

  /** A write to n bytes from lo on is harmless to h if they are apart from all blocks handed out. */
  ghost predicate Harmless(h: Heap, lo: nat, n: nat, but: Option<Blk>) {
    forall b :: b in h.live && but != Some(b) ==> Apart(lo, n, Address(h, b), BlockSize(h, b))
  }

  lemma WriteUndisturbed(h: Heap, x: map<nat, nat>, y: map<nat, nat>, lo: nat, n: nat, but: Option<Blk>)
    requires SameElsewhere(x, y, lo, n) && Harmless(h, lo, n, but)
    ensures Undisturbed(h, x, h, y, but)
  {
  }

  /** A block that is not handed out may be overwritten. */
  lemma BlockHarmless(h: Heap, c: Blk, n: nat, but: Option<Blk>)
    requires PagesOk(h) && LiveOk(h) && IsBlock(h, c) && (c !in h.live || but == Some(c)) && n <= BlockSize(h, c)
    ensures Harmless(h, Address(h, c), n, but)
  {
    forall b | b in h.live && but != Some(b)
      ensures Apart(Address(h, c), n, Address(h, b), BlockSize(h, b))
    {
      BlocksApart(h, b, c);
    }
  }

  /** So may an arena's header. */
  lemma HeaderHarmless(h: Heap, p: nat)
    requires PagesOk(h) && LiveOk(h) && p in h.arenas
    ensures Harmless(h, p * 4096, HEADER, None)
  {
    forall b | b in h.live
      ensures Apart(p * 4096, HEADER, Address(h, b), BlockSize(h, b))
    {
      BlockWithinArena(h, b);
      assert p < b.page ==> p + Span(h.arenas[p]) <= b.page;
    }
  }

  /** So may pages on which no block is handed out. */
  lemma PagesHarmless(h: Heap, p: nat, n: nat)
    requires LiveOk(h) && forall b :: b in h.live ==> b.page + Span(h.arenas[b.page]) <= p || p + n <= b.page
    ensures Harmless(h, p * 4096, n * 4096, None)
  {
    forall b | b in h.live
      ensures Apart(p * 4096, n * 4096, Address(h, b), BlockSize(h, b))
    {
      BlockWithinArena(h, b);
    }
  }

  lemma ListedHarmless(h: Heap, d: nat, c: Blk)
    requires PagesOk(h) && ListsOk(h) && LiveOk(h) && d < DESCS && c in Listed(h, d)
    ensures Harmless(h, Address(h, c), NODE, None)
  {
    Sizes(d);
    assert BelongsTo(h, c, d);
    BlockHarmless(h, c, NODE, None);
  }

  /** The block stays handed out, in an arena of the same kind. */
  predicate Stays(h: Heap, h': Heap, b: Blk)
    requires b in h.live
  {
    && b in h'.live && h'.live[b] == h.live[b] && b.page in h.arenas && b.page in h'.arenas
    && match h.arenas[b.page]
       case Small(d, _) => h'.arenas[b.page].Small? && h'.arenas[b.page].desc == d
       case Big(n) => h'.arenas[b.page] == Big(n)
  }

  lemma StaysUndisturbed(h: Heap, h': Heap, x: map<nat, nat>, but: Option<Blk>)
    requires forall b :: b in h.live && but != Some(b) ==> Stays(h, h', b)
    ensures Undisturbed(h, x, h', x, but)
  {
    forall b | b in h.live && but != Some(b)
      ensures Intact(h, x, h', x, b)
    {
      assert Stays(h, h', b);
    }
  }

  lemma AddArenaUndisturbed(h: Heap, x: map<nat, nat>, d: nat, p: nat)
    requires Inv(h) && d < DESCS && p in h.free
    ensures Undisturbed(h, x, AddArena(h, d, p), x, None) && Harmless(h, p * 4096, 4096, None)
  {
    assert p !in h.arenas;
    PagesHarmless(h, p, 1);
    StaysUndisturbed(h, AddArena(h, d, p), x, None);
  }

  lemma TakeUndisturbed(h: Heap, x: map<nat, nat>, d: nat, size: nat)
    requires LiveOk(h) && d < |h.lists| && Listed(h, d) != []
    requires BelongsTo(h, h.lists[d][0], d) && 0 < h.arenas[h.lists[d][0].page].freeCnt
    requires h.lists[d][0] !in h.live
    ensures Undisturbed(h, x, Take(h, d, size), x, None)
  {
    StaysUndisturbed(h, Take(h, d, size), x, None);
  }

  lemma AddBigUndisturbed(h: Heap, x: map<nat, nat>, p: nat, n: nat, size: nat)
    requires PagesOk(h) && LiveOk(h) && n > 0 && Run(h.free, p, n)
    ensures Undisturbed(h, x, AddBig(h, p, n, size), x, None) && Harmless(h, p * 4096, HEADER, None) && Blk(p, 0) !in h.live
  {
    IntervalHas(p, n);
    assert p in h.free && p !in h.arenas;
    PagesHarmless(h, p, 1);
    assert Harmless(h, p * 4096, 1 * 4096, None);
    StaysUndisturbed(h, AddBig(h, p, n, size), x, None);
  }

  lemma DropUndisturbed(h: Heap, x: map<nat, nat>, p: nat, d: nat)
    requires PagesOk(h) && ListsOk(h) && CountsOk(h) && LiveOk(h) && p in h.arenas && h.arenas[p] == Small(d, Per(d)) && d < |h.lists|
    ensures Undisturbed(h, x, DropArena(h, p), x, None) && Harmless(h, p * 4096, 4096, None)
  {
    forall b | b in h.live
      ensures b.page != p && Stays(h, DropArena(h, p), b)
    {
      IdleIsDead(h, p, d, b);
    }
    PagesHarmless(h, p, 1);
    assert Harmless(h, p * 4096, 1 * 4096, None);
    StaysUndisturbed(h, DropArena(h, p), x, None);
  }

  lemma GiveUndisturbed(h: Heap, x: map<nat, nat>, b: Blk, d: nat)
    requires LiveOk(h) && BelongsTo(h, b, d) && d < |h.lists|
    ensures Undisturbed(h, x, Give(h, b), x, Some(b))
  {
    StaysUndisturbed(h, Give(h, b), x, Some(b));
  }

  lemma DropBigUndisturbed(h: Heap, x: map<nat, nat>, b: Blk, n: nat)
    requires PagesOk(h) && LiveOk(h) && b in h.live && b.page in h.arenas && h.arenas[b.page] == Big(n)
    ensures Undisturbed(h, x, DropBig(h, b.page), x, Some(b)) && Harmless(h, b.page * 4096, n * 4096, Some(b))
  {
    assert IsBlock(h, b);
    forall c | c in h.live && c != b
      ensures c.page != b.page && Stays(h, DropBig(h, b.page), c) && Apart(b.page * 4096, n * 4096, Address(h, c), BlockSize(h, c))
    {
      assert IsBlock(h, c);
      BlockWithinArena(h, c);
    }
    StaysUndisturbed(h, DropBig(h, b.page), x, Some(b));
  }

  // ----- pages ----------------------------------------------------------------------------------

  /** Page q belongs to the arena that begins on page p. */
  predicate Covers(h: Heap, p: nat, q: nat) {
    p in h.arenas && p <= q < p + Span(h.arenas[p])
  }

  ghost predicate Owned(h: Heap, q: nat) {
    q in h.free || exists p :: Covers(h, p, q)
  }

  /** The pages of the pool are those that are free and those of arenas: none is lost and none gained. */
  ghost predicate Conserved(h: Heap, pool: set<nat>) {
    forall q: nat :: Owned(h, q) <==> q in pool
  }

  /** The pages of arena p, if it is one, pass to or from the free pages, and all others stay. */
  lemma PassPages(h: Heap, h': Heap, p: nat, pool: set<nat>)
    requires Conserved(h, pool)
    requires forall r, q :: r != p ==> (Covers(h', r, q) <==> Covers(h, r, q))
    requires forall q: nat :: q in h'.free || Covers(h', p, q) <==> q in h.free || Covers(h, p, q)
    ensures Conserved(h', pool)
  {
    forall q: nat
      ensures Owned(h', q) <==> Owned(h, q)
    {
      if Owned(h, q) && q !in h.free {
        var r :| Covers(h, r, q);
        assert r != p ==> Covers(h', r, q);
      }
      if Owned(h', q) && q !in h'.free {
        var r :| Covers(h', r, q);
        assert r != p ==> Covers(h, r, q);
      }
    }
  }

  lemma AddArenaConserves(h: Heap, d: nat, p: nat, pool: set<nat>)
    requires Conserved(h, pool) && d < |h.lists| && p in h.free && p !in h.arenas
    ensures Conserved(AddArena(h, d, p), pool)
  {
    PassPages(h, AddArena(h, d, p), p, pool);
  }

  lemma TakeConserves(h: Heap, d: nat, size: nat, pool: set<nat>)
    requires Conserved(h, pool) && d < |h.lists| && Listed(h, d) != []
    requires BelongsTo(h, h.lists[d][0], d) && 0 < h.arenas[h.lists[d][0].page].freeCnt
    ensures Conserved(Take(h, d, size), pool)
  {
    PassPages(h, Take(h, d, size), h.lists[d][0].page, pool);
  }

  lemma GiveConserves(h: Heap, b: Blk, d: nat, pool: set<nat>)
    requires Conserved(h, pool) && d < |h.lists| && BelongsTo(h, b, d)
    ensures Conserved(Give(h, b), pool)
  {
    PassPages(h, Give(h, b), b.page, pool);
  }

  lemma DropConserves(h: Heap, p: nat, pool: set<nat>)
    requires Conserved(h, pool) && p in h.arenas && h.arenas[p].Small? && h.arenas[p].desc < |h.lists|
    ensures Conserved(DropArena(h, p), pool)
  {
    PassPages(h, DropArena(h, p), p, pool);
  }

  lemma AddBigConserves(h: Heap, p: nat, k: nat, size: nat, pool: set<nat>)
    requires Conserved(h, pool) && Run(h.free, p, k) && p !in h.arenas
    ensures Conserved(AddBig(h, p, k, size), pool)
  {
    IntervalHas(p, k);
    PassPages(h, AddBig(h, p, k, size), p, pool);
  }

  lemma DropBigConserves(h: Heap, p: nat, pool: set<nat>)
    requires Conserved(h, pool) && p in h.arenas && h.arenas[p].Big?
    ensures Conserved(DropBig(h, p), pool)
  {
    IntervalHas(p, h.arenas[p].pageCnt);
    PassPages(h, DropBig(h, p), p, pool);
  }

  lemma FreeInPool(h: Heap, pool: set<nat>, q: nat)
    requires Conserved(h, pool) && q in h.free
    ensures q in pool
  {
    assert Owned(h, q);
  }

  /** The n bytes from `to` on in y are those from `from` on in x. */
  ghost predicate SamePrefix(x: map<nat, nat>, from: nat, y: map<nat, nat>, to: nat, n: nat) {
    forall a: nat :: to <= a < to + n ==> Byte(y, a) == Byte(x, a - to + from)
  }

  function Min(a: nat, b: nat): nat {
    if a < b then a else b
  }

  /** What malloc() kept, and then a write to the new block c, and then free() of b but for c. */
  lemma MovedUndisturbed(h: Heap, x: map<nat, nat>, h1: Heap, y: map<nat, nat>, z: map<nat, nat>, h2: Heap, w: map<nat, nat>, b: Blk, c: Blk)
    requires Undisturbed(h, x, h1, y, None) && c !in h.live
    requires Undisturbed(h1, y, h1, z, Some(c)) && Undisturbed(h1, z, h2, w, Some(b))
    ensures Undisturbed(h, x, h2, w, Some(b))
  {
    forall a | a in h.live && a != b
      ensures Intact(h, x, h2, w, a)
    {
      assert Intact(h, x, h1, y, a) && Intact(h1, y, h1, z, a) && Intact(h1, z, h2, w, a);
    }
  }

  lemma PrefixFrom(x: map<nat, nat>, y: map<nat, nat>, w: map<nat, nat>, from: nat, to: nat, size: nat, n: nat)
    requires SameBytes(x, y, from, size) && n <= size && SamePrefix(y, from, w, to, n)
    ensures SamePrefix(x, from, w, to, n)
  {
  }

  lemma CopyStep(x: map<nat, nat>, from: nat, y: map<nat, nat>, to: nat, i: nat)
    requires SamePrefix(x, from, y, to, i) && SameElsewhere(x, y, to, i) && (from + i < to || to + i <= from + i)
    ensures SamePrefix(x, from, y[to + i := Byte(y, from + i)], to, i + 1) && SameElsewhere(x, y[to + i := Byte(y, from + i)], to, i + 1)
  {
    var z := y[to + i := Byte(y, from + i)];
    assert Byte(y, from + i) == Byte(x, from + i);
    forall a: nat | to <= a < to + i + 1
      ensures Byte(z, a) == Byte(x, a - to + from)
    {
      assert a == to + i || Byte(z, a) == Byte(y, a);
    }
  }

  lemma SwapUpdates(m: map<Blk, nat>, b: Blk, c: Blk, size: nat)
    requires b != c
    ensures m[c := size] - {b} == (m - {b})[c := size]
  {
  }
}
