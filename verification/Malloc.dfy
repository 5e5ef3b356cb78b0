/** malloc(), free() and realloc() of threads/malloc.c on memory. */
module Malloc {
  import opened Basics
  import opened Intervals
  import opened Arenas

  /** malloc_init(): the block sizes it sets up. */
  method Init() returns (sizes: seq<nat>)
    ensures sizes == [16, 32, 64, 128, 256, 512, 1024]
    ensures |sizes| == DESCS && forall d :: 0 <= d < DESCS ==> sizes[d] == Size(d)
  {
    assert Size(1) == 32 && Size(2) == 64 && Size(3) == 128;
    assert Size(4) == 256 && Size(5) == 512 && Size(6) == 1024;
    sizes := [];
    var size := 16;
    while size < PGSIZE / 2
      invariant |sizes| <= DESCS && size == Size(|sizes|) && forall d :: 0 <= d < |sizes| ==> sizes[d] == Size(d)
      invariant size == 16 || size == 32 || size == 64 || size == 128 || size == 256 || size == 512 || size == 1024 || size == 2048
      decreases 2048 - size
    {
      sizes := sizes + [size];
      size := size * 2;
    }
  }

  class Allocator {
    var arenas: map<nat, Arena>
    var lists: seq<seq<Blk>>
    var free: set<nat>             // the page allocator's free pages
    const pageCnt: nat             // all pages are below this
    var bytes: map<nat, nat>
    ghost var live: map<Blk, nat>
    ghost const pool: set<nat>     // the pages there are

    ghost function Abs(): Heap
      reads this
    {
      Heap(arenas, lists, free, live)
    }

    ghost predicate Valid()
      reads this
    {
      Inv(Abs()) && Conserved(Abs(), pool) && forall p :: p in pool ==> p < pageCnt
    }

    /** After malloc_init(), with the given pages free. */
    constructor (pages: set<nat>, limit: nat)
      requires forall p :: p in pages ==> p < limit
      ensures Valid() && live == map[] && free == pool == pages
    {
      arenas, lists, free, pageCnt, bytes, live := map[], [[], [], [], [], [], [], []], pages, limit, map[], map[];
      pool := pages;
      new;
      assert forall d :: Listed(Abs(), d) == [];
    }

    // ----- writes ------------------------------------------------------------------------

    /** Stores bytes the model does not follow: headers, list pointers, the filling of freed pages. */
    method Scribble(lo: nat, n: nat)
      modifies `bytes
      ensures SameElsewhere(old(bytes), bytes, lo, n)
    {
      var i := 0;
      while i < n
        invariant 0 <= i <= n && SameElsewhere(old(bytes), bytes, lo, n)
      {
        var v: nat := *;
        bytes := bytes[lo + i := v];
        i := i + 1;
      }
    }

    /** What operations on d's free list may store: pointers in the blocks on it. */
    method ScribbleNodes(d: nat)
      requires PagesOk(Abs()) && ListsOk(Abs()) && LiveOk(Abs()) && d < DESCS
      modifies `bytes
      ensures Undisturbed(old(Abs()), old(bytes), Abs(), bytes, None)
    {
      ghost var h, x := Abs(), bytes;
      StaysUndisturbed(h, h, x, None);
      var i := 0;
      while i < |lists[d]|
        invariant 0 <= i <= |lists[d]| && Undisturbed(h, x, h, bytes, None)
      {
        ghost var y := bytes;
        ListedHarmless(h, d, lists[d][i]);
        Scribble(AddressIn(arenas, lists[d][i]), NODE);
        WriteUndisturbed(h, y, bytes, Address(h, lists[d][i]), NODE, None);
        UndisturbedTrans(h, x, h, y, h, bytes, None, None);
        i := i + 1;
      }
    }

    // ----- malloc --------------------------------------------------------------------------

    /** palloc_get_multiple(): the first run of cnt free pages, not yet taken. */
    method FindRun(cnt: nat) returns (page: Option<nat>)
      requires cnt > 0 && Conserved(Abs(), pool) && forall p :: p in pool ==> p < pageCnt
      ensures page.Some? ==> Run(free, page.value, cnt)
      ensures page.None? ==> forall p :: !Run(free, p, cnt)
    {
      var p := 0;
      while p + cnt <= pageCnt
        invariant forall q :: 0 <= q < p ==> !Run(free, q, cnt)
        decreases pageCnt - p
      {
        if Run(free, p, cnt) { return Some(p); }
        p := p + 1;
      }
      page := None;
      forall q: nat | p <= q
        ensures !Run(free, q, cnt)
      {
        IntervalHas(q, cnt);
        assert q + cnt - 1 in Interval(q, cnt);
        if q + cnt - 1 in free { FreeInPool(Abs(), pool, q + cnt - 1); }
      }
    }

    /** The loop of malloc() over the descriptors. */
    method FindDesc(size: nat) returns (d: nat)
      requires size > 0
      ensures d == Serving(size) <= DESCS && (d < DESCS ==> size <= Size(d)) && forall e :: 0 <= e < d ==> Size(e) < size
    {
      assert Size(1) == 32 && Size(2) == 64 && Size(3) == 128;
      assert Size(4) == 256 && Size(5) == 512 && Size(6) == 1024;
      d := 0;
      while d < DESCS && Size(d) < size
        invariant 0 <= d <= DESCS && forall e :: 0 <= e < d ==> Size(e) < size
      {
        d := d + 1;
      }
      assert d > 0 ==> Size(d - 1) < size;
    }

    /** The free page p becomes an arena, and its blocks go to the empty free list of d. */
    method AddBlocks(d: nat, p: nat)
      requires d < |lists| && lists[d] == []
      modifies `free, `arenas, `lists
      ensures Abs() == AddArena(old(Abs()), d, p)
    {
      free := free - {p};
      arenas := arenas[p := Small(d, Per(d))];
      var i := 0;
      while i < Per(d)
        invariant 0 <= i <= Per(d) && lists == old(lists)[d := Blocks(p, i)]
        modifies `lists
      {
        lists := lists[d := lists[d] + [Blk(p, i)]];
        i := i + 1;
      }
    }

    /** A new arena for descriptor d, whose free list is empty, if there is a free page. */
    method Grow(d: nat) returns (ghost page: Option<nat>)
      requires Valid() && d < DESCS && lists[d] == []
      modifies `free, `arenas, `lists, `bytes
      ensures page.None? ==> old(free) == {} && Abs() == old(Abs())
      ensures page.Some? ==> page.value in old(free) && Abs() == AddArena(old(Abs()), d, page.value)
      ensures Undisturbed(old(Abs()), old(bytes), Abs(), bytes, None)
    {
      ghost var h, x := Abs(), bytes;
      var got := FindRun(1);
      page := got;
      if got.Some? {
        OnePage(free, got.value);
        AddArenaUndisturbed(h, bytes, d, got.value);
        Scribble(got.value * 4096, 4096);
        WriteUndisturbed(h, x, bytes, got.value * 4096, 4096, None);
        AddBlocks(d, got.value);
        AddArenaUndisturbed(h, bytes, d, got.value);
        UndisturbedTrans(h, x, h, bytes, Abs(), bytes, None, None);
      } else {
        StaysUndisturbed(h, h, x, None);
        forall p | p in free
          ensures false
        {
          OnePage(free, p);
        }
      }
    }

    /** The stores that taking a block off d's free list, or putting it there, makes in memory. */
    method ScribbleList(d: nat, page: nat)
      requires PagesOk(Abs()) && ListsOk(Abs()) && LiveOk(Abs()) && d < DESCS && page in arenas
      modifies `bytes
      ensures Undisturbed(old(Abs()), old(bytes), Abs(), bytes, None)
    {
      ghost var h, x := Abs(), bytes;
      ScribbleNodes(d);
      ghost var y := bytes;
      HeaderHarmless(h, page);
      Scribble(page * 4096, HEADER);
      WriteUndisturbed(h, y, bytes, page * 4096, HEADER, None);
      UndisturbedTrans(h, x, h, y, h, bytes, None, None);
    }

    /** Takes the first block off d's free list. */
    method PopFirst(d: nat, size: nat) returns (b: Blk)
      requires d < |lists| && lists[d] != [] && lists[d][0].page in arenas && arenas[lists[d][0].page].Small?
      requires arenas[lists[d][0].page].freeCnt > 0
      modifies `arenas, `lists, `live
      ensures b == old(lists)[d][0] && Abs() == Take(old(Abs()), d, size)
    {
      b := lists[d][0];
      lists := lists[d := lists[d][1..]];
      arenas := arenas[b.page := Small(d, arenas[b.page].freeCnt - 1)];
      live := live[b := size];
    }

    /** The first block of d's free list is handed out. */
    method TakeFirst(d: nat, size: nat, ghost but: Option<nat>) returns (b: Blk)
      requires InvBut(Abs(), but) && d < DESCS && lists[d] != [] && 0 < size <= Size(d)
      requires but == None || but == Some(lists[d][0].page)
      modifies `arenas, `lists, `bytes, `live
      ensures Inv(Abs()) && (Conserved(old(Abs()), pool) ==> Conserved(Abs(), pool))
      ensures b !in old(live) && live == old(live)[b := size]
      ensures Undisturbed(old(Abs()), old(bytes), Abs(), bytes, None)
    {
      ghost var h, x := Abs(), bytes;
      MayTake(h, d);
      if Conserved(h, pool) { TakeConserves(h, d, size, pool); }
      ScribbleList(d, lists[d][0].page);
      b := PopFirst(d, size);
      TakeInv(h, d, size, but);
      TakeUndisturbed(h, bytes, d, size);
      UndisturbedTrans(h, x, h, bytes, Abs(), bytes, None, None);
    }

    /** malloc() */
    method Malloc(size: nat) returns (b: Option<Blk>)
      requires Valid() && size <= MAX_SIZE
      modifies this
      ensures Valid() && Undisturbed(old(Abs()), old(bytes), Abs(), bytes, None)
      ensures b.Some? <==> size > 0 && CanServe(old(Abs()), size)
      ensures b.None? ==> Abs() == old(Abs())
      ensures b.Some? ==> b.value !in old(live) && live == old(live)[b.value := size]
    {
      ghost var h, x := Abs(), bytes;
      StaysUndisturbed(h, h, x, None);
      if size == 0 { return None; }
      var d := FindDesc(size);
      if d == DESCS {
        b := MallocBig(size);
      } else {
        b := MallocSmall(d, size);
      }
    }

    method MallocBig(size: nat) returns (b: Option<Blk>)
      requires Valid() && 0 < size <= MAX_SIZE
      modifies this
      ensures Valid() && Undisturbed(old(Abs()), old(bytes), Abs(), bytes, None)
      ensures b.Some? <==> exists p :: Run(old(free), p, PagesFor(size))
      ensures b.None? ==> Abs() == old(Abs())
      ensures b.Some? ==> b.value !in old(live) && live == old(live)[b.value := size]
    {
      ghost var h, x := Abs(), bytes;
      var cnt := PageCnt(size);
      PageCntExact(size);
      var got := FindRun(cnt);
      if got.None? {
        StaysUndisturbed(h, h, x, None);
        return None;
      }
      var p := got.value;
      AddBigInv(h, p, cnt, size);
      AddBigConserves(h, p, cnt, size, pool);
      AddBigUndisturbed(h, x, p, cnt, size);
      Scribble(p * 4096, HEADER);
      WriteUndisturbed(h, x, bytes, p * 4096, HEADER, None);
      AddBigUndisturbed(h, bytes, p, cnt, size);
      free := free - Interval(p, cnt);
      arenas := arenas[p := Big(cnt)];
      live := live[Blk(p, 0) := size];
      UndisturbedTrans(h, x, h, bytes, Abs(), bytes, None, None);
      b := Some(Blk(p, 0));
    }

    method MallocSmall(d: nat, size: nat) returns (b: Option<Blk>)
      requires Valid() && d < DESCS && 0 < size <= Size(d)
      modifies this
      ensures Valid() && Undisturbed(old(Abs()), old(bytes), Abs(), bytes, None)
      ensures b.Some? <==> old(lists)[d] != [] || old(free) != {}
      ensures b.None? ==> Abs() == old(Abs())
      ensures b.Some? ==> b.value !in old(live) && live == old(live)[b.value := size]
    {
      ghost var h, x := Abs(), bytes;
      ghost var but: Option<nat> := None;
      if lists[d] == [] {
        but := Grow(d);
        if but.Some? {
          AddArenaInv(h, d, but.value);
          AddArenaConserves(h, d, but.value, pool);
          AddArenaFirst(h, d, but.value);
        }
      } else {
        StaysUndisturbed(h, h, x, None);
      }
      if lists[d] == [] { return None; }
      ghost var h1, y := Abs(), bytes;
      var c := TakeFirst(d, size, but);
      UndisturbedTrans(h, x, h1, y, Abs(), bytes, None, None);
      b := Some(c);
    }

    // ----- free ------------------------------------------------------------------------------

    /** Puts b at the front of its free list. */
    method PushFirst(b: Blk)
      requires b.page in arenas && arenas[b.page].Small? && arenas[b.page].desc < |lists|
      modifies `arenas, `lists, `live
      ensures Abs() == Give(old(Abs()), b)
    {
      var d := arenas[b.page].desc;
      lists := lists[d := [b] + lists[d]];
      arenas := arenas[b.page := Small(d, arenas[b.page].freeCnt + 1)];
      live := live - {b};
    }

    /** The loop of free() over the blocks of an arena that is wholly free.  Each is on the list. */
    method UnlistAll(d: nat, p: nat)
      requires ListsOk(Abs()) && CountsOk(Abs()) && p in arenas && arenas[p] == Small(d, Per(d)) && d < DESCS
      modifies `lists
      ensures lists == old(lists)[d := Without(old(lists)[d], p, Per(d))]
    {
      ghost var s := lists[d];
      assert NoDup(Listed(Abs(), d)) && Listed(Abs(), d) == s;
      WithoutNone(s, p);
      var i := 0;
      while i < Per(d)
        invariant 0 <= i <= Per(d) && lists == old(lists)[d := Without(s, p, i)]
      {
        AllListed(s, p, Per(d), i);
        WithoutHas(s, p, i, Blk(p, i));
        assert Blk(p, i) in lists[d];
        WithoutNext(s, p, i);
        lists := lists[d := RemoveOne(lists[d], Blk(p, i))];
        i := i + 1;
      }
    }

    /** Returns a wholly free arena to the page allocator. */
    method Shrink(d: nat, p: nat)
      requires InvBut(Abs(), Some(p)) && p in arenas && arenas[p] == Small(d, Per(d)) && d < DESCS
      modifies `arenas, `lists, `free, `bytes
      ensures Abs() == DropArena(old(Abs()), p)
      ensures Undisturbed(old(Abs()), old(bytes), Abs(), bytes, None)
    {
      ghost var h, x := Abs(), bytes;
      DropUndisturbed(h, bytes, p, d);
      ScribbleNodes(d);
      ghost var y := bytes;
      Scribble(p * 4096, 4096);
      WriteUndisturbed(h, y, bytes, p * 4096, 4096, None);
      UndisturbedTrans(h, x, h, y, h, bytes, None, None);
      UnlistAll(d, p);
      arenas := arenas - {p};
      free := free + {p};
      DropUndisturbed(h, bytes, p, d);
      UndisturbedTrans(h, x, h, bytes, Abs(), bytes, None, None);
    }

    /** Clears b and puts it on its free list. */
    method GiveBack(b: Blk, d: nat)
      requires Inv(Abs()) && b in live && BelongsTo(Abs(), b, d)
      modifies `arenas, `lists, `bytes, `live
      ensures d < |old(lists)| && Abs() == Give(old(Abs()), b)
      ensures Undisturbed(old(Abs()), old(bytes), Abs(), bytes, Some(b))
    {
      ghost var h, x := Abs(), bytes;
      BlockHarmless(h, b, Size(d), Some(b));
      Scribble(AddressIn(arenas, b), Size(d));
      WriteUndisturbed(h, x, bytes, Address(h, b), Size(d), Some(b));
      ghost var y := bytes;
      ScribbleList(d, b.page);
      UndisturbedTrans(h, x, h, y, h, bytes, Some(b), None);
      PushFirst(b);
      GiveUndisturbed(h, bytes, b, d);
      UndisturbedTrans(h, x, h, bytes, Abs(), bytes, Some(b), Some(b));
    }

    /** The part of free() for a block of a small arena. */
    method FreeSmall(b: Blk, d: nat)
      requires Valid() && b in live && BelongsTo(Abs(), b, d)
      modifies `arenas, `lists, `free, `bytes, `live
      ensures Valid() && live == old(live) - {b}
      ensures Undisturbed(old(Abs()), old(bytes), Abs(), bytes, Some(b))
    {
      ghost var h, x := Abs(), bytes;
      GiveInv(h, b, d);
      GiveConserves(h, b, d, pool);
      GiveBack(b, d);
      if arenas[b.page].freeCnt >= Per(d) {
        ghost var h1, y := Abs(), bytes;
        DropInv(h1, b.page, d);
        DropConserves(h1, b.page, pool);
        Shrink(d, b.page);
        UndisturbedTrans(h, x, h1, y, Abs(), bytes, Some(b), None);
      }
    }

    /** The part of free() for a big block. */
    method FreeBig(b: Blk)
      requires Valid() && b in live && b.page in arenas && arenas[b.page].Big?
      modifies `arenas, `free, `bytes, `live
      ensures Valid() && live == old(live) - {b}
      ensures Undisturbed(old(Abs()), old(bytes), Abs(), bytes, Some(b))
    {
      ghost var h, x := Abs(), bytes;
      var p, n := b.page, arenas[b.page].pageCnt;
      assert IsBlock(h, b);
      DropBigInv(h, p);
      DropBigConserves(h, p, pool);
      DropBigUndisturbed(h, bytes, b, n);
      Scribble(p * 4096, n * 4096);
      WriteUndisturbed(h, x, bytes, p * 4096, n * 4096, Some(b));
      arenas := arenas - {p};
      free := free + Interval(p, n);
      live := live - {b};
      DropBigUndisturbed(h, bytes, b, n);
      assert Abs() == DropBig(h, p);
      UndisturbedTrans(h, x, h, bytes, Abs(), bytes, Some(b), Some(b));
    }

    /** free() of a block that malloc() handed out. */
    method Free(b: Option<Blk>)
      requires Valid() && (b.Some? ==> b.value in live)
      modifies `arenas, `lists, `free, `bytes, `live
      ensures Valid() && live == (if b.Some? then old(live) - {b.value} else old(live))
      ensures Undisturbed(old(Abs()), old(bytes), Abs(), bytes, b)
    {
      if b.None? {
        StaysUndisturbed(Abs(), Abs(), bytes, None);
        return;
      }
      assert IsBlock(Abs(), b.value);
      match arenas[b.value.page]
      case Small(d, _) => FreeSmall(b.value, d);
      case Big(_) => FreeBig(b.value);
    }

    // ----- realloc ---------------------------------------------------------------------------

    /** memcpy() between ranges that are apart. */
    method Copy(to: nat, from: nat, n: nat)
      requires Apart(to, n, from, n)
      modifies `bytes
      ensures SameElsewhere(old(bytes), bytes, to, n) && SamePrefix(old(bytes), from, bytes, to, n)
    {
      var i := 0;
      while i < n
        invariant 0 <= i <= n && SameElsewhere(old(bytes), bytes, to, i) && SamePrefix(old(bytes), from, bytes, to, i)
      {
        CopyStep(old(bytes), from, bytes, to, i);
        bytes := bytes[to + i := Byte(bytes, from + i)];
        i := i + 1;
      }
    }

    /** block_size() */
    method SizeOf(b: Blk) returns (n: nat)
      requires IsBlock(Abs(), b)
      ensures n == BlockSize(Abs(), b)
    {
      match arenas[b.page]
      case Small(d, _) => n := Size(d);
      case Big(cnt) => n := PGSIZE * cnt - HEADER;
    }

    /** The part of realloc() that copies b to c and frees b. */
    method MoveBlock(b: Blk, c: Blk, size: nat)
      requires Valid() && b in live && c in live && b != c && live[c] == size
      modifies `arenas, `lists, `free, `bytes, `live
      ensures Valid() && live == old(live) - {b}
      ensures exists z :: Undisturbed(old(Abs()), old(bytes), old(Abs()), z, Some(c)) && Undisturbed(old(Abs()), z, Abs(), bytes, Some(b))
      ensures SamePrefix(old(bytes), Address(old(Abs()), b), bytes, Address(Abs(), c), Min(size, BlockSize(old(Abs()), b)))
    {
      ghost var h, x := Abs(), bytes;
      assert IsBlock(h, b) && IsBlock(h, c);
      var n := SizeOf(b);
      n := Min(size, n);
      BlocksApart(h, b, c);
      BlockHarmless(h, c, n, Some(c));
      Copy(AddressIn(arenas, c), AddressIn(arenas, b), n);
      WriteUndisturbed(h, x, bytes, Address(h, c), n, Some(c));
      ghost var z := bytes;
      Free(Some(b));
      assert Intact(h, z, Abs(), bytes, c);
    }

    /** realloc() of a block to a size that is not 0. */
    method Resize(b: Blk, size: nat) returns (c: Option<Blk>)
      requires Valid() && b in live && 0 < size <= MAX_SIZE
      modifies this
      ensures Valid() && Undisturbed(old(Abs()), old(bytes), Abs(), bytes, Some(b))
      ensures c.Some? <==> CanServe(old(Abs()), size)
      ensures c.None? ==> Abs() == old(Abs()) && Undisturbed(old(Abs()), old(bytes), Abs(), bytes, None)
      ensures c.Some? ==> c.value !in old(live) && live == (old(live) - {b})[c.value := size]
      ensures c.Some? ==> SamePrefix(old(bytes), Address(old(Abs()), b), bytes, Address(Abs(), c.value), Min(size, BlockSize(old(Abs()), b)))
    {
      ghost var h, x := Abs(), bytes;
      c := Malloc(size);
      if c.Some? {
        ghost var h1, y := Abs(), bytes;
        assert Intact(h, x, h1, y, b);
        MoveBlock(b, c.value, size);
        ghost var z :| Undisturbed(h1, y, h1, z, Some(c.value)) && Undisturbed(h1, z, Abs(), bytes, Some(b));
        MovedUndisturbed(h, x, h1, y, z, Abs(), bytes, b, c.value);
        PrefixFrom(x, y, bytes, Address(h, b), Address(Abs(), c.value), BlockSize(h, b), Min(size, BlockSize(h, b)));
        SwapUpdates(h.live, b, c.value, size);
      }
    }

    /** realloc(): the new block begins with the bytes of the old one. */
    method Realloc(b: Option<Blk>, size: nat) returns (c: Option<Blk>)
      requires Valid() && size <= MAX_SIZE && (b.Some? ==> b.value in live)
      modifies this
      ensures Valid() && Undisturbed(old(Abs()), old(bytes), Abs(), bytes, b)
      ensures size == 0 ==> c.None? && live == (if b.Some? then old(live) - {b.value} else old(live))
      ensures size > 0 ==> (c.Some? <==> CanServe(old(Abs()), size))
      ensures size > 0 && c.None? ==> Abs() == old(Abs()) && Undisturbed(old(Abs()), old(bytes), Abs(), bytes, None)
      ensures c.Some? ==> c.value !in old(live) && live == (if b.Some? then old(live) - {b.value} else old(live))[c.value := size]
      ensures c.Some? && b.Some? ==>
        SamePrefix(old(bytes), Address(old(Abs()), b.value), bytes, Address(Abs(), c.value), Min(size, BlockSize(old(Abs()), b.value)))
    {
      if size == 0 {
        Free(b);
        c := None;
      } else if b.None? {
        c := Malloc(size);
      } else {
        c := Resize(b.value, size);
      }
    }
  }
}
