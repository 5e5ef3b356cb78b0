/** The functions of threads/mmu.c that build, use and take down page tables in memory. */
module PageMemory {
  import opened Basics
  import opened PageTables
  import opened PageSweeps
  import opened PageOwners

  class Memory {
    var pages: map<Frame, seq<nat>>
    var free: set<Frame>
    ghost var at: map<Frame, Pos>
    ghost var data: map<Frame, Pos>      // the frames that pages of spaces are mapped to
    ghost var kernel: nat                // the entry that all spaces have in common

    ghost function Abs(): Mem
      reads this
    {
      Mem(pages, free, at)
    }

    /** Tables and frames belong to one space each, and the kernel's to all. */
    ghost predicate Valid()
      reads this
    {
      TreeOk(Abs()) && SpacesOk(Abs(), data, kernel)
    }

    /** palloc_get_page(PAL_ZERO) */
    method GetZeroPage() returns (page: Option<Frame>)
      modifies `pages, `free
      ensures page.None? ==> old(free) == {} && pages == old(pages) && free == old(free)
      ensures page.Some? ==> page.value in old(free) && free == old(free) - {page.value} && pages == old(pages)[page.value := Zeros()]
    {
      if free == {} {
        page := None;
      } else {
        var f :| f in free;
        free := free - {f};
        pages := pages[f := Zeros()];
        page := Some(f);
      }
    }

    /** palloc_free_page(), which overwrites the page. */
    method FreePage(f: Frame) returns (ghost filled: seq<nat>)
      requires f !in free
      modifies `pages, `free
      ensures free == old(free) + {f} && pages == old(pages)[f := filled]
    {
      var cc: seq<nat> := seq(ENTRIES, _ => 0xcccc_cccc_cccc_cccc);
      filled := cc;
      pages := pages[f := cc];
      free := free + {f};
    }

    /** A new table below entry idx of t, if a page is free. */
    method AddChild(t: Frame, idx: nat) returns (child: Option<Frame>)
      requires TreeOk(Abs()) && t in at && at[t].level > 1 && idx < ENTRIES && TableOk(Abs(), t)
      modifies `pages, `free, `at
      ensures child.None? ==> old(free) == {} && Abs() == old(Abs())
      ensures child.Some? ==> child.value in old(free) && Abs() == AddTable(old(Abs()), t, idx, child.value)
    {
      child := GetZeroPage();
      if child.Some? {
        pages := Put(pages, t, idx, TableEntry(child.value));
        at := at[child.value := ChildPos(at[t], idx)];
      }
    }

    /** Frees the table below entry idx of t, and clears the entry. */
    method DropChild(t: Frame, idx: nat, ghost c: Frame) returns (ghost filled: seq<nat>)
      requires t in pages && idx < |pages[t]| && c == Target(pages[t][idx]) && c != t && c !in free
      modifies `pages, `free, `at
      ensures Abs() == DropTable(old(Abs()), t, idx, c, filled)
    {
      filled := FreePage(Target(pages[t][idx]));
      pages := Put(pages, t, idx, 0);
      at := at - {c};
    }

    /** pml4e_walk(), pdpe_walk() and pgdir_walk(), for levels 4, 3 and 2. */
    method Walk(table: Option<Frame>, level: nat, vpn: nat, create: bool) returns (pte: Option<Slot>)
      requires TreeOk(Abs()) && 2 <= level <= 4
      requires table.Some? ==> table.value in at && at[table.value].level == level
      modifies `pages, `free, `at
      ensures table.None? ==> pte.None? && Abs() == old(Abs())
      ensures table.Some? ==> Walked(old(Abs()), Abs(), table.value, level, vpn, create, pte)
      decreases level, 1
    {
      if table.None? { return None; }
      var t, idx := table.value, Index(vpn, level);
      ghost var m := Abs();
      assert TableOk(m, t) && EntryOk(m, t, idx);
      if Present(pages[t][idx]) {
        pte := WalkBelow(Target(pages[t][idx]), level - 1, vpn, create);
        WalkedBelow(m, Abs(), t, level, vpn, create, Target(Word(m, t, idx)), pte);
      } else if create {
        pte := WalkNew(t, level, vpn);
      } else {
        pte := None;
      }
    }

    /** The part of a walk below a table that is present. */
    method WalkBelow(t: Frame, level: nat, vpn: nat, create: bool) returns (pte: Option<Slot>)
      requires TreeOk(Abs()) && 1 <= level < 4 && t in at && at[t].level == level
      modifies `pages, `free, `at
      ensures Walked(old(Abs()), Abs(), t, level, vpn, create, pte)
      decreases level, 2
    {
      if level == 1 {
        pte := Some(Slot(t, Index(vpn, 1)));
      } else {
        pte := Walk(Some(t), level, vpn, create);
      }
    }

    /** The part of a walk that adds a table, and takes it back when the walk fails below it. */
    method WalkNew(t: Frame, level: nat, vpn: nat) returns (pte: Option<Slot>)
      requires TreeOk(Abs()) && 2 <= level <= 4 && t in at && at[t].level == level && TableOk(Abs(), t)
      requires !Present(Word(Abs(), t, Index(vpn, level)))
      modifies `pages, `free, `at
      ensures Walked(old(Abs()), Abs(), t, level, vpn, true, pte)
      decreases level, 0
    {
      ghost var m := Abs();
      var idx := Index(vpn, level);
      var child := AddChild(t, idx);
      if child.None? { return None; }
      var c := child.value;
      AddTableOk(m, t, idx, c);
      AddTableWords(m, t, idx, c);
      pte := WalkBelow(c, level - 1, vpn, true);
      ghost var m1 := Abs();
      if pte.Some? {
        WalkedNew(m, m1, t, level, vpn, c, pte);
      } else {
        DropUndoesAdd(m, m1, t, idx, c, []);
        ghost var filled := DropChild(t, idx, c);
        DropUndoesAdd(m, m1, t, idx, c, filled);
        WalkedFails(m, Abs(), m1, t, level, vpn, c);
      }
    }

    /** Stores the entry for frame kpage in the slot that a walk for vpn has returned. */
    method StoreEntry(s: Slot, root: Frame, ghost vpn: nat, kpage: Frame, rw: bool, ghost m: Mem)
      requires TreeOk(m) && IsRoot(m, root) && vpn < VPNS && Walked(m, Abs(), root, 4, vpn, true, Some(s))
      modifies `pages, `data
      ensures TreeOk(Abs()) && Lookup(Abs(), root, 4, vpn) == Some(s) && IsRoot(Abs(), root)
      ensures Grants(Word(Abs(), s.table, s.index), kpage, rw) && Remapped(m, Abs(), root, vpn, Word(Abs(), s.table, s.index))
      ensures SpacesOk(m, old(data), kernel) && Unused(m, old(data), kpage) ==> SpacesOk(Abs(), data, kernel)
    {
      ghost var m1 := Abs();
      var w := UserEntry(kpage, rw);
      StoreRemaps(m, m1, root, vpn, true, s, w);
      LookupStore(m1, s, w, root, 4, vpn);
      if SpacesOk(m, data, kernel) && Unused(m, data, kpage) {
        SetKeepsSpaces(m, m1, root, vpn, s, w, data, kernel);
      }
      pages := Put(pages, s.table, s.index, w);
      data := data[kpage := ChildPos(at[s.table], s.index)];
    }

    /** pml4_set_page() */
    method SetPage(pml4: Option<Frame>, upage: nat, kpage: Frame, rw: bool) returns (ok: bool)
      requires TreeOk(Abs()) && (pml4.Some? ==> IsRoot(Abs(), pml4.value))
      requires upage % PGSIZE == 0 && upage < KERN_BASE
      modifies `pages, `free, `at, `data
      ensures TreeOk(Abs())
      ensures pml4.None? ==> !ok
      ensures !ok ==> Same(old(Abs()), Abs())
      ensures pml4.Some? ==> var m, v := old(Abs()), upage / PGSIZE;
        (ok <==> Lookup(m, pml4.value, 4, v).Some? || |m.free| >= Missing(m, pml4.value, 4, v))
      ensures ok ==> Lookup(Abs(), pml4.value, 4, upage / PGSIZE).Some?
      ensures ok ==> var w := Mapping(Abs(), pml4.value, upage / PGSIZE);
        w.Some? && Grants(w.value, kpage, rw) && Remapped(old(Abs()), Abs(), pml4.value, upage / PGSIZE, w.value)
      ensures ok ==> Allows(Abs(), pml4.value, 4, upage / PGSIZE, false) && (Allows(Abs(), pml4.value, 4, upage / PGSIZE, true) <==> rw)
      ensures old(Valid()) && old(Unused(Abs(), data, kpage)) ==> Valid()
    {
      ghost var m, v := Abs(), upage / PGSIZE;
      var pte := Walk(pml4, 4, upage / PGSIZE, true);
      ok := pte.Some?;
      if pte.Some? {
        StoreEntry(pte.value, pml4.value, v, kpage, rw, m);
        GrantedAllows(Abs(), pml4.value, v, Mapping(Abs(), pml4.value, v).value, kpage, rw);
      } else if pml4.Some? && SpacesOk(m, data, kernel) {
        SameSpaces(m, Abs(), data, kernel);
      }
    }

    /** pml4_get_page(): the kernel address that uaddr stands for, or none. */
    method GetPage(pml4: Option<Frame>, uaddr: nat) returns (kaddr: Option<nat>)
      requires TreeOk(Abs()) && (pml4.Some? ==> IsRoot(Abs(), pml4.value)) && uaddr < KERN_BASE
      modifies `pages, `free, `at
      ensures Same(old(Abs()), Abs()) && (old(Valid()) ==> Valid())
      ensures kaddr == if pml4.None? then None else
        match Mapping(old(Abs()), pml4.value, uaddr / PGSIZE)
        case None => None
        case Some(w) => Some(KERN_BASE + Target(w) * 4096 + uaddr % PGSIZE)
    {
      ghost var m := Abs();
      var pte := Walk(pml4, 4, uaddr / PGSIZE, false);
      kaddr := None;
      if SpacesOk(m, data, kernel) { SameSpaces(m, Abs(), data, kernel); }
      if pte.Some? {
        SlotOk(Abs(), pml4.value, uaddr / PGSIZE);
        var w := pages[pte.value.table][pte.value.index];
        if Present(w) {
          kaddr := Some(KERN_BASE + Target(w) * 4096 + uaddr % PGSIZE);
        }
      }
    }

    /** Clears the present bit of the entry for vpn, if it is set. */
    method ClearSlot(s: Slot, ghost root: Frame, ghost vpn: nat)
      requires TreeOk(Abs()) && IsRoot(Abs(), root) && vpn < VPNS && Lookup(Abs(), root, 4, vpn) == Some(s)
      modifies `pages
      ensures TreeOk(Abs()) && (old(Valid()) ==> Valid())
      ensures Mapping(old(Abs()), root, vpn).None? ==> pages == old(pages)
      ensures Mapping(old(Abs()), root, vpn).Some? ==> Cleared(old(Abs()), Abs(), root, vpn)
    {
      ghost var m := Abs();
      SlotOk(m, root, vpn);
      var w := pages[s.table][s.index];
      if Present(w) {
        ClearRemaps(m, root, vpn, s, w - PTE_P, data, kernel);
        pages := Put(pages, s.table, s.index, w - PTE_P);
      }
    }

    /** pml4_clear_page(): unmaps upage and keeps the other bits of its entry. */
    method ClearPage(pml4: Option<Frame>, upage: nat)
      requires TreeOk(Abs()) && (pml4.Some? ==> IsRoot(Abs(), pml4.value))
      requires upage % PGSIZE == 0 && upage < KERN_BASE
      modifies `pages, `free, `at
      ensures TreeOk(Abs()) && (old(Valid()) ==> Valid())
      ensures pml4.None? || Mapping(old(Abs()), pml4.value, upage / PGSIZE).None? ==> Same(old(Abs()), Abs())
      ensures pml4.Some? && Mapping(old(Abs()), pml4.value, upage / PGSIZE).Some? ==>
        Cleared(old(Abs()), Abs(), pml4.value, upage / PGSIZE)
    {
      ghost var m := Abs();
      var pte := Walk(pml4, 4, upage / PGSIZE, false);
      if pte.Some? {
        ClearSlot(pte.value, pml4.value, upage / PGSIZE);
      } else if SpacesOk(m, data, kernel) {
        SameSpaces(m, Abs(), data, kernel);
      }
    }

    /** pml4_create(): a space that shares everything above entry 0 with base. */
    method Create(base: Frame) returns (pml4: Option<Frame>)
      requires TreeOk(Abs()) && IsRoot(Abs(), base) && Word(Abs(), base, 0) == 0 && TableOk(Abs(), base)
      modifies `pages, `free, `at
      ensures TreeOk(Abs())
      ensures pml4.None? ==> old(free) == {} && Abs() == old(Abs())
      ensures pml4.Some? ==> pml4.value in old(free) && Abs() == CloneRoot(old(Abs()), base, pml4.value)
      ensures old(Valid()) ==> Valid()
    {
      ghost var m := Abs();
      pml4 := GetZeroPage();
      if pml4.Some? {
        pages := pages[pml4.value := pages[base]];
        at := at[pml4.value := Pos(Some(pml4.value), 4, 0)];
        assert pages == m.pages[pml4.value := m.pages[base]];
        CloneTree(m, base, pml4.value);
        if SpacesOk(m, data, kernel) { CloneKeepsSpaces(m, base, pml4.value, data, kernel); }
      }
    }

    /** pml4_for_each(), pdp_for_each(), pgdir_for_each() and pt_for_each(), for levels 4 to 1: calls
        func for the present leaves below f in order, until one call returns false. */
    method ForEach(f: Frame, level: nat, prefix: nat, func: Leaf -> bool) returns (ok: bool, visits: seq<Leaf>)
      requires TreeOk(Abs()) && f in at && at[f].level == level
      ensures Saw(Abs(), f, level, prefix, ENTRIES, func, ok, visits)
      decreases level, 1
    {
      ghost var m := Abs();
      assert TableOk(m, f);
      ok, visits := true, [];
      var i := 0;
      while i < ENTRIES
        invariant 0 <= i <= ENTRIES && Saw(m, f, level, prefix, i, func, true, visits)
      {
        var more, seen := Visit(f, level, prefix, i, func);
        SawNext(m, f, level, prefix, i, func, visits, more, seen);
        visits := visits + seen;
        i := i + 1;
        if !more {
          SawAll(m, f, level, prefix, i, ENTRIES, func, visits);
          return false, visits;
        }
      }
    }

    /** The body of those functions' loops. */
    method Visit(f: Frame, level: nat, prefix: nat, i: nat, func: Leaf -> bool) returns (more: bool, seen: seq<Leaf>)
      requires TreeOk(Abs()) && f in at && at[f].level == level && level > 0 && i < ENTRIES
      ensures SawAt(Abs(), f, level, prefix, i, func, more, seen)
      decreases level, 0
    {
      ghost var m := Abs();
      assert TableOk(m, f);
      var e := pages[f][i];
      if !Present(e) {
        more, seen := true, [];
        SawNothing(m, f, level, prefix, i, func);
      } else if level == 1 {
        var l := Leaf(Slot(f, i), (prefix * 512 + i) * 4096);
        more, seen := func(l), [l];
        SawOne(m, f, prefix, i, level, func);
      } else {
        ChildTable(m, f, i);
        more, seen := ForEach(Target(e), level - 1, prefix * 512 + i, func);
        SawBelow(m, f, level, prefix, i, func, more, seen);
      }
    }

    /** pdpe_destroy(), pgdir_destroy() and pt_destroy(), for levels 3 to 1: frees f and everything
        below it.  Every call of FreePage() is for a page that is not free. */
    method Destroy(f: Frame, level: nat, ghost own: map<Frame, Pos>)
      requires f in own && own[f].level == level && 0 < level < 4 && Alive(Abs(), own, own[f])
      modifies `pages, `free
      ensures Freed(old(Abs()), Abs(), Nodes(old(Abs()), f, level))
      decreases level, 1
    {
      ghost var m := Abs();
      var i := 0;
      while i < ENTRIES
        invariant 0 <= i <= ENTRIES && Freed(m, Abs(), Reached(m, f, level, i))
      {
        FreedSpares(m, Abs(), own, f, level, i);
        DestroyAt(f, level, i, own, m);
        i := i + 1;
      }
      FreedSpares(m, Abs(), own, f, level, i);
      ghost var m1 := Abs();
      ghost var filled := FreePage(f);
      FreedTrans(m, m1, Abs(), Reached(m, f, level, ENTRIES), {f});
    }

    /** The body of those functions' loops. */
    method DestroyAt(f: Frame, level: nat, i: nat, ghost own: map<Frame, Pos>, ghost m: Mem)
      requires f in own && own[f].level == level && 0 < level < 4 && i < ENTRIES && Alive(m, own, own[f]) && NodeOk(m, own, f)
      requires f !in Reached(m, f, level, i) && Freed(m, Abs(), Reached(m, f, level, i)) && Untouched(m, Abs(), own, ChildPos(own[f], i))
      modifies `pages, `free
      ensures Freed(m, Abs(), Reached(m, f, level, i + 1))
      decreases level, 0
    {
      ghost var m1 := Abs();
      ReachedGrows(m, f, level, i);
      var e := pages[f][i];
      assert e == Word(m, f, i);
      if Present(e) {
        var c := Target(e);
        assert LeadsTo(own, f, i, c);
        ChildAlive(m, own, own[f], i);
        AliveUntouched(m, m1, own, ChildPos(own[f], i));
        ReachedUntouched(m, m1, own, c, level - 1, ENTRIES);
        if level == 1 {
          assert NodeOk(m1, own, c);
          ghost var filled := FreePage(c);
        } else {
          Destroy(c, level - 1, own);
        }
        assert Freed(m1, Abs(), Nodes(m, c, level - 1));
        FreedTrans(m, m1, Abs(), Reached(m, f, level, i), Nodes(m, c, level - 1));
      }
    }

    /** pdpe_destroy() */
    method DestroyTop(f: Frame, ghost own: map<Frame, Pos>, ghost level: nat)
      requires level == 3 && f in own && own[f].level == level && Alive(Abs(), own, own[f])
      modifies `pages, `free
      ensures Freed(old(Abs()), Abs(), Nodes(old(Abs()), f, level))
    {
      Destroy(f, 3, own);
    }

    /** The first part of pml4_destroy(): frees the tables and frames below entry 0. */
    method DestroyUser(pml4: Frame)
      requires Valid() && IsRoot(Abs(), pml4)
      modifies `pages, `free
      ensures Freed(old(Abs()), Abs(), Gone(old(Abs()), pml4) - {pml4}) && pml4 !in free
    {
      ghost var m := Abs();
      assert TableOk(m, pml4);
      var e := pages[pml4][0];
      if Present(e) {
        TopChild(m, data, pml4);
        RootApart(m, data, pml4);
        ghost var level := at[Target(e)].level;
        DestroyTop(Target(e), Owners(m, data), level);
      }
    }

    /** pml4_destroy(): every other space is there afterwards and maps what it mapped. */
    method DestroyAll(root: Option<Frame>)
      requires Valid() && (root.Some? ==> IsRoot(Abs(), root.value))
      modifies this
      ensures Valid() && kernel == old(kernel)
      ensures root.None? ==> Abs() == old(Abs())
      ensures root.Some? ==> TakenDown(old(Abs()), Abs(), root.value) && SameMappings(old(Abs()), Abs(), root.value)
      ensures root.Some? ==> GivenBack(old(Abs()), Abs(), root.value)
    {
      if root.None? { return; }
      ghost var m, d := Abs(), data;
      DestroyUser(root.value);
      ghost var m1 := Abs();
      ghost var filled := FreePage(root.value);
      FreedTrans(m, m1, Abs(), Gone(m, root.value) - {root.value}, {root.value});
      assert Gone(m, root.value) - {root.value} + {root.value} == Gone(m, root.value);
      at := at - Gone(m, root.value);
      data := data - Gone(m, root.value);
      LeftSpaces(m, Abs(), d, root.value, kernel);
    }
  }
}
