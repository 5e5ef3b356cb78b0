/** The four-level page tables of threads/mmu.c. */
module PageTables {
  import opened Basics

  /** A page, named by its physical frame number; ptov() and vtop() move between it and an address. */
  type Frame = nat

  const ENTRIES: nat := 512
  const KERN_BASE: nat := 0x8004000000
  const PTE_P: nat := 1
  const PTE_W: nat := 2
  const PTE_U: nat := 4

  /** One word of one table. */
  datatype Slot = Slot(table: Frame, index: nat)

  /** Where a table belongs: the space it is private to, if any, its level (4 for a PML4, 1 for
      a page table), and the index bits that all virtual pages below it share. */
  datatype Pos = Pos(space: Option<Frame>, level: nat, prefix: nat)

  /** Page contents as words, the free pages, and the position of every table. */
  datatype Mem = Mem(pages: map<Frame, seq<nat>>, free: set<Frame>, at: map<Frame, Pos>)

  predicate Present(e: nat) {
    e % 2 == 1
  }

  /** The R/W bit. */
  predicate Writable(e: nat) {
    e / 2 % 2 == 1
  }

  /** The U/S bit. */
  predicate User(e: nat) {
    e / 4 % 2 == 1
  }

  /** The frame PTE_ADDR(e) addresses. */
  function Target(e: nat): Frame {
    e / PGSIZE
  }

  /** The virtual page number with its k lowest groups of nine bits dropped. */
  function Anc(vpn: nat, k: nat): nat {
    if k == 0 then vpn else Anc(vpn, k - 1) / ENTRIES
  }

  /** PTX, PDX, PDPE and PML4, for levels 1 to 4. */
  function Index(vpn: nat, level: nat): nat
    requires level > 0
  {
    Anc(vpn, level - 1) % ENTRIES
  }

  /** The bit fields of pte.h. */
  lemma IndexBits(va: nat)
    ensures Index(va / PGSIZE, 1) == va / 0x1000 % 0x200
    ensures Index(va / PGSIZE, 2) == va / 0x200000 % 0x200
    ensures Index(va / PGSIZE, 3) == va / 0x40000000 % 0x200
    ensures Index(va / PGSIZE, 4) == va / 0x8000000000 % 0x200
  {
  }

  function Word(m: Mem, f: Frame, i: nat): nat {
    if f in m.pages && i < |m.pages[f]| then m.pages[f][i] else 0
  }

  /** pages with word i of page t set to w. */
  function Put(pages: map<Frame, seq<nat>>, t: Frame, i: nat, w: nat): map<Frame, seq<nat>>
    requires t in pages && i < |pages[t]|
  {
    var table: seq<nat> := pages[t][i := w];
    pages[t := table]
  }

  /** The position of the table that entry i of a table at p points to.  What is below
      entry 0 of a PML4 is private; what is below the others is shared by all spaces. */
  function ChildPos(p: Pos, i: nat): Pos
    requires p.level > 0
  {
    Pos(if p.level == 4 && i > 0 then None else p.space, p.level - 1, p.prefix * ENTRIES + i)
  }

  ghost predicate EntryOk(m: Mem, f: Frame, i: nat)
    requires f in m.at && m.at[f].level > 0
  {
    var e := Word(m, f, i);
    if Present(e) then Target(e) in m.at && m.at[Target(e)] == ChildPos(m.at[f], i) && Writable(e) && User(e) else e == 0
  }

  ghost predicate TableOk(m: Mem, f: Frame)
    requires f in m.at
  {
    var p := m.at[f];
    && f in m.pages && |m.pages[f]| == ENTRIES && f !in m.free
    && 1 <= p.level <= 4 && (p.level == 4 ==> p == Pos(Some(f), 4, 0))
    && (p.level > 1 ==> forall i :: 0 <= i < ENTRIES ==> EntryOk(m, f, i))
  }

  /** The tables form a forest: every entry above the last level leads to the table of its position, and
      leaves it to the last level what access is granted. */
  ghost predicate TreeOk(m: Mem) {
    forall f :: f in m.at ==> TableOk(m, f)
  }

  lemma ChildTable(m: Mem, f: Frame, i: nat)
    requires TreeOk(m) && f in m.at && m.at[f].level > 1 && i < ENTRIES && Present(Word(m, f, i))
    ensures var c := Target(Word(m, f, i)); c in m.at && m.at[c].level == m.at[f].level - 1
  {
    assert TableOk(m, f) && EntryOk(m, f, i);
  }

  // ----- looking up ----------------------------------------------------------------------

  /** The slot for vpn below the table f of the given level, if its tables exist. */
  function Lookup(m: Mem, f: Frame, level: nat, vpn: nat): Option<Slot>
    decreases level
  {
    if level <= 1 then Some(Slot(f, vpn % ENTRIES))
    else
      var e := Word(m, f, Index(vpn, level));
      if Present(e) then Lookup(m, Target(e), level - 1, vpn) else None
  }

  /** How many tables a walk that creates would have to add. */
  function Missing(m: Mem, f: Frame, level: nat, vpn: nat): nat
    decreases level
  {
    if level <= 1 then 0
    else
      var e := Word(m, f, Index(vpn, level));
      if Present(e) then Missing(m, Target(e), level - 1, vpn) else level - 1
  }

  /** What the address space of root maps vpn to: the entry, if it is present. */
  function Mapping(m: Mem, root: Frame, vpn: nat): Option<nat> {
    match Lookup(m, root, 4, vpn)
    case None => None
    case Some(s) => if Present(Word(m, s.table, s.index)) then Some(Word(m, s.table, s.index)) else None
  }

  /** A lookup ends in the page table whose position is that of vpn. */
  lemma {:induction false} LookupPos(m: Mem, f: Frame, level: nat, vpn: nat)
    requires TreeOk(m) && f in m.at && m.at[f].level == level && m.at[f].prefix == Anc(vpn, level)
    requires Lookup(m, f, level, vpn).Some?
    ensures var s := Lookup(m, f, level, vpn).value;
      && s.table in m.at && m.at[s.table].level == 1 && m.at[s.table].prefix == vpn / ENTRIES && s.index == vpn % ENTRIES
      && (level < 4 ==> m.at[s.table].space == m.at[f].space)
      && (level == 4 ==> m.at[s.table].space == if Index(vpn, 4) == 0 then Some(f) else None)
    decreases level
  {
    assert TableOk(m, f);
    if level == 1 {
      assert Anc(vpn, 1) == Anc(vpn, 0) / ENTRIES;
    } else {
      var i := Index(vpn, level);
      assert EntryOk(m, f, i);
      LookupPos(m, Target(Word(m, f, i)), level - 1, vpn);
    }
  }

  // ----- adding tables -------------------------------------------------------------------

  /** Nothing but the contents of free pages differs. */
  ghost predicate Same(m: Mem, m': Mem) {
    m'.free == m.free && m'.at == m.at && Agrees(m, m')
  }

  /** What entry i of the old table f may have become: itself, or a way to a new table. */
  ghost predicate Grown(m: Mem, m': Mem, f: Frame, i: nat)
    requires f in m.at
  {
    || Word(m', f, i) == Word(m, f, i)
    || (m.at[f].level > 1 && !Present(Word(m, f, i)) && Present(Word(m', f, i)) && Target(Word(m', f, i)) !in m.at)
  }

  /** A new table was a free page, is not a PML4 and leads to new tables only, and a new page table is empty. */
  ghost predicate Fresh(m: Mem, m': Mem, f: Frame, i: nat)
    requires f in m'.at
  {
    f in m.free && m'.at[f].level < 4 && (Present(Word(m', f, i)) ==> m'.at[f].level > 1 && Target(Word(m', f, i)) !in m.at)
  }

  /** m' is m with tables added, all of them from free pages. */
  ghost predicate Extended(m: Mem, m': Mem) {
    && m'.free <= m.free
    && (forall f :: f in m.at ==> f in m'.at && m'.at[f] == m.at[f])
    && (forall f, i :: f in m.at ==> Grown(m, m', f, i))
    && (forall f, i :: f in m'.at && f !in m.at ==> Fresh(m, m', f, i))
  }

  lemma ExtendedTrans(m: Mem, m1: Mem, m2: Mem)
    requires Extended(m, m1) && Extended(m1, m2)
    ensures Extended(m, m2)
  {
    forall f, i | f in m.at
      ensures Grown(m, m2, f, i)
    {
      assert Grown(m, m1, f, i) && Grown(m1, m2, f, i);
    }
    forall f, i | f in m2.at && f !in m.at
      ensures Fresh(m, m2, f, i)
    {
      if f in m1.at {
        assert Fresh(m, m1, f, i) && Grown(m1, m2, f, i);
      } else {
        assert Fresh(m1, m2, f, i);
      }
    }
  }

  function Zeros(): seq<nat> {
    seq(ENTRIES, _ => 0)
  }

  function TableEntry(c: Frame): (w: nat)
    ensures Present(w) && Writable(w) && User(w) && Target(w) == c
  {
    LowFlags(c, 1, 1, 1);
    c * PGSIZE + PTE_U + PTE_W + PTE_P
  }

  /** The free page c becomes the table that entry i of t leads to. */
  function AddTable(m: Mem, t: Frame, i: nat, c: Frame): Mem
    requires t in m.pages && i < |m.pages[t]| && t in m.at && m.at[t].level > 0
  {
    Mem(Put(m.pages, t, i, TableEntry(c))[c := Zeros()], m.free - {c}, m.at[c := ChildPos(m.at[t], i)])
  }

  lemma AddTableWords(m: Mem, t: Frame, i: nat, c: Frame)
    requires TreeOk(m) && t in m.at && m.at[t].level > 1 && i < ENTRIES && !Present(Word(m, t, i)) && c in m.free
    ensures TableOk(m, t) && c !in m.at
    ensures var m' := AddTable(m, t, i, c);
      && (forall f, j :: f in m.at && !(f == t && j == i) ==> Word(m', f, j) == Word(m, f, j))
      && (forall j :: Word(m', c, j) == 0)
      && Word(m', t, i) == TableEntry(c) && Target(TableEntry(c)) == c && Present(TableEntry(c))
  {
    assert TableOk(m, t);
  }

  lemma AddTableOk(m: Mem, t: Frame, i: nat, c: Frame)
    requires TreeOk(m) && t in m.at && m.at[t].level > 1 && i < ENTRIES && !Present(Word(m, t, i)) && c in m.free
    ensures TableOk(m, t) && c !in m.at && TreeOk(AddTable(m, t, i, c))
  {
    AddTableWords(m, t, i, c);
    var m' := AddTable(m, t, i, c);
    forall f | f in m'.at
      ensures TableOk(m', f)
    {
      if f in m.at {
        assert TableOk(m, f);
        if m.at[f].level > 1 {
          forall j | 0 <= j < ENTRIES
            ensures EntryOk(m', f, j)
          {
            assert EntryOk(m, f, j);
          }
        }
      }
    }
  }

  lemma AddTableExtends(m: Mem, t: Frame, i: nat, c: Frame)
    requires TreeOk(m) && t in m.at && m.at[t].level > 1 && i < ENTRIES && !Present(Word(m, t, i)) && c in m.free
    ensures TableOk(m, t) && Extended(m, AddTable(m, t, i, c))
  {
    AddTableWords(m, t, i, c);
  }

  /** The table c below entry i of t becomes a free page again, with its contents overwritten. */
  function DropTable(m: Mem, t: Frame, i: nat, c: Frame, poison: seq<nat>): Mem
    requires t in m.pages && i < |m.pages[t]|
  {
    Mem(Put(m.pages, t, i, 0)[c := poison], m.free + {c}, m.at - {c})
  }

  /** A failed walk that takes back the table it added leaves everything as it was. */
  lemma DropUndoesAdd(m: Mem, m1: Mem, t: Frame, i: nat, c: Frame, poison: seq<nat>)
    requires TreeOk(m) && t in m.at && m.at[t].level > 1 && i < ENTRIES && !Present(Word(m, t, i)) && c in m.free
    requires TableOk(m, t) && Same(AddTable(m, t, i, c), m1)
    ensures t in m1.pages && i < |m1.pages[t]| && Same(m, DropTable(m1, t, i, c, poison))
  {
    AddTableWords(m, t, i, c);
    assert EntryOk(m, t, i);
    var m' := DropTable(m1, t, i, c, poison);
    assert m'.at == m.at;
    assert m'.pages[t] == m.pages[t];
  }

  // ----- private tables ----------------------------------------------------------------------

  /** Entry i of the table f leads to the table c. */
  predicate Parent(m: Mem, f: Frame, i: nat, c: Frame) {
    f in m.at && m.at[f].level > 1 && i < ENTRIES && Present(Word(m, f, i)) && Target(Word(m, f, i)) == c
  }

  predicate Private(m: Mem, f: Frame) {
    f in m.at && m.at[f].space.Some?
  }

  /** A position in a space has one table at most, and a table that is not a PML4 has a parent. */
  ghost predicate PrivateOk(m: Mem) {
    && (forall f, g :: Private(m, f) && g in m.at && m.at[f] == m.at[g] ==> f == g)
    && (forall c :: Private(m, c) && m.at[c].level < 4 ==> exists f, i :: Parent(m, f, i, c))
  }

  lemma ParentPos(m: Mem, f: Frame, i: nat, c: Frame)
    requires TreeOk(m) && Parent(m, f, i, c)
    ensures c in m.at && m.at[c] == ChildPos(m.at[f], i) && m.at[f].level <= 4
  {
    assert TableOk(m, f) && EntryOk(m, f, i);
  }

  /** Two tables with the same position in a space are children of the same entry. */
  lemma SameChild(m: Mem, f: Frame, i: nat, g: Frame, j: nat)
    requires TreeOk(m) && PrivateOk(m) && f in m.at && g in m.at && 0 < m.at[f].level && 0 < m.at[g].level && i < ENTRIES && j < ENTRIES
    requires ChildPos(m.at[f], i) == ChildPos(m.at[g], j) && ChildPos(m.at[f], i).space.Some?
    ensures f == g && i == j
  {
    assert TableOk(m, f) && TableOk(m, g);
    assert m.at[f].prefix == m.at[g].prefix && i == j;
    assert Private(m, f);
  }

  lemma AddTablePrivate(m: Mem, t: Frame, i: nat, c: Frame)
    requires TreeOk(m) && PrivateOk(m) && t in m.at && m.at[t].level > 1 && i < ENTRIES && !Present(Word(m, t, i)) && c in m.free
    ensures TableOk(m, t) && PrivateOk(AddTable(m, t, i, c))
  {
    AddTableWords(m, t, i, c);
    var m' := AddTable(m, t, i, c);
    forall g | g in m.at && ChildPos(m.at[t], i).space.Some? && m.at[g].level < 4
      ensures m.at[g] != ChildPos(m.at[t], i)
    {
      if m.at[g] == ChildPos(m.at[t], i) {
        assert Private(m, g);
        var f, j :| Parent(m, f, j, g);
        ParentPos(m, f, j, g);
        SameChild(m, t, i, f, j);
      }
    }
    forall d | Private(m', d) && m'.at[d].level < 4
      ensures exists f, j :: Parent(m', f, j, d)
    {
      if d == c {
        assert Parent(m', t, i, c);
      } else {
        assert Private(m, d);
        var f, j :| Parent(m, f, j, d);
        assert Parent(m', f, j, d);
      }
    }
  }

  lemma SamePrivate(m: Mem, m': Mem)
    requires PrivateOk(m) && Same(m, m')
    ensures PrivateOk(m')
  {
    forall d | Private(m', d) && m'.at[d].level < 4
      ensures exists f, j :: Parent(m', f, j, d)
    {
      assert Private(m, d);
      var f, j :| Parent(m, f, j, d);
      assert Parent(m', f, j, d);
    }
    forall f, g | Private(m', f) && g in m'.at && m'.at[f] == m'.at[g]
      ensures f == g
    {
      assert Private(m, f);
    }
  }

  lemma SameTree(m: Mem, m': Mem)
    requires TreeOk(m) && Same(m, m')
    ensures TreeOk(m')
  {
    forall f | f in m'.at
      ensures TableOk(m', f)
    {
      assert TableOk(m, f);
      if m.at[f].level > 1 {
        forall i | 0 <= i < ENTRIES
          ensures EntryOk(m', f, i)
        {
          assert EntryOk(m, f, i);
        }
      }
    }
  }

  // ----- what a walk does ------------------------------------------------------------------

  /** A walk finds the slot, or adds exactly the tables that are missing, or fails for lack of
      memory or of permission to create and leaves tree and allocator as they were. */
  ghost predicate Walked(m: Mem, m': Mem, f: Frame, level: nat, vpn: nat, create: bool, pte: Option<Slot>) {
    && TreeOk(m') && (PrivateOk(m) ==> PrivateOk(m'))
    && (pte.Some? <==> Lookup(m, f, level, vpn).Some? || (create && |m.free| >= Missing(m, f, level, vpn)))
    && (pte.None? ==> Same(m, m'))
    && (pte.Some? ==> Extended(m, m') && Lookup(m', f, level, vpn) == pte && |m'.free| == |m.free| - Missing(m, f, level, vpn))
    && (Lookup(m, f, level, vpn).Some? ==> m' == m)
  }

  /** The entry for vpn in f leads to the table c. */
  lemma WalkedBelow(m: Mem, m': Mem, f: Frame, level: nat, vpn: nat, create: bool, c: Frame, pte: Option<Slot>)
    requires TreeOk(m) && f in m.at && level > 1
    requires Present(Word(m, f, Index(vpn, level))) && Target(Word(m, f, Index(vpn, level))) == c
    requires Walked(m, m', c, level - 1, vpn, create, pte)
    ensures Walked(m, m', f, level, vpn, create, pte)
  {
    if pte.Some? { assert Grown(m, m', f, Index(vpn, level)); }
  }

  lemma NewTableMissing(m: Mem, c: Frame, level: nat, vpn: nat)
    requires level > 0 && forall i :: Word(m, c, i) == 0
    ensures Missing(m, c, level, vpn) == level - 1 && (Lookup(m, c, level, vpn).Some? <==> level == 1)
  {
  }

  /** The entry for vpn in f was not present, and the new table c was put there. */
  lemma WalkedNew(m: Mem, m': Mem, f: Frame, level: nat, vpn: nat, c: Frame, pte: Option<Slot>)
    requires TreeOk(m) && f in m.at && m.at[f].level == level > 1 && !Present(Word(m, f, Index(vpn, level))) && c in m.free
    requires TableOk(m, f) && Walked(AddTable(m, f, Index(vpn, level), c), m', c, level - 1, vpn, true, pte) && pte.Some?
    ensures Walked(m, m', f, level, vpn, true, pte)
  {
    var i := Index(vpn, level);
    var m1 := AddTable(m, f, i, c);
    AddTableWords(m, f, i, c);
    AddTableExtends(m, f, i, c);
    if PrivateOk(m) { AddTablePrivate(m, f, i, c); }
    ExtendedTrans(m, m1, m');
    NewTableMissing(m1, c, level - 1, vpn);
    assert Grown(m1, m', f, i);
  }

  lemma WalkedFails(m: Mem, m': Mem, m1: Mem, f: Frame, level: nat, vpn: nat, c: Frame)
    requires TreeOk(m) && f in m.at && m.at[f].level == level > 1 && !Present(Word(m, f, Index(vpn, level))) && c in m.free
    requires TableOk(m, f) && Walked(AddTable(m, f, Index(vpn, level), c), m1, c, level - 1, vpn, true, None)
    requires Same(m, m')
    ensures Walked(m, m', f, level, vpn, true, None)
  {
    var i := Index(vpn, level);
    AddTableWords(m, f, i, c);
    NewTableMissing(AddTable(m, f, i, c), c, level - 1, vpn);
    SameTree(m, m');
    if PrivateOk(m) { SamePrivate(m, m'); }
  }

  // ----- the map a tree stands for -----------------------------------------------------------

  lemma {:induction false} LookupNew(m: Mem, m': Mem, f: Frame, level: nat, vpn: nat)
    requires TreeOk(m') && Extended(m, m') && f in m'.at && f !in m.at && m'.at[f].level == level
    requires Lookup(m', f, level, vpn).Some?
    ensures var s := Lookup(m', f, level, vpn).value; !Present(Word(m', s.table, s.index))
    decreases level
  {
    var i := Index(vpn, level);
    assert TableOk(m', f) && Fresh(m, m', f, i);
    if level > 1 {
      assert EntryOk(m', f, i);
      LookupNew(m, m', Target(Word(m', f, i)), level - 1, vpn);
    }
  }

  lemma {:induction false} LookupOld(m: Mem, m': Mem, f: Frame, level: nat, vpn: nat)
    requires TreeOk(m) && TreeOk(m') && Extended(m, m') && f in m.at && m.at[f].level == level
    ensures Lookup(m, f, level, vpn).Some? ==>
      Lookup(m', f, level, vpn) == Lookup(m, f, level, vpn) &&
      var s := Lookup(m, f, level, vpn).value; Word(m', s.table, s.index) == Word(m, s.table, s.index)
    ensures Lookup(m, f, level, vpn).None? && Lookup(m', f, level, vpn).Some? ==>
      var s := Lookup(m', f, level, vpn).value; !Present(Word(m', s.table, s.index))
    decreases level
  {
    var i := Index(vpn, level);
    assert TableOk(m, f) && TableOk(m', f) && Grown(m, m', f, i);
    if level > 1 {
      assert EntryOk(m, f, i) && EntryOk(m', f, i);
      var e := Word(m', f, i);
      if Present(Word(m, f, i)) {
        LookupOld(m, m', Target(e), level - 1, vpn);
      } else if Present(e) && Lookup(m', f, level, vpn).Some? {
        LookupNew(m, m', Target(e), level - 1, vpn);
      }
    }
  }

  /** Walking, with or without creating, never changes what any address space maps. */
  lemma WalkKeepsMappings(m: Mem, m': Mem, f: Frame, level: nat, vpn: nat, create: bool, pte: Option<Slot>, root: Frame, other: nat)
    requires TreeOk(m) && Walked(m, m', f, level, vpn, create, pte) && root in m.at && m.at[root].level == 4
    ensures Mapping(m', root, other) == Mapping(m, root, other)
  {
    if pte.Some? {
      LookupOld(m, m', root, 4, other);
    } else {
      LookupSame(m, m', root, 4, other);
    }
  }

  /** Every table of m has the same contents in m'. */
  ghost predicate Agrees(m: Mem, m': Mem) {
    forall f :: f in m.at ==> f in m'.pages && f in m.pages && m'.pages[f] == m.pages[f]
  }

  lemma {:induction false} LookupSame(m: Mem, m': Mem, f: Frame, level: nat, vpn: nat)
    requires TreeOk(m) && Agrees(m, m') && f in m.at && m.at[f].level == level
    ensures Lookup(m', f, level, vpn) == Lookup(m, f, level, vpn)
    ensures Lookup(m, f, level, vpn).Some? ==>
      var s := Lookup(m, f, level, vpn).value; Word(m', s.table, s.index) == Word(m, s.table, s.index)
    decreases level
  {
    assert TableOk(m, f);
    if level > 1 {
      var i := Index(vpn, level);
      assert EntryOk(m, f, i);
      if Present(Word(m, f, i)) { LookupSame(m, m', Target(Word(m, f, i)), level - 1, vpn); }
    }
  }

  /** The pages of the 2^48 bytes that the four indices reach. */
  const VPNS: nat := 0x1000000000

  lemma AncTop(vpn: nat)
    requires vpn < VPNS
    ensures Anc(vpn, 4) == 0
  {
    assert Anc(vpn, 1) == vpn / 512;
    assert Anc(vpn, 2) == vpn / 512 / 512;
    assert Anc(vpn, 3) == vpn / 512 / 512 / 512;
  }

  /** Below 2^39 the PML4 index is 0. */
  lemma AncUser(vpn: nat)
    requires vpn < 0x8000000
    ensures Index(vpn, 4) == 0
  {
    assert Anc(vpn, 1) == vpn / 512;
    assert Anc(vpn, 2) == vpn / 512 / 512;
  }

  /** Distinct pages have distinct slots; two spaces share a slot only above entry 0 of the PML4. */
  lemma DistinctSlots(m: Mem, r1: Frame, v1: nat, r2: Frame, v2: nat)
    requires TreeOk(m) && r1 in m.at && m.at[r1].level == 4 && r2 in m.at && m.at[r2].level == 4
    requires v1 < VPNS && v2 < VPNS
    requires Lookup(m, r1, 4, v1).Some? && Lookup(m, r1, 4, v1) == Lookup(m, r2, 4, v2)
    ensures v1 == v2 && (r1 == r2 || Index(v1, 4) != 0)
  {
    assert TableOk(m, r1) && TableOk(m, r2);
    AncTop(v1);
    AncTop(v2);
    LookupPos(m, r1, 4, v1);
    LookupPos(m, r2, 4, v2);
  }

  /** Storing a word in a slot of a page table. */
  function Store(m: Mem, s: Slot, w: nat): Mem
    requires s.table in m.pages && s.index < |m.pages[s.table]|
  {
    Mem(Put(m.pages, s.table, s.index, w), m.free, m.at)
  }

  lemma StoreTree(m: Mem, s: Slot, w: nat)
    requires TreeOk(m) && s.table in m.at && m.at[s.table].level == 1 && s.index < ENTRIES
    ensures TableOk(m, s.table) && TreeOk(Store(m, s, w))
  {
    assert TableOk(m, s.table);
    var m' := Store(m, s, w);
    forall f | f in m'.at
      ensures TableOk(m', f)
    {
      assert TableOk(m, f);
      if m.at[f].level > 1 {
        forall i | 0 <= i < ENTRIES
          ensures EntryOk(m', f, i)
        {
          assert EntryOk(m, f, i);
        }
      }
    }
  }

  lemma StorePrivate(m: Mem, s: Slot, w: nat)
    requires PrivateOk(m) && s.table in m.at && m.at[s.table].level == 1 && s.table in m.pages && s.index < |m.pages[s.table]|
    ensures PrivateOk(Store(m, s, w))
  {
    var m' := Store(m, s, w);
    forall d | Private(m', d) && m'.at[d].level < 4
      ensures exists f, j :: Parent(m', f, j, d)
    {
      assert Private(m, d);
      var f, j :| Parent(m, f, j, d);
      assert Parent(m', f, j, d);
    }
    forall f, g | Private(m', f) && g in m'.at && m'.at[f] == m'.at[g]
      ensures f == g
    {
      assert Private(m, f);
    }
  }

  lemma {:induction false} LookupStore(m: Mem, s: Slot, w: nat, f: Frame, level: nat, vpn: nat)
    requires TreeOk(m) && s.table in m.at && m.at[s.table].level == 1 && TableOk(m, s.table) && s.index < ENTRIES
    requires f in m.at && m.at[f].level == level
    ensures Lookup(Store(m, s, w), f, level, vpn) == Lookup(m, f, level, vpn)
    decreases level
  {
    assert TableOk(m, f);
    if level > 1 {
      var i := Index(vpn, level);
      assert EntryOk(m, f, i);
      if Present(Word(m, f, i)) { LookupStore(m, s, w, Target(Word(m, f, i)), level - 1, vpn); }
    }
  }

  /** Storing through a slot changes the mapping of exactly the pages that the slot is for. */
  lemma StoreMapping(m: Mem, s: Slot, w: nat, root: Frame, vpn: nat)
    requires TreeOk(m) && s.table in m.at && m.at[s.table].level == 1 && TableOk(m, s.table) && s.index < ENTRIES
    requires root in m.at && m.at[root].level == 4
    ensures Mapping(Store(m, s, w), root, vpn) ==
      if Lookup(m, root, 4, vpn) == Some(s) then (if Present(w) then Some(w) else None) else Mapping(m, root, vpn)
  {
    LookupStore(m, s, w, root, 4, vpn);
  }

  /** w is present, leads to the frame, and grants user access, for writing if rw; all other flags are clear. */
  predicate Grants(w: nat, frame: Frame, rw: bool) {
    Present(w) && Target(w) == frame && User(w) && (Writable(w) <==> rw) && w / 8 % 512 == 0
  }

  lemma LowBit(y: nat, b: nat)
    requires b < 2
    ensures (2 * y + b) % 2 == b && (2 * y + b) / 2 == y
  {
  }

  lemma Quarter(x: nat)
    ensures x / 4 == x / 2 / 2 && x / 8 == x / 4 / 2 && x / 4096 == x / 8 / 512
  {
  }

  lemma LowFlags(frame: Frame, u: nat, w: nat, p: nat)
    requires u < 2 && w < 2 && p < 2
    ensures var e := frame * 4096 + 4 * u + 2 * w + p;
      e % 2 == p && e / 2 % 2 == w && e / 4 % 2 == u && e / 8 % 512 == 0 && e / 4096 == frame
  {
    var e := frame * 4096 + 4 * u + 2 * w + p;
    LowBit(frame * 2048 + 2 * u + w, p);
    LowBit(frame * 1024 + u, w);
    LowBit(frame * 512, u);
    Quarter(e);
    assert e == 2 * (frame * 2048 + 2 * u + w) + p;
    assert frame * 2048 + 2 * u + w == 2 * (frame * 1024 + u) + w;
    assert frame * 1024 + u == 2 * (frame * 512) + u;
  }

  /** The leaf entry that pml4_set_page() writes. */
  function UserEntry(frame: Frame, rw: bool): (w: nat)
    ensures Grants(w, frame, rw)
  {
    LowFlags(frame, 1, if rw then 1 else 0, 1);
    frame * PGSIZE + PTE_P + (if rw then PTE_W else 0) + PTE_U
  }

  ghost predicate IsRoot(m: Mem, r: Frame) {
    r in m.at && m.at[r].level == 4
  }

  /** m' is m with w stored for vpn of root: every page of every space that reads its entry
      from the slot of vpn now maps to w, and no other mapping has changed. */
  ghost predicate Remapped(m: Mem, m': Mem, root: Frame, vpn: nat, w: nat) {
    forall r: Frame, v: nat :: IsRoot(m, r) && v < VPNS ==>
      Mapping(m', r, v) ==
        if Lookup(m', r, 4, v) == Lookup(m', root, 4, vpn) then (if Present(w) then Some(w) else None) else Mapping(m, r, v)
  }

  lemma SlotOk(m: Mem, root: Frame, vpn: nat)
    requires TreeOk(m) && IsRoot(m, root) && vpn < VPNS && Lookup(m, root, 4, vpn).Some?
    ensures var s := Lookup(m, root, 4, vpn).value;
      s.table in m.at && m.at[s.table].level == 1 && TableOk(m, s.table) && s.index < ENTRIES
  {
    assert TableOk(m, root);
    AncTop(vpn);
    LookupPos(m, root, 4, vpn);
  }

  lemma StoreRemaps(m: Mem, m1: Mem, root: Frame, vpn: nat, create: bool, s: Slot, w: nat)
    requires TreeOk(m) && IsRoot(m, root) && vpn < VPNS && Walked(m, m1, root, 4, vpn, create, Some(s))
    ensures s.table in m1.at && m1.at[s.table].level == 1 && TableOk(m1, s.table) && s.index < ENTRIES
    ensures TreeOk(Store(m1, s, w)) && Remapped(m, Store(m1, s, w), root, vpn, w)
  {
    SlotOk(m1, root, vpn);
    StoreTree(m1, s, w);
    LookupStore(m1, s, w, root, 4, vpn);
    forall r: Frame, v: nat | IsRoot(m, r) && v < VPNS
      ensures Mapping(Store(m1, s, w), r, v) ==
        if Lookup(Store(m1, s, w), r, 4, v) == Lookup(Store(m1, s, w), root, 4, vpn) then (if Present(w) then Some(w) else None) else Mapping(m, r, v)
    {
      WalkKeepsMappings(m, m1, root, 4, vpn, create, Some(s), r, v);
      StoreMapping(m1, s, w, r, v);
      LookupStore(m1, s, w, r, 4, v);
    }
  }

  /** Below 2^39 an address space is private: a change there is seen at that page of that space only. */
  lemma PrivateBelow(m: Mem, m': Mem, root: Frame, vpn: nat, w: nat, r: Frame, v: nat)
    requires TreeOk(m') && IsRoot(m', root) && IsRoot(m', r) && IsRoot(m, r) && vpn < 0x8000000 && v < VPNS
    requires Lookup(m', root, 4, vpn).Some? && Remapped(m, m', root, vpn, w) && !(r == root && v == vpn)
    ensures Mapping(m', r, v) == Mapping(m, r, v)
  {
    AncUser(vpn);
    if Lookup(m', r, 4, v) == Lookup(m', root, 4, vpn) {
      DistinctSlots(m', root, vpn, r, v);
    }
  }

  // ----- what all spaces share ---------------------------------------------------------------

  /** The addresses from 2^39 up to KERN_BASE are below entry 1 of the PML4. */
  lemma AncShared(vpn: nat)
    requires 0x8000000 <= vpn < 0x8004000
    ensures Index(vpn, 4) == 1
  {
    assert Anc(vpn, 1) == vpn / 512;
    assert Anc(vpn, 2) == vpn / 512 / 512;
    assert Anc(vpn, 3) == vpn / 512 / 512 / 512;
  }

  /** Every space has the kernel's entry e for the addresses from 2^39 on. */
  ghost predicate KernelShared(m: Mem, e: nat) {
    Present(e) && forall r :: IsRoot(m, r) ==> Word(m, r, 1) == e
  }

  lemma WalkKeepsKernel(m: Mem, m': Mem, f: Frame, level: nat, vpn: nat, create: bool, pte: Option<Slot>, e: nat)
    requires TreeOk(m) && Walked(m, m', f, level, vpn, create, pte) && KernelShared(m, e)
    ensures KernelShared(m', e)
  {
    if pte.Some? {
      forall r | r in m'.at && r !in m.at
        ensures m'.at[r].level < 4
      {
        assert Fresh(m, m', r, 1);
      }
    }
    forall r | IsRoot(m', r)
      ensures Word(m', r, 1) == e
    {
      if pte.None? {
        assert IsRoot(m, r) && Word(m', r, 1) == Word(m, r, 1);
      } else {
        assert IsRoot(m, r) && Grown(m, m', r, 1);
      }
    }
  }

  lemma StoreKeepsKernel(m: Mem, s: Slot, w: nat, e: nat)
    requires s.table in m.at && m.at[s.table].level == 1 && s.table in m.pages && s.index < |m.pages[s.table]| && KernelShared(m, e)
    ensures KernelShared(Store(m, s, w), e)
  {
    forall r | IsRoot(Store(m, s, w), r)
      ensures Word(Store(m, s, w), r, 1) == e
    {
      assert IsRoot(m, r) && Word(Store(m, s, w), r, 1) == Word(m, r, 1);
    }
  }

  lemma SameKernel(m: Mem, m': Mem, e: nat)
    requires Same(m, m') && KernelShared(m, e)
    ensures KernelShared(m', e)
  {
    forall r | IsRoot(m', r)
      ensures Word(m', r, 1) == e
    {
      assert IsRoot(m, r) && Word(m', r, 1) == Word(m, r, 1);
    }
  }

  /** Two spaces with the same entry of the PML4 have the same mappings below it. */
  lemma SameBelow(m: Mem, r1: Frame, r2: Frame, vpn: nat)
    requires Word(m, r1, Index(vpn, 4)) == Word(m, r2, Index(vpn, 4))
    ensures Lookup(m, r1, 4, vpn) == Lookup(m, r2, 4, vpn) && Mapping(m, r1, vpn) == Mapping(m, r2, vpn)
  {
  }

  /** A change to a user page of one space that another space did not have already is not seen in the
      other if and only if the page is below 2^39, although is_user_vaddr() goes on to KERN_BASE. */
  lemma SharedExactly(m: Mem, m': Mem, root: Frame, vpn: nat, w: nat, r: Frame, e: nat)
    requires TreeOk(m') && IsRoot(m', root) && IsRoot(m', r) && IsRoot(m, r) && r != root && KernelShared(m', e)
    requires vpn < KERN_BASE / PGSIZE && Lookup(m', root, 4, vpn).Some? && Remapped(m, m', root, vpn, w)
    requires Mapping(m, r, vpn) != if Present(w) then Some(w) else None
    ensures Mapping(m', r, vpn) == Mapping(m, r, vpn) <==> vpn < 0x8000000
  {
    if vpn < 0x8000000 {
      PrivateBelow(m, m', root, vpn, w, r, vpn);
    } else {
      AncShared(vpn);
      SameBelow(m', r, root, vpn);
    }
  }

  // ----- what the processor allows -----------------------------------------------------------

  /** A user access to page vpn goes through, for writing if write: every entry on the way allows it. */
  predicate Allows(m: Mem, f: Frame, level: nat, vpn: nat, write: bool)
    decreases level
  {
    level == 0 || (
      var e := Word(m, f, Index(vpn, level));
      Present(e) && User(e) && (write ==> Writable(e)) && Allows(m, Target(e), level - 1, vpn, write))
  }

  lemma {:induction false} LookupAllows(m: Mem, f: Frame, level: nat, vpn: nat, write: bool)
    requires TreeOk(m) && f in m.at && m.at[f].level == level > 0
    ensures Allows(m, f, level, vpn, write) <==>
      match Lookup(m, f, level, vpn)
      case None => false
      case Some(s) => var e := Word(m, s.table, s.index); Present(e) && User(e) && (write ==> Writable(e))
    decreases level
  {
    assert TableOk(m, f);
    if level == 1 {
      assert Index(vpn, 1) == vpn % ENTRIES;
    } else {
      var i := Index(vpn, level);
      assert EntryOk(m, f, i);
      if Present(Word(m, f, i)) { LookupAllows(m, Target(Word(m, f, i)), level - 1, vpn, write); }
    }
  }

  /** The leaf alone decides: a page can be written if and only if its entry says so. */
  lemma LeafDecides(m: Mem, root: Frame, vpn: nat, write: bool)
    requires TreeOk(m) && IsRoot(m, root)
    ensures Allows(m, root, 4, vpn, write) <==>
      match Mapping(m, root, vpn)
      case None => false
      case Some(e) => User(e) && (write ==> Writable(e))
  {
    LookupAllows(m, root, m.at[root].level, vpn, write);
  }

  lemma GrantedAllows(m: Mem, root: Frame, vpn: nat, w: nat, frame: Frame, rw: bool)
    requires TreeOk(m) && IsRoot(m, root) && Mapping(m, root, vpn) == Some(w) && Grants(w, frame, rw)
    ensures Allows(m, root, 4, vpn, false) && (Allows(m, root, 4, vpn, true) <==> rw)
  {
    LeafDecides(m, root, vpn, false);
    LeafDecides(m, root, vpn, true);
  }

  // ----- a new address space -----------------------------------------------------------------

  /** The free page f becomes a PML4 with the entries of base. */
  function CloneRoot(m: Mem, base: Frame, f: Frame): Mem
    requires base in m.pages
  {
    Mem(m.pages[f := m.pages[base]], m.free - {f}, m.at[f := Pos(Some(f), 4, 0)])
  }

  lemma CloneTree(m: Mem, base: Frame, f: Frame)
    requires TreeOk(m) && IsRoot(m, base) && Word(m, base, 0) == 0 && f in m.free
    ensures TableOk(m, base) && TreeOk(CloneRoot(m, base, f)) && f !in m.at
  {
    assert TableOk(m, base);
    var m' := CloneRoot(m, base, f);
    forall g | g in m'.at
      ensures TableOk(m', g)
    {
      var h := if g == f then base else g;
      assert TableOk(m, h);
      if m.at[h].level > 1 {
        forall i | 0 <= i < ENTRIES
          ensures EntryOk(m', g, i)
        {
          assert EntryOk(m, h, i);
        }
      }
    }
  }

  lemma ClonePrivate(m: Mem, base: Frame, f: Frame)
    requires TreeOk(m) && PrivateOk(m) && IsRoot(m, base) && base in m.pages && f in m.free && f !in m.at
    ensures PrivateOk(CloneRoot(m, base, f))
  {
    var m' := CloneRoot(m, base, f);
    forall d | Private(m', d) && m'.at[d].level < 4
      ensures exists g, j :: Parent(m', g, j, d)
    {
      assert Private(m, d);
      var g, j :| Parent(m, g, j, d);
      assert Parent(m', g, j, d);
    }
    forall g, h | Private(m', g) && h in m'.at && m'.at[g] == m'.at[h]
      ensures g == h
    {
      if g != f && h != f { assert Private(m, g); }
      if g in m.at { assert TableOk(m, g); }
      if h in m.at { assert TableOk(m, h); }
    }
  }

  /** The new space maps nothing below 2^39 and what base maps above; all others are unchanged. */
  lemma CloneMappings(m: Mem, base: Frame, f: Frame, r: Frame, vpn: nat)
    requires TreeOk(m) && IsRoot(m, base) && Word(m, base, 0) == 0 && f in m.free && IsRoot(m, r)
    ensures TableOk(m, base)
    ensures Mapping(CloneRoot(m, base, f), f, vpn) == if Index(vpn, 4) == 0 then None else Mapping(m, base, vpn)
    ensures Mapping(CloneRoot(m, base, f), r, vpn) == Mapping(m, r, vpn)
  {
    CloneTree(m, base, f);
    var m' := CloneRoot(m, base, f);
    assert Agrees(m, m');
    LookupSame(m, m', r, 4, vpn);
    LookupSame(m, m', base, 4, vpn);
    assert Word(m', f, Index(vpn, 4)) == Word(m', base, Index(vpn, 4));
    SameBelow(m', f, base, vpn);
  }

  lemma CloneKeepsKernel(m: Mem, base: Frame, f: Frame, e: nat)
    requires IsRoot(m, base) && base in m.pages && KernelShared(m, e)
    ensures KernelShared(CloneRoot(m, base, f), e)
  {
    forall r | IsRoot(CloneRoot(m, base, f), r)
      ensures Word(CloneRoot(m, base, f), r, 1) == e
    {
      assert Word(CloneRoot(m, base, f), r, 1) == Word(m, if r == f then base else r, 1);
    }
  }

  // ----- two processes and the page at 2^39 ----------------------------------------------------

  function OneEntry(i: nat, w: nat): seq<nat> {
    seq(ENTRIES, j => if j == i then w else 0)
  }

  /** A base_pml4 in frame 0 with one table of each level below its entry 1, and two free pages. */
  function KernelMem(): Mem {
    Mem(map[0 := OneEntry(1, TableEntry(1)), 1 := OneEntry(0, TableEntry(2)), 2 := OneEntry(0, TableEntry(3)), 3 := Zeros()],
        {4, 5},
        map[0 := Pos(Some(0), 4, 0), 1 := Pos(None, 3, 1), 2 := Pos(None, 2, 512), 3 := Pos(None, 1, 262144)])
  }

  lemma KernelTree()
    ensures TreeOk(KernelMem()) && KernelShared(KernelMem(), TableEntry(1))
  {
    var m := KernelMem();
    forall f | f in m.at
      ensures TableOk(m, f)
    {
    }
  }

  /** The slots of the 512 pages from 2^39 on. */
  lemma KernelLookup(m: Mem, r: Frame, vpn: nat)
    requires 0x8000000 <= vpn < 0x8000200 && Word(m, r, 1) == TableEntry(1)
    requires Word(m, 1, 0) == TableEntry(2) && Word(m, 2, 0) == TableEntry(3)
    ensures Lookup(m, r, 4, vpn) == Some(Slot(3, vpn % ENTRIES))
  {
    AncShared(vpn);
    assert Anc(vpn, 1) == vpn / 512 == 0x40000 && Anc(vpn, 2) == 0x200;
    assert Index(vpn, 3) == 0 && Index(vpn, 2) == 0;
    assert Lookup(m, 2, 2, vpn) == Some(Slot(3, vpn % ENTRIES));
    assert Lookup(m, 1, 3, vpn) == Some(Slot(3, vpn % ENTRIES));
  }

  /** Two calls of pml4_create() have made the spaces 4 and 5. */
  function TwoSpaces(): Mem {
    CloneRoot(CloneRoot(KernelMem(), 0, 4), 0, 5)
  }

  lemma TwoSpacesTree()
    ensures TreeOk(TwoSpaces()) && KernelShared(TwoSpaces(), TableEntry(1))
  {
    KernelTree();
    CloneTree(KernelMem(), 0, 4);
    CloneKeepsKernel(KernelMem(), 0, 4, TableEntry(1));
    CloneTree(CloneRoot(KernelMem(), 0, 4), 0, 5);
    CloneKeepsKernel(CloneRoot(KernelMem(), 0, 4), 0, 5, TableEntry(1));
  }

  /** Storing an entry for the user page at 2^39 of space 4 maps that page in space 5 too. */
  lemma SharedExample(w: nat)
    requires Present(w)
    ensures TreeOk(TwoSpaces()) && KernelShared(TwoSpaces(), TableEntry(1))
    ensures 0x8000000 < KERN_BASE / PGSIZE && IsRoot(TwoSpaces(), 4) && IsRoot(TwoSpaces(), 5)
    ensures Lookup(TwoSpaces(), 4, 4, 0x8000000) == Some(Slot(3, 0)) && Mapping(TwoSpaces(), 5, 0x8000000) == None
    ensures 3 in TwoSpaces().pages && |TwoSpaces().pages[3]| > 0
    ensures Mapping(Store(TwoSpaces(), Slot(3, 0), w), 5, 0x8000000) == Some(w)
  {
    TwoSpacesTree();
    var m := TwoSpaces();
    KernelLookup(m, 4, 0x8000000);
    KernelLookup(m, 5, 0x8000000);
    KernelLookup(Store(m, Slot(3, 0), w), 5, 0x8000000);
  }

  // ----- flag bits ----------------------------------------------------------------------------

  /** word & ~(uint32_t) bit, where the complement is taken in 32 bits and then widened. */
  function ClearFlag(w: nat, bit: nat): nat
    requires bit > 0
  {
    var low := w % 0x1_0000_0000;
    if low / bit % 2 == 1 then low - bit else low
  }

  lemma DirtyInPage(c: nat, a: nat, b: nat)
    requires a < 0x20 && b < 0x80
    ensures var low := c * 0x1000 + a * 0x80 + b;
      low / 0x40 % 2 == b / 0x40 && low / 0x1000 == c && (b >= 0x40 ==> low >= 0x40 && (low - 0x40) / 0x1000 == c)
  {
    assert (c * 0x1000 + a * 0x80 + b) / 0x40 == c * 0x40 + a * 2 + b / 0x40;
  }

  lemma AccessedInPage(c: nat, a: nat, b: nat)
    requires a < 0x40 && b < 0x40
    ensures var low := c * 0x1000 + a * 0x40 + b;
      low / 0x20 % 2 == b / 0x20 && low / 0x1000 == c && (b >= 0x20 ==> low >= 0x20 && (low - 0x20) / 0x1000 == c)
  {
    assert (c * 0x1000 + a * 0x40 + b) / 0x20 == c * 0x80 + a * 2 + b / 0x20;
  }

  /** The flag of a word is that of its low half, and clearing it leaves the page number. */
  lemma FlagInWord(hi: nat, low: nat, bit: nat)
    requires low < 0x1_0000_0000 && (bit == 0x40 || bit == 0x20)
    ensures (hi * 0x1_0000_0000 + low) / bit % 2 == low / bit % 2
    ensures low / bit % 2 == 1 ==> low >= bit && (low - bit) / 0x1000 == low / 0x1000
  {
    var c, e := low / 0x1000, low % 0x1000;
    if bit == 0x40 {
      DirtyInPage(c, e / 0x80, e % 0x80);
      DirtyInPage(hi * 0x10_0000 + c, e / 0x80, e % 0x80);
    } else {
      AccessedInPage(c, e / 0x40, e % 0x40);
      AccessedInPage(hi * 0x10_0000 + c, e / 0x40, e % 0x40);
    }
  }

  /** Clearing the dirty (0x40) or accessed (0x20) bit keeps every other bit of the entry
      if and only if the entry fits in 32 bits. */
  lemma ClearFlagExact(w: nat, bit: nat)
    requires bit == 0x40 || bit == 0x20
    ensures ClearFlag(w, bit) == (if w / bit % 2 == 1 then w - bit else w) <==> w < 0x1_0000_0000
    ensures Target(ClearFlag(w, bit)) == Target(w) <==> w < 0x1_0000_0000
  {
    var hi, low := w / 0x1_0000_0000, w % 0x1_0000_0000;
    assert w == hi * 0x1_0000_0000 + low;
    FlagInWord(hi, low, bit);
    assert Target(ClearFlag(w, bit)) == low / 0x1000;
    assert Target(w) == hi * 0x10_0000 + low / 0x1000;
  }

  /** The entry of a dirty page in the frame at 4 GB comes to lead to frame 0. */
  lemma ClearFlagExample()
    ensures Target(0x1_0000_0067) == 0x10_0000 && ClearFlag(0x1_0000_0067, 0x40) == 0x27 && Target(0x27) == 0
  {
  }
}
