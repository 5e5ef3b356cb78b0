/** Which pages belong to an address space, and what is left when one is taken down. */
module PageOwners {
  import opened Basics
  import opened PageTables
  import opened PageSweeps

  /** Entry i of the page table f maps a page of a space to the frame g. */
  predicate Maps(m: Mem, f: Frame, i: nat, g: Frame) {
    Private(m, f) && m.at[f].level == 1 && i < ENTRIES && Present(Word(m, f, i)) && Target(Word(m, f, i)) == g
  }

  /** data has the frames that the pages of spaces are mapped to, each for one page only. */
  ghost predicate DataOk(m: Mem, data: map<Frame, Pos>) {
    && (forall g :: g in data ==> g !in m.free && g !in m.at && data[g].level == 0)
    && (forall f, i, g :: Maps(m, f, i, g) ==> g in data && data[g] == ChildPos(m.at[f], i))
  }

  /** Tables and frames. */
  ghost function Owners(m: Mem, data: map<Frame, Pos>): map<Frame, Pos> {
    m.at + data
  }

  // ----- what keeps it -----------------------------------------------------------------------

  lemma WalkKeepsData(m: Mem, m': Mem, f: Frame, level: nat, vpn: nat, create: bool, pte: Option<Slot>, data: map<Frame, Pos>)
    requires TreeOk(m) && Walked(m, m', f, level, vpn, create, pte) && DataOk(m, data)
    ensures DataOk(m', data)
  {
    if pte.Some? { NewTablesWereFree(m, m'); }
    forall t, i, g | Maps(m', t, i, g)
      ensures Maps(m, t, i, g) && m.at[t] == m'.at[t]
    {
      if pte.Some? { WalkKeepsLeaf(m, m', t, i); }
    }
  }

  lemma NewTablesWereFree(m: Mem, m': Mem)
    requires Extended(m, m')
    ensures forall t :: t in m'.at && t !in m.at ==> t in m.free
  {
    forall t | t in m'.at && t !in m.at
      ensures t in m.free
    {
      assert Fresh(m, m', t, 0);
    }
  }

  lemma WalkKeepsLeaf(m: Mem, m': Mem, t: Frame, i: nat)
    requires Extended(m, m') && t in m'.at && m'.at[t].level == 1 && Present(Word(m', t, i))
    ensures t in m.at && m.at[t] == m'.at[t] && Word(m', t, i) == Word(m, t, i)
  {
    if t !in m.at {
      NewTablesEmpty(m, m', t, i);
    } else {
      assert Grown(m, m', t, i);
    }
  }

  lemma NewTablesEmpty(m: Mem, m': Mem, t: Frame, i: nat)
    requires Extended(m, m') && t in m'.at && t !in m.at
    ensures m'.at[t].level == 1 ==> !Present(Word(m', t, i))
  {
    assert Fresh(m, m', t, i);
  }

  /** pml4_set_page() of a frame not in use adds it. */
  lemma StoreKeepsData(m: Mem, s: Slot, w: nat, data: map<Frame, Pos>)
    requires DataOk(m, data) && s.table in m.at && m.at[s.table].level == 1 && s.table in m.pages && s.index < |m.pages[s.table]|
    requires Target(w) !in data && Target(w) !in m.free && Target(w) !in m.at
    ensures DataOk(Store(m, s, w), data[Target(w) := ChildPos(m.at[s.table], s.index)])
  {
    forall f, i, g | Maps(Store(m, s, w), f, i, g) && !(f == s.table && i == s.index)
      ensures Maps(m, f, i, g)
    {
    }
  }

  lemma CloneKeepsData(m: Mem, base: Frame, f: Frame, data: map<Frame, Pos>)
    requires DataOk(m, data) && base in m.pages && f in m.free && f !in m.at
    ensures DataOk(CloneRoot(m, base, f), data)
  {
    forall t, i, g | Maps(CloneRoot(m, base, f), t, i, g)
      ensures Maps(m, t, i, g)
    {
    }
  }

  /** Storing an entry that is not present, as pml4_clear_page() does. */
  lemma ClearKeepsData(m: Mem, s: Slot, w: nat, data: map<Frame, Pos>)
    requires DataOk(m, data) && s.table in m.at && s.table in m.pages && s.index < |m.pages[s.table]| && !Present(w)
    ensures DataOk(Store(m, s, w), data)
  {
    forall f, i, g | Maps(Store(m, s, w), f, i, g)
      ensures Maps(m, f, i, g)
    {
    }
  }

  lemma SameData(m: Mem, m': Mem, data: map<Frame, Pos>)
    requires DataOk(m, data) && Same(m, m')
    ensures DataOk(m', data)
  {
    forall f, i, g | Maps(m', f, i, g)
      ensures Maps(m, f, i, g)
    {
    }
  }

  /** All of what the operations on spaces keep: e is the kernel's entry. */
  ghost predicate SpacesOk(m: Mem, data: map<Frame, Pos>, e: nat) {
    PrivateOk(m) && DataOk(m, data) && KernelShared(m, e)
  }

  lemma SameSpaces(m: Mem, m': Mem, data: map<Frame, Pos>, e: nat)
    requires SpacesOk(m, data, e) && Same(m, m')
    ensures SpacesOk(m', data, e)
  {
    SamePrivate(m, m');
    SameData(m, m', data);
    SameKernel(m, m', e);
  }

  ghost predicate Unused(m: Mem, data: map<Frame, Pos>, g: Frame) {
    g !in data && g !in m.free && g !in m.at
  }

  /** pml4_set_page(): a walk and the store of the entry for the frame g. */
  lemma SetKeepsSpaces(m: Mem, m1: Mem, root: Frame, vpn: nat, s: Slot, w: nat, data: map<Frame, Pos>, e: nat)
    requires TreeOk(m) && SpacesOk(m, data, e) && Walked(m, m1, root, 4, vpn, true, Some(s)) && Unused(m, data, Target(w))
    requires s.table in m1.at && m1.at[s.table].level == 1 && TableOk(m1, s.table) && s.index < ENTRIES
    ensures SpacesOk(Store(m1, s, w), data[Target(w) := ChildPos(m1.at[s.table], s.index)], e)
  {
    WalkKeepsData(m, m1, root, 4, vpn, true, Some(s), data);
    WalkKeepsKernel(m, m1, root, 4, vpn, true, Some(s), e);
    NewTablesWereFree(m, m1);
    StorePrivate(m1, s, w);
    StoreKeepsData(m1, s, w, data);
    StoreKeepsKernel(m1, s, w, e);
  }

  lemma ClearKeepsSpaces(m: Mem, s: Slot, w: nat, data: map<Frame, Pos>, e: nat)
    requires SpacesOk(m, data, e) && !Present(w)
    requires s.table in m.at && m.at[s.table].level == 1 && TableOk(m, s.table) && s.index < ENTRIES
    ensures SpacesOk(Store(m, s, w), data, e)
  {
    StorePrivate(m, s, w);
    ClearKeepsData(m, s, w, data);
    StoreKeepsKernel(m, s, w, e);
  }

  /** Page vpn of root, and no other, is unmapped; its entry lost the present bit only, and no other word of
      any table changed. */
  ghost predicate Cleared(m: Mem, m': Mem, root: Frame, vpn: nat) {
    var s := Lookup(m, root, 4, vpn);
    && Remapped(m, m', root, vpn, 0) && s.Some? && Lookup(m', root, 4, vpn) == s
    && Word(m', s.value.table, s.value.index) == Word(m, s.value.table, s.value.index) - 1
    && (forall f, i :: f in m.at && !(f == s.value.table && i == s.value.index) ==> Word(m', f, i) == Word(m, f, i))
  }

  lemma ClearRemaps(m: Mem, root: Frame, vpn: nat, s: Slot, w: nat, data: map<Frame, Pos>, e: nat)
    requires TreeOk(m) && IsRoot(m, root) && vpn < VPNS && Lookup(m, root, 4, vpn) == Some(s) && !Present(w)
    requires w == Word(m, s.table, s.index) - 1
    ensures s.table in m.at && TableOk(m, s.table) && s.index < ENTRIES
    ensures TreeOk(Store(m, s, w)) && Cleared(m, Store(m, s, w), root, vpn)
    ensures SpacesOk(m, data, e) ==> SpacesOk(Store(m, s, w), data, e)
  {
    WalkedNone(m, root, vpn, s);
    StoreRemaps(m, m, root, vpn, false, s, w);
    LookupStore(m, s, w, root, 4, vpn);
    assert Remapped(m, Store(m, s, w), root, vpn, 0);
    if SpacesOk(m, data, e) { ClearKeepsSpaces(m, s, w, data, e); }
  }

  /** A walk that finds its slot changes nothing. */
  lemma WalkedNone(m: Mem, root: Frame, vpn: nat, s: Slot)
    requires TreeOk(m) && Lookup(m, root, 4, vpn) == Some(s)
    ensures Walked(m, m, root, 4, vpn, false, Some(s))
  {
    assert Missing(m, root, 4, vpn) == 0;
  }

  lemma CloneKeepsSpaces(m: Mem, base: Frame, f: Frame, data: map<Frame, Pos>, e: nat)
    requires TreeOk(m) && SpacesOk(m, data, e) && IsRoot(m, base) && base in m.pages && f in m.free && f !in m.at
    ensures SpacesOk(CloneRoot(m, base, f), data, e)
  {
    ClonePrivate(m, base, f);
    CloneKeepsData(m, base, f, data);
    CloneKeepsKernel(m, base, f, e);
  }

  // ----- a space as a tree of pages -------------------------------------------------------------

  /** The pages of a space are as pml4_destroy() needs them. */
  lemma SpaceAlive(m: Mem, data: map<Frame, Pos>, root: Frame, q: Pos)
    requires TreeOk(m) && DataOk(m, data) && q.space == Some(root) && q.level < 4
    ensures Alive(m, Owners(m, data), q)
  {
    var own := Owners(m, data);
    forall f | f in own && Under(own[f], q)
      ensures NodeOk(m, own, f)
    {
      if f in m.at && f !in data { TableNode(m, data, f); }
    }
  }

  lemma TableNode(m: Mem, data: map<Frame, Pos>, f: Frame)
    requires TreeOk(m) && DataOk(m, data) && Private(m, f) && f !in data
    ensures NodeOk(m, Owners(m, data), f)
  {
    assert TableOk(m, f);
    forall i | 0 <= i < ENTRIES && Present(Word(m, f, i))
      ensures LeadsTo(Owners(m, data), f, i, Target(Word(m, f, i)))
    {
      if m.at[f].level == 1 {
        assert Maps(m, f, i, Target(Word(m, f, i)));
      } else {
        assert EntryOk(m, f, i);
      }
    }
  }

  /** What pml4_destroy() frees. */
  ghost function Gone(m: Mem, root: Frame): set<Frame> {
    var t := Target(Word(m, root, 0));
    (if Present(Word(m, root, 0)) && t in m.at then Nodes(m, t, m.at[t].level) else {}) + {root}
  }

  lemma TopChild(m: Mem, data: map<Frame, Pos>, root: Frame)
    requires TreeOk(m) && DataOk(m, data) && IsRoot(m, root) && Present(Word(m, root, 0))
    ensures var t, own := Target(Word(m, root, 0)), Owners(m, data);
      t in m.at && m.at[t].level == 3 && t in own && own[t] == m.at[t] == Pos(Some(root), 3, 0) && Alive(m, own, own[t])
  {
    assert TableOk(m, root) && EntryOk(m, root, 0);
    SpaceAlive(m, data, root, Pos(Some(root), 3, 0));
  }

  /** Every page freed but the PML4 is a page of the space, below the PML4. */
  lemma GoneOwned(m: Mem, data: map<Frame, Pos>, root: Frame, g: Frame)
    requires TreeOk(m) && DataOk(m, data) && IsRoot(m, root) && g in Gone(m, root) && g != root
    ensures g in Owners(m, data) && Owners(m, data)[g].space == Some(root) && Owners(m, data)[g].level <= 3
  {
    TopChild(m, data, root);
    var t := Target(Word(m, root, 0));
    NodesUnder(m, Owners(m, data), t, m.at[t].level, g);
  }

  /** The PML4 is not below itself. */
  lemma RootApart(m: Mem, data: map<Frame, Pos>, root: Frame)
    requires TreeOk(m) && DataOk(m, data) && IsRoot(m, root) && Present(Word(m, root, 0))
    ensures var t := Target(Word(m, root, 0));
      t in m.at && m.at[t].level == 3 && root !in Nodes(m, t, m.at[t].level) && Gone(m, root) - {root} == Nodes(m, t, m.at[t].level)
  {
    TopChild(m, data, root);
    var t := Target(Word(m, root, 0));
    if root in Nodes(m, t, m.at[t].level) { NodesUnder(m, Owners(m, data), t, m.at[t].level, root); }
  }

  /** Entry j of p, a table, leads to c. */
  ghost predicate Leads(m: Mem, own: map<Frame, Pos>, p: Frame, j: nat, c: Frame) {
    p in own && own[p].level > 0 && NodeOk(m, own, p) && j < ENTRIES && Present(Word(m, p, j)) && Target(Word(m, p, j)) == c
  }

  /** A page reached is the target of an entry of f or of another page reached. */
  lemma {:induction false} ReachedFrom(m: Mem, own: map<Frame, Pos>, f: Frame, level: nat, n: nat, c: Frame) returns (p: Frame, j: nat)
    requires f in own && own[f].level == level < 4 && Alive(m, own, own[f]) && n <= ENTRIES && c in Reached(m, f, level, n)
    ensures p in Reached(m, f, level, n) + {f} && Leads(m, own, p, j, c)
    decreases level, n
  {
    assert NodeOk(m, own, f);
    if c in Reached(m, f, level, n - 1) {
      p, j := ReachedFrom(m, own, f, level, n - 1, c);
    } else {
      var d := Target(Word(m, f, n - 1));
      assert c in ReachedAt(m, f, level, n - 1) && LeadsTo(own, f, n - 1, d);
      if c == d {
        p, j := f, n - 1;
      } else {
        ChildAlive(m, own, own[f], n - 1);
        p, j := NodesFrom(m, own, d, level - 1, c);
        assert p in ReachedAt(m, f, level, n - 1);
      }
    }
  }

  lemma {:induction false} NodesFrom(m: Mem, own: map<Frame, Pos>, f: Frame, level: nat, c: Frame) returns (p: Frame, j: nat)
    requires f in own && own[f].level == level < 4 && Alive(m, own, own[f]) && c in Nodes(m, f, level) && c != f
    ensures p in Nodes(m, f, level) && Leads(m, own, p, j, c)
    decreases level, ENTRIES + 1
  {
    p, j := ReachedFrom(m, own, f, level, ENTRIES, c);
  }

  /** A table that leads to a page that is freed is freed. */
  lemma GoneParent(m: Mem, data: map<Frame, Pos>, root: Frame, f: Frame, i: nat, c: Frame)
    requires TreeOk(m) && PrivateOk(m) && DataOk(m, data) && IsRoot(m, root) && c in Gone(m, root) && c != root
    requires f in m.at && m.at[f].level > 0 && i < ENTRIES && c in Owners(m, data) && Owners(m, data)[c] == ChildPos(m.at[f], i)
    ensures f in Gone(m, root)
  {
    var own, t := Owners(m, data), Target(Word(m, root, 0));
    TopChild(m, data, root);
    GoneOwned(m, data, root, c);
    assert TableOk(m, root);
    if c == t {
      SameChild(m, f, i, root, 0);
    } else {
      var p, j := NodesFrom(m, own, t, m.at[t].level, c);
      assert LeadsTo(own, p, j, c);
      assert p in m.at && own[p] == m.at[p];
      SameChild(m, f, i, p, j);
    }
  }

  lemma {:induction false} ReachedHas(m: Mem, f: Frame, level: nat, j: nat, n: nat)
    requires level > 0 && j < n
    ensures ReachedAt(m, f, level, j) <= Reached(m, f, level, n)
    decreases n
  {
    if j < n - 1 { ReachedHas(m, f, level, j, n - 1); }
  }

  /** What a page reached leads to is reached. */
  lemma {:induction false} ReachedClosed(m: Mem, own: map<Frame, Pos>, f: Frame, level: nat, n: nat, p: Frame, j: nat, c: Frame)
    requires f in own && own[f].level == level < 4 && Alive(m, own, own[f]) && n <= ENTRIES
    requires p in Reached(m, f, level, n) && Leads(m, own, p, j, c)
    ensures c in Reached(m, f, level, n)
    decreases level, n
  {
    assert NodeOk(m, own, f);
    if p in Reached(m, f, level, n - 1) {
      ReachedClosed(m, own, f, level, n - 1, p, j, c);
    } else {
      var d := Target(Word(m, f, n - 1));
      assert p in ReachedAt(m, f, level, n - 1) && LeadsTo(own, f, n - 1, d);
      ChildAlive(m, own, own[f], n - 1);
      NodesClosed(m, own, d, level - 1, p, j, c);
      assert c in ReachedAt(m, f, level, n - 1);
    }
  }

  lemma {:induction false} NodesClosed(m: Mem, own: map<Frame, Pos>, f: Frame, level: nat, p: Frame, j: nat, c: Frame)
    requires f in own && own[f].level == level < 4 && Alive(m, own, own[f]) && p in Nodes(m, f, level) && Leads(m, own, p, j, c)
    ensures c in Nodes(m, f, level)
    decreases level, ENTRIES + 1
  {
    if p == f {
      ReachedHas(m, f, level, j, ENTRIES);
      assert c in Nodes(m, c, level - 1) && ReachedAt(m, f, level, j) == Nodes(m, c, level - 1);
    } else {
      ReachedClosed(m, own, f, level, ENTRIES, p, j, c);
    }
  }

  /** A table of a space whose parent is freed is freed. */
  lemma GoneChild(m: Mem, data: map<Frame, Pos>, root: Frame, f: Frame, i: nat, c: Frame)
    requires TreeOk(m) && DataOk(m, data) && IsRoot(m, root) && f in Gone(m, root) && Parent(m, f, i, c) && Private(m, c)
    ensures c in Gone(m, root)
  {
    ParentPos(m, f, i, c);
    assert TableOk(m, root);
    if f == root {
      assert i == 0;
    } else {
      var own, t := Owners(m, data), Target(Word(m, root, 0));
      TopChild(m, data, root);
      GoneOwned(m, data, root, f);
      TableNode(m, data, f);
      NodesClosed(m, own, t, m.at[t].level, f, i, c);
    }
  }

  /** Every table of the space is freed. */
  lemma {:induction false} TablesGone(m: Mem, data: map<Frame, Pos>, root: Frame, f: Frame)
    requires TreeOk(m) && PrivateOk(m) && DataOk(m, data) && IsRoot(m, root) && f in m.at && m.at[f].space == Some(root)
    ensures f in Gone(m, root)
    decreases 4 - m.at[f].level
  {
    assert TableOk(m, f);
    if m.at[f].level < 4 {
      assert Private(m, f);
      var p, i :| Parent(m, p, i, f);
      ParentPos(m, p, i, f);
      TablesGone(m, data, root, p);
      GoneChild(m, data, root, p, i, f);
    }
  }

  /** And so is every frame that a page of the space is mapped to. */
  lemma FramesGone(m: Mem, data: map<Frame, Pos>, root: Frame, f: Frame, i: nat, g: Frame)
    requires TreeOk(m) && PrivateOk(m) && DataOk(m, data) && IsRoot(m, root) && Maps(m, f, i, g) && m.at[f].space == Some(root)
    ensures g in Gone(m, root)
  {
    TablesGone(m, data, root, f);
    var own, t := Owners(m, data), Target(Word(m, root, 0));
    TopChild(m, data, root);
    TableNode(m, data, f);
    NodesClosed(m, own, t, m.at[t].level, f, i, g);
  }

  /** pml4_destroy() frees the frame of every page that is mapped below 2^39. */
  lemma MappedIsFreed(m: Mem, data: map<Frame, Pos>, root: Frame, vpn: nat)
    requires TreeOk(m) && PrivateOk(m) && DataOk(m, data) && IsRoot(m, root) && vpn < 0x8000000 && Mapping(m, root, vpn).Some?
    ensures Target(Mapping(m, root, vpn).value) in Gone(m, root)
  {
    var s := Lookup(m, root, 4, vpn).value;
    AncTop(vpn);
    AncUser(vpn);
    assert TableOk(m, root);
    LookupPos(m, root, 4, vpn);
    FramesGone(m, data, root, s.table, s.index, Target(Word(m, s.table, s.index)));
  }

  // ----- what is left ---------------------------------------------------------------------------

  /** m' is m with the space of root taken down. */
  ghost predicate TakenDown(m: Mem, m': Mem, root: Frame) {
    Freed(m, m', Gone(m, root)) && m'.at == m.at - Gone(m, root)
  }

  lemma LeftTable(m: Mem, m': Mem, data: map<Frame, Pos>, root: Frame, f: Frame)
    requires TreeOk(m) && PrivateOk(m) && DataOk(m, data) && IsRoot(m, root) && TakenDown(m, m', root) && f in m'.at
    ensures TableOk(m', f)
  {
    assert TableOk(m, f);
    if m.at[f].level > 1 {
      forall i | 0 <= i < ENTRIES
        ensures EntryOk(m', f, i)
      {
        assert EntryOk(m, f, i);
        var c := Target(Word(m, f, i));
        if Present(Word(m, f, i)) && c in Gone(m, root) {
          assert TableOk(m, root);
          GoneParent(m, data, root, f, i, c);
        }
      }
    }
  }

  /** The other tables still form a forest. */
  lemma LeftTree(m: Mem, m': Mem, data: map<Frame, Pos>, root: Frame)
    requires TreeOk(m) && PrivateOk(m) && DataOk(m, data) && IsRoot(m, root) && TakenDown(m, m', root)
    ensures TreeOk(m')
  {
    forall f | f in m'.at
      ensures TableOk(m', f)
    {
      LeftTable(m, m', data, root, f);
    }
  }

  lemma LeftPrivate(m: Mem, m': Mem, data: map<Frame, Pos>, root: Frame)
    requires TreeOk(m) && PrivateOk(m) && DataOk(m, data) && IsRoot(m, root) && TakenDown(m, m', root)
    ensures PrivateOk(m')
  {
    forall f, g | Private(m', f) && g in m'.at && m'.at[f] == m'.at[g]
      ensures f == g
    {
      assert Private(m, f);
    }
    forall c | Private(m', c) && m'.at[c].level < 4
      ensures exists f, i :: Parent(m', f, i, c)
    {
      assert Private(m, c);
      var f, i :| Parent(m, f, i, c);
      if f in Gone(m, root) { GoneChild(m, data, root, f, i, c); }
      assert Parent(m', f, i, c);
    }
  }

  lemma LeftData(m: Mem, m': Mem, data: map<Frame, Pos>, root: Frame)
    requires TreeOk(m) && PrivateOk(m) && DataOk(m, data) && IsRoot(m, root) && TakenDown(m, m', root)
    ensures DataOk(m', data - Gone(m, root))
  {
    forall f, i, g | Maps(m', f, i, g)
      ensures Maps(m, f, i, g) && g !in Gone(m, root)
    {
      assert Maps(m, f, i, g);
      if g in Gone(m, root) { GoneParent(m, data, root, f, i, g); }
    }
  }

  /** Every other space is still there and maps what it mapped. */
  lemma LeftMappings(m: Mem, m': Mem, data: map<Frame, Pos>, root: Frame, r: Frame, vpn: nat)
    requires TreeOk(m) && DataOk(m, data) && IsRoot(m, root) && TakenDown(m, m', root) && TreeOk(m') && IsRoot(m, r) && r != root
    ensures IsRoot(m', r) && Mapping(m', r, vpn) == Mapping(m, r, vpn)
  {
    if r in Gone(m, root) { GoneOwned(m, data, root, r); }
    forall f | f in m'.at
      ensures f in m.pages && f in m'.pages && m.pages[f] == m'.pages[f]
    {
      assert TableOk(m, f);
    }
    LookupSame(m', m, r, 4, vpn);
  }

  /** All that the space mapped below 2^39 is free, and so are its tables. */
  ghost predicate GivenBack(m: Mem, m': Mem, root: Frame) {
    && (forall f :: f in m.at && m.at[f].space == Some(root) ==> f in m'.free)
    && (forall v: nat :: v < 0x8000000 && Mapping(m, root, v).Some? ==> Target(Mapping(m, root, v).value) in m'.free)
  }

  lemma LeftFree(m: Mem, m': Mem, data: map<Frame, Pos>, root: Frame)
    requires TreeOk(m) && PrivateOk(m) && DataOk(m, data) && IsRoot(m, root) && TakenDown(m, m', root)
    ensures GivenBack(m, m', root)
  {
    forall f | f in m.at && m.at[f].space == Some(root)
      ensures f in m'.free
    {
      TablesGone(m, data, root, f);
    }
    forall v: nat | v < 0x8000000 && Mapping(m, root, v).Some?
      ensures Target(Mapping(m, root, v).value) in m'.free
    {
      MappedIsFreed(m, data, root, v);
    }
  }

  ghost predicate SameMappings(m: Mem, m': Mem, root: Frame) {
    && (forall r :: IsRoot(m, r) && r != root ==> IsRoot(m', r))
    && (forall r: Frame, v: nat :: IsRoot(m, r) && r != root ==> Mapping(m', r, v) == Mapping(m, r, v))
  }

  lemma LeftOthers(m: Mem, m': Mem, data: map<Frame, Pos>, root: Frame)
    requires TreeOk(m) && DataOk(m, data) && IsRoot(m, root) && TakenDown(m, m', root) && TreeOk(m')
    ensures SameMappings(m, m', root)
  {
    forall r | IsRoot(m, r) && r != root
      ensures IsRoot(m', r)
    {
      LeftMappings(m, m', data, root, r, 0);
    }
    forall r: Frame, v: nat | IsRoot(m, r) && r != root
      ensures Mapping(m', r, v) == Mapping(m, r, v)
    {
      LeftMappings(m, m', data, root, r, v);
    }
  }

  lemma LeftKernel(m: Mem, m': Mem, root: Frame, e: nat)
    requires KernelShared(m, e) && TakenDown(m, m', root)
    ensures KernelShared(m', e)
  {
    forall r | IsRoot(m', r)
      ensures Word(m', r, 1) == e
    {
      assert IsRoot(m, r) && Word(m', r, 1) == Word(m, r, 1);
    }
  }

  lemma LeftSpaces(m: Mem, m': Mem, data: map<Frame, Pos>, root: Frame, e: nat)
    requires TreeOk(m) && SpacesOk(m, data, e) && IsRoot(m, root) && TakenDown(m, m', root)
    ensures TreeOk(m') && SpacesOk(m', data - Gone(m, root), e) && SameMappings(m, m', root) && GivenBack(m, m', root)
  {
    LeftTree(m, m', data, root);
    LeftPrivate(m, m', data, root);
    LeftData(m, m', data, root);
    LeftKernel(m, m', root, e);
    LeftOthers(m, m', data, root);
    LeftFree(m, m', data, root);
  }
}
