/** What visiting or freeing a whole page-table tree comes to. */
module PageSweeps {
  import opened Basics
  import opened PageTables

  // ----- the present leaves, in the order of the nested loops ------------------------------

  datatype Leaf = Leaf(slot: Slot, va: nat)

  /** The present leaves below the first n entries of the table f, which is at the given
      level and covers the pages with the given prefix. */
  function Leaves(m: Mem, f: Frame, level: nat, prefix: nat, n: nat): seq<Leaf>
    decreases level, n
  {
    if level == 0 || n == 0 then [] else Leaves(m, f, level, prefix, n - 1) + LeavesAt(m, f, level, prefix, n - 1)
  }

  /** The present leaves below entry i. */
  function LeavesAt(m: Mem, f: Frame, level: nat, prefix: nat, i: nat): seq<Leaf>
    requires level > 0
    decreases level, i
  {
    var e := Word(m, f, i);
    if !Present(e) then []
    else if level == 1 then [Leaf(Slot(f, i), (prefix * 512 + i) * 4096)]
    else Leaves(m, Target(e), level - 1, prefix * 512 + i, ENTRIES)
  }

  lemma {:induction false} AncMono(a: nat, b: nat, k: nat)
    requires a <= b
    ensures Anc(a, k) <= Anc(b, k)
  {
    if k > 0 { AncMono(a, b, k - 1); }
  }

  /** The leaf's page has an index from lo up to hi at the given level, below prefix. */
  predicate LeafIn(l: Leaf, level: nat, prefix: nat, lo: nat, hi: nat)
    requires level > 0
  {
    l.va % PGSIZE == 0 && prefix * 512 + lo <= Anc(l.va / PGSIZE, level - 1) < prefix * 512 + hi
  }

  /** Each visited address walks back to the entry visited, which is present. */
  ghost predicate LeafOk(m: Mem, l: Leaf, f: Frame, level: nat) {
    Lookup(m, f, level, l.va / PGSIZE) == Some(l.slot) && Present(Word(m, l.slot.table, l.slot.index))
  }

  lemma {:induction false} LeavesFit(m: Mem, f: Frame, level: nat, prefix: nat, n: nat, l: Leaf)
    requires 0 < level && n <= ENTRIES && l in Leaves(m, f, level, prefix, n)
    ensures LeafIn(l, level, prefix, 0, n) && LeafOk(m, l, f, level)
    decreases level, n
  {
    if l in LeavesAt(m, f, level, prefix, n - 1) {
      LeavesAtFit(m, f, level, prefix, n - 1, l);
    } else {
      LeavesFit(m, f, level, prefix, n - 1, l);
    }
  }

  lemma {:induction false} LeavesAtFit(m: Mem, f: Frame, level: nat, prefix: nat, i: nat, l: Leaf)
    requires 0 < level && i < ENTRIES && l in LeavesAt(m, f, level, prefix, i)
    ensures LeafIn(l, level, prefix, i, i + 1) && LeafOk(m, l, f, level)
    decreases level, i
  {
    var e, v := Word(m, f, i), l.va / PGSIZE;
    if level > 1 {
      LeavesFit(m, Target(e), level - 1, prefix * 512 + i, ENTRIES, l);
      assert Anc(v, level - 1) == Anc(v, level - 2) / ENTRIES;
    } else {
      assert v == prefix * 512 + i;
    }
  }

  /** Addresses ascend strictly, so that no leaf is visited twice. */
  ghost predicate Ascending(s: seq<Leaf>) {
    forall i, j :: 0 <= i < j < |s| ==> s[i].va < s[j].va
  }

  lemma AscendingJoin(a: seq<Leaf>, b: seq<Leaf>)
    requires Ascending(a) && Ascending(b) && forall x, y :: x in a && y in b ==> x.va < y.va
    ensures Ascending(a + b)
  {
    forall i, j | 0 <= i < j < |a + b|
      ensures (a + b)[i].va < (a + b)[j].va
    {
      if i < |a| <= j { assert a[i] in a && b[j - |a|] in b; }
    }
  }

  lemma {:induction false} LeavesAscend(m: Mem, f: Frame, level: nat, prefix: nat, n: nat)
    requires 0 < level && n <= ENTRIES
    ensures Ascending(Leaves(m, f, level, prefix, n))
    decreases level, n
  {
    if n > 0 {
      var a, b := Leaves(m, f, level, prefix, n - 1), LeavesAt(m, f, level, prefix, n - 1);
      LeavesAscend(m, f, level, prefix, n - 1);
      if level > 1 && b != [] { LeavesAscend(m, Target(Word(m, f, n - 1)), level - 1, prefix * 512 + n - 1, ENTRIES); }
      forall x, y | x in a && y in b
        ensures x.va < y.va
      {
        LeavesFit(m, f, level, prefix, n - 1, x);
        LeavesAtFit(m, f, level, prefix, n - 1, y);
        if x.va >= y.va { AncMono(y.va / PGSIZE, x.va / PGSIZE, level - 1); }
      }
      AscendingJoin(a, b);
    }
  }

  /** Every present leaf below f is visited. */
  /** The entry that a leaf is below. */
  lemma LeafIndex(m: Mem, f: Frame, level: nat, prefix: nat, n: nat, l: Leaf) returns (i: nat)
    requires 0 < level && n <= ENTRIES && LeafIn(l, level, prefix, 0, n) && LeafOk(m, l, f, level)
    ensures i < n && LeafIn(l, level, prefix, 0, i + 1) && Present(Word(m, f, i))
    ensures level == 1 ==> l == Leaf(Slot(f, i), (prefix * 512 + i) * 4096)
    ensures level > 1 ==> var c := Target(Word(m, f, i)); LeafIn(l, level - 1, prefix * 512 + i, 0, ENTRIES) && LeafOk(m, l, c, level - 1)
  {
    var v := l.va / PGSIZE;
    i := Anc(v, level - 1) - prefix * 512;
    assert Index(v, level) == i;
    if level > 1 { assert Anc(v, level - 1) == Anc(v, level - 2) / ENTRIES; }
  }

  lemma {:induction false} LeavesComplete(m: Mem, f: Frame, level: nat, prefix: nat, n: nat, l: Leaf)
    requires 0 < level && n <= ENTRIES && LeafIn(l, level, prefix, 0, n) && LeafOk(m, l, f, level)
    ensures l in Leaves(m, f, level, prefix, n)
    decreases level, n
  {
    var i := LeafIndex(m, f, level, prefix, n, l);
    if i < n - 1 {
      LeavesComplete(m, f, level, prefix, n - 1, l);
    } else if level > 1 {
      LeavesComplete(m, Target(Word(m, f, i)), level - 1, prefix * 512 + i, ENTRIES, l);
    }
  }

  // ----- stopping at the first false ---------------------------------------------------------

  /** func is true of every leaf in s. */
  predicate AllTrue(func: Leaf -> bool, s: seq<Leaf>) {
    s == [] || (func(s[0]) && AllTrue(func, s[1..]))
  }

  /** s up to and with the first leaf for which func is false. */
  function Upto(func: Leaf -> bool, s: seq<Leaf>): seq<Leaf> {
    if s == [] then [] else if func(s[0]) then [s[0]] + Upto(func, s[1..]) else [s[0]]
  }

  /** The calls are for the leaves in order, up to and including the first for which func is false; the result is
      whether there is none. */
  lemma {:induction false} StopsAtFalse(func: Leaf -> bool, s: seq<Leaf>)
    ensures var u := Upto(func, s);
      && u <= s && (forall i :: 0 <= i < |u| - 1 ==> func(s[i])) && (|u| < |s| ==> u != [] && !func(s[|u| - 1]))
      && (AllTrue(func, s) <==> forall i :: 0 <= i < |s| ==> func(s[i]))
  {
    if s != [] {
      StopsAtFalse(func, s[1..]);
      assert s == [s[0]] + s[1..];
      if forall i :: 0 <= i < |s| ==> func(s[i]) {
        assert forall i :: 0 <= i < |s[1..]| ==> s[1..][i] == s[i + 1];
      }
    }
  }

  lemma {:induction false} AllJoin(func: Leaf -> bool, a: seq<Leaf>, b: seq<Leaf>)
    ensures AllTrue(func, a + b) <==> AllTrue(func, a) && AllTrue(func, b)
  {
    if a == [] {
      assert a + b == b;
    } else {
      assert (a + b)[1..] == a[1..] + b;
      AllJoin(func, a[1..], b);
    }
  }

  lemma {:induction false} UptoJoin(func: Leaf -> bool, a: seq<Leaf>, b: seq<Leaf>)
    ensures AllTrue(func, a) ==> Upto(func, a + b) == a + Upto(func, b)
    ensures !AllTrue(func, a) ==> Upto(func, a + b) == Upto(func, a)
  {
    if a == [] {
      assert a + b == b;
    } else {
      assert (a + b)[1..] == a[1..] + b;
      UptoJoin(func, a[1..], b);
      assert a == [a[0]] + a[1..];
    }
  }

  lemma UptoAll(func: Leaf -> bool, a: seq<Leaf>)
    requires AllTrue(func, a)
    ensures Upto(func, a) == a
  {
    UptoJoin(func, a, []);
    assert a + [] == a;
  }

  /** What the loop body for entry i has seen, and whether to go on. */
  ghost predicate SawAt(m: Mem, f: Frame, level: nat, prefix: nat, i: nat, func: Leaf -> bool, more: bool, seen: seq<Leaf>)
    requires level > 0
  {
    var b := LeavesAt(m, f, level, prefix, i);
    (more <==> AllTrue(func, b)) && seen == Upto(func, b)
  }

  ghost predicate Saw(m: Mem, f: Frame, level: nat, prefix: nat, n: nat, func: Leaf -> bool, more: bool, seen: seq<Leaf>) {
    var b := Leaves(m, f, level, prefix, n);
    (more <==> AllTrue(func, b)) && seen == Upto(func, b)
  }

  lemma SawNothing(m: Mem, f: Frame, level: nat, prefix: nat, i: nat, func: Leaf -> bool)
    requires level > 0 && !Present(Word(m, f, i))
    ensures SawAt(m, f, level, prefix, i, func, true, [])
  {
  }

  lemma SawBelow(m: Mem, f: Frame, level: nat, prefix: nat, i: nat, func: Leaf -> bool, more: bool, seen: seq<Leaf>)
    requires level > 1 && Present(Word(m, f, i))
    requires Saw(m, Target(Word(m, f, i)), level - 1, prefix * 512 + i, ENTRIES, func, more, seen)
    ensures SawAt(m, f, level, prefix, i, func, more, seen)
  {
  }

  lemma SawOne(m: Mem, f: Frame, prefix: nat, i: nat, level: nat, func: Leaf -> bool)
    requires level == 1 && Present(Word(m, f, i))
    ensures var l := Leaf(Slot(f, i), (prefix * 512 + i) * 4096); SawAt(m, f, level, prefix, i, func, func(l), [l])
  {
    var l := Leaf(Slot(f, i), (prefix * 512 + i) * 4096);
    assert LeavesAt(m, f, level, prefix, i) == [l];
    assert [l][1..] == [];
  }

  /** The loop body for entry i, after those for the entries before it, which all went on. */
  lemma SawNext(m: Mem, f: Frame, level: nat, prefix: nat, i: nat, func: Leaf -> bool, visits: seq<Leaf>, more: bool, seen: seq<Leaf>)
    requires 0 < level && Saw(m, f, level, prefix, i, func, true, visits) && SawAt(m, f, level, prefix, i, func, more, seen)
    ensures Saw(m, f, level, prefix, i + 1, func, more, visits + seen)
  {
    var a, b := Leaves(m, f, level, prefix, i), LeavesAt(m, f, level, prefix, i);
    assert Leaves(m, f, level, prefix, i + 1) == a + b;
    AllJoin(func, a, b);
    UptoJoin(func, a, b);
    UptoAll(func, a);
  }

  /** Once a call has returned false the entries after it make no difference. */
  lemma {:induction false} SawAll(m: Mem, f: Frame, level: nat, prefix: nat, i: nat, n: nat, func: Leaf -> bool, visits: seq<Leaf>)
    requires 0 < level && i <= n && Saw(m, f, level, prefix, i, func, false, visits)
    ensures Saw(m, f, level, prefix, n, func, false, visits)
    decreases n
  {
    if i < n {
      SawAll(m, f, level, prefix, i, n - 1, func, visits);
      var a, b := Leaves(m, f, level, prefix, n - 1), LeavesAt(m, f, level, prefix, n - 1);
      AllJoin(func, a, b);
      UptoJoin(func, a, b);
    }
  }

  /** pml4_for_each() visits every mapped page of a space, with its own entry. */
  lemma MappedIsVisited(m: Mem, root: Frame, vpn: nat)
    requires vpn < VPNS && Mapping(m, root, vpn).Some?
    ensures Leaf(Lookup(m, root, 4, vpn).value, vpn * 4096) in Leaves(m, root, 4, 0, ENTRIES)
  {
    AncTop(vpn);
    LeavesComplete(m, root, 4, 0, ENTRIES, Leaf(Lookup(m, root, 4, vpn).value, vpn * 4096));
  }

  /** And it visits nothing else. */
  lemma VisitedIsMapped(m: Mem, root: Frame, l: Leaf)
    requires l in Leaves(m, root, 4, 0, ENTRIES)
    ensures Mapping(m, root, l.va / PGSIZE) == Some(Word(m, l.slot.table, l.slot.index))
    ensures l.va % PGSIZE == 0 && Lookup(m, root, 4, l.va / PGSIZE) == Some(l.slot)
  {
    LeavesFit(m, root, 4, 0, ENTRIES, l);
  }

  // ----- taking a tree down ---------------------------------------------------------------------

  /** The page at p is below the table at q, or is that table. */
  predicate Under(p: Pos, q: Pos) {
    p.level <= q.level && p.space == q.space && Anc(p.prefix, q.level - p.level) == q.prefix
  }

  /** A page of a private tree: in use, and, if it is a table, each present entry leads to the
      page whose position is that of the entry.  Data pages have level 0. */
  ghost predicate NodeOk(m: Mem, own: map<Frame, Pos>, f: Frame)
    requires f in own
  {
    && f !in m.free
    && (own[f].level > 0 ==> f in m.pages && |m.pages[f]| == ENTRIES)
    && (own[f].level > 0 ==> forall i :: 0 <= i < ENTRIES && Present(Word(m, f, i)) ==> LeadsTo(own, f, i, Target(Word(m, f, i))))
  }

  predicate LeadsTo(own: map<Frame, Pos>, f: Frame, i: nat, c: Frame)
    requires f in own && own[f].level > 0
  {
    c in own && own[c] == ChildPos(own[f], i)
  }

  /** All pages at or below position q are as NodeOk says. */
  ghost predicate Alive(m: Mem, own: map<Frame, Pos>, q: Pos) {
    forall f :: f in own && Under(own[f], q) ==> NodeOk(m, own, f)
  }

  /** The pages reachable through the first n entries of f. */
  ghost function Reached(m: Mem, f: Frame, level: nat, n: nat): set<Frame>
    decreases level, n
  {
    if level == 0 || n == 0 then {} else Reached(m, f, level, n - 1) + ReachedAt(m, f, level, n - 1)
  }

  ghost function ReachedAt(m: Mem, f: Frame, level: nat, i: nat): set<Frame>
    requires level > 0
    decreases level, i
  {
    if Present(Word(m, f, i)) then Nodes(m, Target(Word(m, f, i)), level - 1) else {}
  }

  /** f and the pages reachable from it. */
  ghost function Nodes(m: Mem, f: Frame, level: nat): set<Frame>
    decreases level, ENTRIES + 1
  {
    Reached(m, f, level, ENTRIES) + {f}
  }

  lemma {:induction false} AncChild(p: nat, k: nat)
    ensures Anc(p, k + 1) == Anc(p / ENTRIES, k)
  {
    if k > 0 { AncChild(p, k - 1); }
  }

  /** What is below a child is below the table, and not below another child. */
  lemma UnderChild(p: Pos, q: Pos, i: nat)
    requires 0 < q.level < 4 && i < ENTRIES && Under(p, ChildPos(q, i))
    ensures Under(p, q) && p != q && forall j :: 0 <= j < ENTRIES && j != i ==> !Under(p, ChildPos(q, j))
  {
    assert Anc(p.prefix, q.level - p.level) == Anc(p.prefix, q.level - 1 - p.level) / ENTRIES;
  }

  lemma {:induction false} ReachedUnder(m: Mem, own: map<Frame, Pos>, f: Frame, level: nat, n: nat, g: Frame)
    requires f in own && own[f].level == level < 4 && Alive(m, own, own[f]) && n <= ENTRIES && g in Reached(m, f, level, n)
    ensures g in own && exists i :: 0 <= i < n && Under(own[g], ChildPos(own[f], i))
    decreases level, n
  {
    assert NodeOk(m, own, f);
    var e := Word(m, f, n - 1);
    if g in Reached(m, f, level, n - 1) {
      ReachedUnder(m, own, f, level, n - 1, g);
    } else {
      var c := Target(e);
      assert LeadsTo(own, f, n - 1, c);
      ChildAlive(m, own, own[f], n - 1);
      NodesUnder(m, own, c, level - 1, g);
      assert Under(own[g], ChildPos(own[f], n - 1));
    }
  }

  lemma ChildAlive(m: Mem, own: map<Frame, Pos>, q: Pos, i: nat)
    requires Alive(m, own, q) && 0 < q.level < 4 && i < ENTRIES
    ensures Alive(m, own, ChildPos(q, i))
  {
    forall f | f in own && Under(own[f], ChildPos(q, i))
      ensures NodeOk(m, own, f)
    {
      UnderChild(own[f], q, i);
    }
  }

  lemma {:induction false} NodesUnder(m: Mem, own: map<Frame, Pos>, f: Frame, level: nat, g: Frame)
    requires f in own && own[f].level == level < 4 && Alive(m, own, own[f]) && g in Nodes(m, f, level)
    ensures g in own && Under(own[g], own[f])
    decreases level, ENTRIES + 1
  {
    if g != f {
      ReachedUnder(m, own, f, level, ENTRIES, g);
      var i :| 0 <= i < ENTRIES && Under(own[g], ChildPos(own[f], i));
      UnderChild(own[g], own[f], i);
    }
  }

  /** The pages at or below position q have the same contents in m and m'. */
  ghost predicate Untouched(m: Mem, m': Mem, own: map<Frame, Pos>, q: Pos) {
    forall f :: f in own && Under(own[f], q) ==> (f in m'.free <==> f in m.free) && (f in m'.pages <==> f in m.pages) && (f in m.pages ==> m'.pages[f] == m.pages[f])
  }

  lemma AliveUntouched(m: Mem, m': Mem, own: map<Frame, Pos>, q: Pos)
    requires Alive(m, own, q) && Untouched(m, m', own, q)
    ensures Alive(m', own, q)
  {
    forall f | f in own && Under(own[f], q)
      ensures NodeOk(m', own, f)
    {
      assert NodeOk(m, own, f);
      assert forall i :: Word(m', f, i) == Word(m, f, i);
    }
  }

  lemma {:induction false} ReachedUntouched(m: Mem, m': Mem, own: map<Frame, Pos>, f: Frame, level: nat, n: nat)
    requires f in own && own[f].level == level < 4 && n <= ENTRIES && Alive(m, own, own[f]) && Untouched(m, m', own, own[f])
    ensures Reached(m', f, level, n) == Reached(m, f, level, n)
    decreases level, n
  {
    if level > 0 && n > 0 {
      ReachedUntouched(m, m', own, f, level, n - 1);
      assert NodeOk(m, own, f) && Word(m', f, n - 1) == Word(m, f, n - 1);
      if Present(Word(m, f, n - 1)) {
        var c := Target(Word(m, f, n - 1));
        assert LeadsTo(own, f, n - 1, c);
        ChildAlive(m, own, own[f], n - 1);
        ChildUntouched(m, m', own, own[f], n - 1);
        ReachedUntouched(m, m', own, c, level - 1, ENTRIES);
        assert Nodes(m', c, level - 1) == Nodes(m, c, level - 1);
      }
      assert ReachedAt(m', f, level, n - 1) == ReachedAt(m, f, level, n - 1);
    }
  }

  lemma ChildUntouched(m: Mem, m': Mem, own: map<Frame, Pos>, q: Pos, i: nat)
    requires Untouched(m, m', own, q) && 0 < q.level < 4 && i < ENTRIES
    ensures Untouched(m, m', own, ChildPos(q, i))
  {
    forall f | f in own && Under(own[f], ChildPos(q, i))
      ensures Under(own[f], q)
    {
      UnderChild(own[f], q, i);
    }
  }

  /** m' is m with exactly the pages of gone freed. */
  ghost predicate Freed(m: Mem, m': Mem, gone: set<Frame>) {
    && m'.free == m.free + gone
    && (forall f :: f !in gone ==> (f in m'.pages <==> f in m.pages) && (f in m.pages ==> m'.pages[f] == m.pages[f]))
  }

  lemma FreedTrans(m: Mem, m1: Mem, m2: Mem, a: set<Frame>, b: set<Frame>)
    requires Freed(m, m1, a) && Freed(m1, m2, b)
    ensures Freed(m, m2, a + b)
  {
  }

  /** Freeing what is below the first i entries touches neither f nor what is below entry i. */
  lemma FreedSpares(m: Mem, m': Mem, own: map<Frame, Pos>, f: Frame, level: nat, i: nat)
    requires f in own && own[f].level == level && 0 < level < 4 && i <= ENTRIES && Alive(m, own, own[f])
    requires Freed(m, m', Reached(m, f, level, i))
    ensures f !in Reached(m, f, level, i) && NodeOk(m, own, f)
    ensures i < ENTRIES ==> Untouched(m, m', own, ChildPos(own[f], i))
  {
    assert NodeOk(m, own, f);
    forall g | g in Reached(m, f, level, i) && g in own
      ensures g != f && (i < ENTRIES ==> !Under(own[g], ChildPos(own[f], i)))
    {
      ReachedUnder(m, own, f, level, i, g);
      var j :| 0 <= j < i && Under(own[g], ChildPos(own[f], j));
      UnderChild(own[g], own[f], j);
    }
  }

  lemma ReachedGrows(m: Mem, f: Frame, level: nat, i: nat)
    requires level > 0
    ensures Reached(m, f, level, i + 1) == Reached(m, f, level, i) + ReachedAt(m, f, level, i)
  {
  }

  /** What pml4_destroy() frees belongs to that space alone: no shared page, no page of another space. */
  lemma DestroysOwnOnly(m: Mem, own: map<Frame, Pos>, root: Frame, f: Frame, g: Frame)
    requires f in own && own[f] == Pos(Some(root), 3, 0) && Alive(m, own, own[f]) && g in Nodes(m, f, 3)
    ensures g in own && own[g].space == Some(root) && g !in m.free
  {
    NodesUnder(m, own, f, 3, g);
    assert NodeOk(m, own, g);
  }
}
