/** filesys/filesys.c, directory.c, free-map.c, inode.c and file.c on the state of the file system. */
module Filesys {
  import opened Basics
  import opened Intervals
  import opened FileSystems

  // ----- the list of open inodes -----------------------------------------------------------

  /** An element of open_inodes, with its sector. */
  datatype Opened = Opened(sector: nat, inode: Inode)

  /** The inodes on the list, by sector. */
  function Table(l: seq<Opened>): map<nat, Inode> {
    if l == [] then map[] else Table(l[1..])[l[0].sector := l[0].inode]
  }

  /** One struct inode for each sector. */
  ghost predicate Unique(l: seq<Opened>) {
    forall i, j :: 0 <= i < j < |l| ==> l[i].sector != l[j].sector
  }

  lemma {:induction false} TableHas(l: seq<Opened>, s: nat)
    ensures s in Table(l) <==> exists i :: 0 <= i < |l| && l[i].sector == s
  {
    if l != [] {
      TableHas(l[1..], s);
      if s in Table(l[1..]) {
        var i :| 0 <= i < |l[1..]| && l[1..][i].sector == s;
        assert l[i + 1].sector == s;
      }
      if exists i :: 0 < i < |l| && l[i].sector == s {
        var i :| 0 < i < |l| && l[i].sector == s;
        assert l[1..][i - 1].sector == s;
      }
    }
  }

  lemma {:induction false} TableAt(l: seq<Opened>, i: nat)
    requires Unique(l) && i < |l|
    ensures l[i].sector in Table(l) && Table(l)[l[i].sector] == l[i].inode
  {
    if i > 0 {
      assert l[1..][i - 1] == l[i];
      TableAt(l[1..], i - 1);
    }
  }

  lemma {:induction false} TableUpdate(l: seq<Opened>, i: nat, o: Inode)
    requires Unique(l) && i < |l|
    ensures Table(l[i := Opened(l[i].sector, o)]) == Table(l)[l[i].sector := o]
  {
    var l' := l[i := Opened(l[i].sector, o)];
    if i == 0 {
      assert l'[1..] == l[1..];
    } else {
      assert l'[1..] == l[1..][i - 1 := Opened(l[i].sector, o)] && l[1..][i - 1].sector == l[i].sector;
      TableUpdate(l[1..], i - 1, o);
    }
  }

  lemma DropNew(m: map<nat, Inode>, s: nat, o: Inode)
    requires s !in m
    ensures m[s := o] - {s} == m
  {
  }

  lemma DropOther(m: map<nat, Inode>, s: nat, t: nat, o: Inode)
    requires s != t
    ensures (m - {s})[t := o] == m[t := o] - {s}
  {
  }

  lemma TableCons(o: Opened, l: seq<Opened>)
    ensures Table([o] + l) == Table(l)[o.sector := o.inode]
  {
    assert ([o] + l)[1..] == l;
  }

  lemma RemoveShifts(l: seq<Opened>, i: nat)
    requires 0 < i < |l|
    ensures l[..i] + l[i + 1..] == [l[0]] + (l[1..][..i - 1] + l[1..][i..]) && l[1..][i - 1] == l[i] && l == [l[0]] + l[1..]
  {
  }

  lemma {:induction false} TableRemove(l: seq<Opened>, i: nat)
    requires Unique(l) && i < |l|
    ensures Table(l[..i] + l[i + 1..]) == Table(l) - {l[i].sector}
  {
    var t := l[1..];
    if i == 0 {
      assert l[..0] + l[1..] == t;
      TableHas(t, l[0].sector);
      DropNew(Table(t), l[0].sector, l[0].inode);
    } else {
      RemoveShifts(l, i);
      TableRemove(t, i - 1);
      TableCons(l[0], t[..i - 1] + t[i..]);
      TableCons(l[0], t);
      DropOther(Table(t), l[i].sector, l[0].sector, l[0].inode);
    }
  }

  lemma TableOne(o: Opened)
    ensures Table([o]) == map[o.sector := o.inode] && Unique([o])
  {
    assert [o][1..] == [];
  }

  lemma OneSector(s: nat)
    ensures Interval(s, 1) == {s}
  {
    assert Interval(s, 0) == {};
  }

  // ----- room on the disk ------------------------------------------------------------------

  /** The cnt sectors from p on are on the disk and unmarked. */
  predicate Fits(size: nat, used: set<nat>, p: nat, cnt: nat) {
    p + cnt <= size && Interval(p, cnt) !! used
  }

  ghost predicate FirstFit(size: nat, used: set<nat>, p: nat, cnt: nat) {
    Fits(size, used, p, cnt) && forall q :: 0 <= q < p ==> !Fits(size, used, q, cnt)
  }

  /** There is a sector for an inode, and besides the first such one there are sectors for its data. */
  ghost predicate Room(size: nat, used: set<nat>, length: nat) {
    exists p, q :: FirstFit(size, used, p, 1) && Fits(size, used + {p}, q, Sectors(length))
  }

  /** What filesys_create() has done: nothing, a new file, or a loss of its data sectors. */
  datatype Outcome = Nothing | Created(slot: nat, sector: nat, inode: DiskInode) | Abandoned(sector: nat, inode: DiskInode)

  ghost predicate CreateDid(size: nat, fs: FS, fs': FS, name: string, length: nat, r: Outcome) {
    && (r.Nothing? <==> !Room(size, fs.used, length))
    && match r
       case Nothing => fs' == fs
       case Created(slot, p, d) =>
         && CanAdd(fs, name) && d.length == length && Unmarked(fs, p, d)
         && slot < |fs.entries| && !fs.entries[slot].inUse && fs' == CreateFile(fs, slot, name, p, d)
       case Abandoned(p, d) =>
         !CanAdd(fs, name) && d.length == length && Unmarked(fs, p, d) && fs' == Abandon(fs, p, d)
  }

  /** What was done with the root directory open is the same with it closed again. */
  lemma CreateCommutes(size: nat, fs: FS, fs1: FS, fs2: FS, name: string, length: nat, r: Outcome)
    requires ROOT_DIR_SECTOR in fs.disk && (ROOT_DIR_SECTOR in fs.opens ==> fs.opens[ROOT_DIR_SECTOR].openCnt > 0)
    requires fs1 == OpenInode(fs, ROOT_DIR_SECTOR) && CreateDid(size, fs1, fs2, name, length, r)
    ensures ROOT_DIR_SECTOR in fs2.opens && fs2.opens == fs1.opens && fs2.opens[ROOT_DIR_SECTOR].openCnt > 0 && fs1.used <= fs2.used
    ensures CreateDid(size, fs, CloseInode(fs2, ROOT_DIR_SECTOR), name, length, r)
  {
    RoundTrip(fs, fs2, ROOT_DIR_SECTOR);
  }

  lemma CreateKeeps(size: nat, fs: FS, fs': FS, name: string, length: nat, r: Outcome)
    requires Inv(fs) && CreateDid(size, fs, fs', name, length, r)
    ensures Inv(fs') && fs'.refs == fs.refs
  {
    match r
    case Nothing =>
    case Created(slot, p, d) => CreateInv(fs, slot, name, p, d);
    case Abandoned(p, d) => AbandonInv(fs, p, d);
  }

  /** The inode of the given slot is new in fs': it has the name and the length asked for, its sector and its
      data sectors are those that became marked, and every other inode in use is stored as before. */
  ghost predicate NewFile(fs: FS, fs': FS, name: string, length: nat, slot: nat) {
    && slot < |fs.entries| == |fs'.entries| && fs'.entries[slot].inUse && fs'.entries[slot].name == name
    && (forall i :: 0 <= i < |fs.entries| && i != slot ==> fs'.entries[i] == fs.entries[i])
    && fs'.opens == fs.opens && fs'.files == fs.files && SameInodes(fs, fs')
    && NewInode(fs, fs', fs'.entries[slot].sector, length)
  }

  /** The inode in p has the length, and the sectors that became marked are p and its data sectors. */
  ghost predicate NewInode(fs: FS, fs': FS, p: nat, length: nat) {
    && p in fs'.disk && fs'.disk[p].length == length && p !in fs.used
    && var start := fs'.disk[p].start;
      && !(start <= p < start + Sectors(length))
      && (forall x :: start <= x < start + Sectors(length) ==> x !in fs.used && x !in fs'.disk)
      && (forall x :: x in fs'.used <==> x in fs.used || x == p || start <= x < start + Sectors(length))
  }

  /** Every inode in use is stored as before. */
  ghost predicate SameInodes(fs: FS, fs': FS) {
    forall s :: Live(fs, s) ==> s in fs.disk && s in fs'.disk && fs'.disk[s] == fs.disk[s]
  }

  lemma StoreSameInodes(fs: FS, fs': FS, p: nat, d: DiskInode)
    requires Inv(fs) && Unmarked(fs, p, d) && fs'.disk == StoreInode(fs.disk, p, d)
    ensures SameInodes(fs, fs')
  {
    forall s | Live(fs, s)
      ensures s in fs.disk && s in fs'.disk && fs'.disk[s] == fs.disk[s]
    {
      StoreKeeps(fs, p, d, s);
    }
  }

  lemma StoredInode(disk: map<nat, DiskInode>, p: nat, d: DiskInode)
    ensures p in StoreInode(disk, p, d) && StoreInode(disk, p, d)[p] == d
  {
  }

  lemma CreatedIsNew(fs: FS, slot: nat, name: string, p: nat, d: DiskInode)
    requires Inv(fs) && Unmarked(fs, p, d) && slot < |fs.entries|
    ensures NewFile(fs, CreateFile(fs, slot, name, p, d), name, d.length, slot)
  {
    var fs' := CreateFile(fs, slot, name, p, d);
    StoredInode(fs.disk, p, d);
    StoreSameInodes(fs, fs', p, d);
    IntervalHas(d.start, Sectors(d.length));
    forall x | d.start <= x < d.start + Sectors(d.length)
      ensures x !in fs.used && x !in fs'.disk
    {
      assert x in Extent(d, p);
    }
    assert p in Extent(d, p);
  }

  lemma CreateMakes(size: nat, fs: FS, fs': FS, name: string, length: nat, r: Outcome)
    requires Inv(fs) && CreateDid(size, fs, fs', name, length, r)
    ensures r.Created? ==> NewFile(fs, fs', name, length, r.slot)
    ensures SameInodes(fs, fs')
  {
    match r
    case Nothing =>
    case Created(slot, p, d) => CreatedIsNew(fs, slot, name, p, d);
    case Abandoned(p, d) => StoreSameInodes(fs, fs', p, d);
  }

  /** filesys_create() loses sectors exactly when there is room for a file that is not empty
      and the directory cannot take its name. */
  lemma CreateLeaks(size: nat, fs: FS, fs': FS, name: string, length: nat, r: Outcome)
    requires Inv(fs) && NoLeak(fs) && CreateDid(size, fs, fs', name, length, r)
    ensures NoLeak(fs') <==> CanAdd(fs, name) || length == 0 || !Room(size, fs.used, length)
  {
    match r
    case Nothing =>
    case Created(slot, p, d) => CreateNoLeak(fs, slot, name, p, d);
    case Abandoned(p, d) => AbandonLeaks(fs, p, d);
  }

  lemma TwoExtents(map0: DiskInode, root: DiskInode, n: nat, x: nat)
    requires map0.start == 2 && Sectors(map0.length) == n && root.start == 2 + n && Sectors(root.length) == 1
    ensures x in Extent(map0, 0) + Extent(root, 1) <==> x < 3 + n
  {
    IntervalHas(map0.start, Sectors(map0.length));
    IntervalHas(root.start, Sectors(root.length));
  }

  /** The marked sectors of a disk just formatted. */
  lemma FormattedUsed(mapLength: nat, x: nat)
    ensures x in Formatted(mapLength).used <==> x < 3 + Sectors(mapLength)
  {
    var n := Sectors(mapLength);
    TwoExtents(DiskInode(2, mapLength), DiskInode(2 + n, 320), n, x);
  }

  /** The free map and a root directory of sixteen entries of 20 bytes, all free, are all there is. */
  ghost predicate Fresh(fs: FS, mapLength: nat) {
    && |fs.entries| == 16 && (forall i :: 0 <= i < |fs.entries| ==> !fs.entries[i].inUse)
    && fs.disk.Keys == {FREE_MAP_SECTOR, ROOT_DIR_SECTOR}
    && fs.disk[FREE_MAP_SECTOR].length == mapLength && fs.disk[ROOT_DIR_SECTOR].length == 16 * 20
    && (forall x: nat :: x in fs.used <==> x < 3 + Sectors(mapLength))
  }

  lemma FormattedFresh(mapLength: nat)
    ensures Fresh(Formatted(mapLength), mapLength)
  {
    forall x: nat
      ensures x in Formatted(mapLength).used <==> x < 3 + Sectors(mapLength)
    {
      FormattedUsed(mapLength, x);
    }
  }

  lemma FormattedRoom(mapLength: nat, size: nat)
    requires size >= 5 + Sectors(mapLength)
    ensures Room(size, Formatted(mapLength).used, 512)
  {
    var used, p := Formatted(mapLength).used, 3 + Sectors(mapLength);
    forall q: nat
      ensures Interval(q, 1) == {q} && (q in used <==> q < p)
    {
      OneSector(q);
      FormattedUsed(mapLength, q);
    }
    assert FirstFit(size, used, p, 1);
    assert Sectors(512) == 1 && Fits(size, used + {p}, p + 1, Sectors(512));
  }

  lemma FormattedUnmarked(mapLength: nat, p: nat, d: DiskInode)
    requires p == 3 + Sectors(mapLength) && d == DiskInode(p + 1, 512)
    ensures Unmarked(Formatted(mapLength), p, d)
  {
    FormattedUsed(mapLength, p);
    FormattedUsed(mapLength, p + 1);
    OneSector(p + 1);
    assert Sectors(512) == 1;
  }

  /** The directory takes no empty name, so that a create with one loses the data sectors. */
  lemma NamelessLoses(size: nat, fs: FS, p: nat, d: DiskInode)
    requires Inv(fs) && NoLeak(fs) && Room(size, fs.used, d.length) && Unmarked(fs, p, d) && d.length > 0
    ensures CreateDid(size, fs, Abandon(fs, p, d), "", d.length, Abandoned(p, d)) && !NoLeak(Abandon(fs, p, d))
  {
    AbandonLeaks(fs, p, d);
  }

  /** On every disk just formatted that is not full, creating a file of 512 bytes with an empty name loses a sector. */
  lemma LeakExample(mapLength: nat, size: nat, fs: FS, p: nat, d: DiskInode)
    requires size >= 5 + Sectors(mapLength) && fs == Formatted(mapLength) && p == 3 + Sectors(mapLength) && d == DiskInode(p + 1, 512)
    ensures Inv(fs) && NoLeak(fs) && CreateDid(size, fs, Abandon(fs, p, d), "", 512, Abandoned(p, d)) && !NoLeak(Abandon(fs, p, d))
  {
    FormattedInv(mapLength);
    FormattedRoom(mapLength, size);
    FormattedUnmarked(mapLength, p, d);
    NamelessLoses(size, fs, p, d);
  }

  class FileSystem {
    var size: nat                    // sectors of the disk
    var used: set<nat>
    var disk: map<nat, DiskInode>
    var entries: seq<Entry>
    var open: seq<Opened>            // open_inodes
    var files: map<nat, File>
    ghost var refs: multiset<nat>

    ghost function Abs(): FS
      reads this
    {
      FS(used, disk, entries, Table(open), files, refs)
    }

    ghost predicate Valid()
      reads this
    {
      Unique(open) && Inv(Abs()) && refs == multiset{}
    }

    /** A disk of n sectors, just formatted: the free map and the root directory, with sixteen free slots. */
    constructor (n: nat, mapLength: nat)
      ensures Valid() && size == n && Abs() == Formatted(mapLength) && NoLeak(Abs())
      ensures Fresh(Abs(), mapLength)
    {
      var fs := Formatted(mapLength);
      size, used, disk, entries, files, refs := n, fs.used, fs.disk, fs.entries, fs.files, multiset{};
      open := [Opened(0, fs.opens[0])];
      new;
      TableOne(open[0]);
      assert Abs() == fs;
      FormattedInv(mapLength);
      FormattedFresh(mapLength);
    }

    // ----- free-map.c ------------------------------------------------------------------------

    /** free_map_allocate(): the first run of cnt unmarked sectors. */
    method Allocate(cnt: nat) returns (sector: Option<nat>)
      modifies `used
      ensures sector.Some? ==> FirstFit(size, old(used), sector.value, cnt) && used == old(used) + Interval(sector.value, cnt)
      ensures sector.None? ==> used == old(used) && forall p :: !Fits(size, used, p, cnt)
    {
      var p := 0;
      while p + cnt <= size
        invariant used == old(used) && forall q :: 0 <= q < p ==> !Fits(size, used, q, cnt)
        decreases size - p
      {
        if Interval(p, cnt) !! used {
          used := used + Interval(p, cnt);
          return Some(p);
        }
        p := p + 1;
      }
      sector := None;
    }

    /** free_map_release(), whose assertion is that the sectors are marked. */
    method Release(sector: nat, cnt: nat)
      requires Interval(sector, cnt) <= used
      modifies `used
      ensures used == old(used) - Interval(sector, cnt)
    {
      used := used - Interval(sector, cnt);
    }

    // ----- inode.c ------------------------------------------------------------------------------

    method FindOpen(s: nat) returns (i: nat)
      ensures i <= |open| && (i < |open| ==> open[i].sector == s) && (i == |open| ==> s !in Table(open))
    {
      i := 0;
      while i < |open| && open[i].sector != s
        invariant 0 <= i <= |open| && forall j :: 0 <= j < i ==> open[j].sector != s
      {
        i := i + 1;
      }
      TableHas(open, s);
    }

    /** inode_open(): a second open of an inode finds the first. */
    method InodeOpen(s: nat)
      requires Unique(open) && (s in Table(open) || s in disk)
      modifies `open, `refs
      ensures Unique(open) && Abs() == OpenInode(old(Abs()), s)
    {
      var i := FindOpen(s);
      if i < |open| {
        TableAt(open, i);
        TableUpdate(open, i, open[i].inode.(openCnt := open[i].inode.openCnt + 1));
        open := open[i := Opened(s, open[i].inode.(openCnt := open[i].inode.openCnt + 1))];
      } else {
        ghost var l := open;
        forall j | 0 <= j < |l|
          ensures l[j].sector != s
        {
          TableHas(l, s);
        }
        open := [Opened(s, Inode(1, false, 0, disk[s]))] + open;
        assert open[1..] == l;
      }
      refs := refs + multiset{s};
    }

    /** The part of inode_close() that frees the sectors of a removed inode. */
    method FreeBlocks(s: nat, d: DiskInode)
      requires SelfApart(d, s) && Extent(d, s) <= used
      modifies `used
      ensures used == old(used) - Extent(d, s)
    {
      OneSector(s);
      Release(s, 1);
      Release(d.start, Sectors(d.length));
    }

    /** The part of inode_close() for the last reference. */
    method LastClose(s: nat, i: nat)
      requires Unique(open) && i < |open| && open[i].sector == s
      requires SelfApart(open[i].inode.data, s) && Extent(open[i].inode.data, s) <= used
      modifies `open, `used
      ensures Unique(open) && Table(open) == Table(old(open)) - {s}
      ensures used == if old(open)[i].inode.removed then old(used) - Extent(old(open)[i].inode.data, s) else old(used)
    {
      var o := open[i].inode;
      TableRemove(open, i);
      open := open[..i] + open[i + 1..];
      if o.removed { FreeBlocks(s, o.data); }
    }

    /** inode_close().  The inode's sectors are marked when it is closed. */
    method InodeClose(s: nat)
      requires Unique(open) && Closable(Abs(), s)
      modifies `open, `refs, `used
      ensures Unique(open) && Abs() == CloseInode(old(Abs()), s)
    {
      var i := FindOpen(s);
      TableAt(open, i);
      var o := open[i].inode;
      if o.openCnt > 1 {
        TableUpdate(open, i, o.(openCnt := o.openCnt - 1));
        open := open[i := Opened(s, o.(openCnt := o.openCnt - 1))];
      } else {
        LastClose(s, i);
      }
      refs := refs - multiset{s};
    }

    /** free_map_allocate() of an inode sector, and inode_create() in it. */
    method MakeInode(length: nat) returns (sector: Option<nat>, ghost d: DiskInode)
      modifies `used, `disk
      ensures sector.None? <==> !Room(size, old(used), length)
      ensures sector.None? ==> Abs() == old(Abs())
      ensures sector.Some? ==> d.length == length && Unmarked(old(Abs()), sector.value, d)
      ensures sector.Some? ==> used == old(used) + Extent(d, sector.value) && disk == StoreInode(old(disk), sector.value, d)
      ensures sector.Some? ==> sector.value in disk && disk[sector.value] == d
    {
      d := DiskInode(0, length);
      sector := Allocate(1);
      if sector.Some? {
        OneSector(sector.value);
        var start := Allocate(Sectors(length));
        if start.Some? {
          var inode := DiskInode(start.value, length);
          StoredInode(disk, sector.value, inode);
          disk := StoreInode(disk, sector.value, inode);
          d := inode;
        } else {
          Release(sector.value, 1);
          sector := None;
        }
      }
    }

    // ----- directory.c ------------------------------------------------------------------------

    /** lookup(): the slot that name is in. */
    method Lookup(name: string) returns (slot: Option<nat>)
      ensures slot.Some? ==> slot.value < |entries| && entries[slot.value].inUse && entries[slot.value].name == name
      ensures slot.None? ==> NameFree(Abs(), name)
    {
      var i := 0;
      while i < |entries|
        invariant 0 <= i <= |entries| && forall j :: 0 <= j < i && entries[j].inUse ==> entries[j].name != name
      {
        if entries[i].inUse && entries[i].name == name { return Some(i); }
        i := i + 1;
      }
      slot := None;
    }

    /** dir_add(): the first free slot; the directory does not grow. */
    method DirAdd(name: string, sector: nat) returns (slot: Option<nat>)
      modifies `entries
      ensures slot.Some? <==> CanAdd(old(Abs()), name)
      ensures slot.None? ==> entries == old(entries)
      ensures slot.Some? ==> slot.value < |old(entries)| && !old(entries)[slot.value].inUse && entries == old(entries)[slot.value := Entry(sector, name, true)]
      ensures slot.Some? ==> forall i :: 0 <= i < slot.value ==> old(entries)[i].inUse
    {
      if |name| == 0 || |name| > NAME_MAX { return None; }
      var found := Lookup(name);
      if found.Some? { return None; }
      var i := 0;
      while i < |entries| && entries[i].inUse
        invariant 0 <= i <= |entries| && forall j :: 0 <= j < i ==> entries[j].inUse
      {
        i := i + 1;
      }
      if i == |entries| { return None; }
      entries := entries[i := Entry(sector, name, true)];
      slot := Some(i);
    }

    // ----- filesys.c ------------------------------------------------------------------------------

    /** filesys_create(), between the opening and the closing of the root directory. */
    method CreateIn(name: string, length: nat) returns (ok: bool, ghost r: Outcome)
      modifies `used, `disk, `entries
      ensures ok <==> r.Created?
      ensures CreateDid(size, old(Abs()), Abs(), name, length, r)
    {
      ghost var d;
      var sector;
      sector, d := MakeInode(length);
      if sector.None? { return false, Nothing; }
      var slot := DirAdd(name, sector.value);
      if slot.Some? {
        return true, Created(slot.value, sector.value, d);
      }
      OneSector(sector.value);
      Release(sector.value, 1);
      return false, Abandoned(sector.value, d);
    }

    /** filesys_create(): makes the file, or does nothing, or loses the data sectors of the file
        when the directory cannot take the name. */
    method Create(name: string, length: nat) returns (ok: bool, ghost r: Outcome)
      requires Valid()
      modifies this
      ensures Valid() && size == old(size) && CreateDid(size, old(Abs()), Abs(), name, length, r)
      ensures ok <==> Room(size, old(used), length) && CanAdd(old(Abs()), name)
      ensures ok ==> exists slot :: NewFile(old(Abs()), Abs(), name, length, slot)
      ensures SameInodes(old(Abs()), Abs())
    {
      ghost var fs := Abs();
      RootOpen(fs);
      InodeOpen(ROOT_DIR_SECTOR);
      ghost var fs1 := Abs();
      ok, r := CreateIn(name, length);
      CreateCommutes(size, fs, fs1, Abs(), name, length, r);
      InodeClose(ROOT_DIR_SECTOR);
      CreateKeeps(size, fs, Abs(), name, length, r);
      CreateMakes(size, fs, Abs(), name, length, r);
    }

    /** file_open() */
    method FileOpen(f: nat, s: nat)
      modifies `files, `refs
      ensures Abs() == AddFile(old(Abs()), f, s)
    {
      files := files[f := File(s, false)];
      refs := refs - multiset{s};
    }

    /** filesys_open(): f is the new struct file. */
    method Open(name: string, f: nat) returns (ok: bool, ghost slot: nat)
      requires Valid() && f !in files
      modifies this
      ensures Valid()
      ensures ok <==> !NameFree(old(Abs()), name)
      ensures !ok ==> Abs() == old(Abs())
      ensures ok ==> slot < |entries| && entries[slot].inUse && entries[slot].name == name
      ensures ok ==> SameStore(old(Abs()), Abs()) && files == old(files)[f := File(entries[slot].sector, false)]
      ensures ok ==> Abs() == OpenFile(old(Abs()), entries[slot].sector, f)
    {
      ghost var fs := Abs();
      RootOpen(fs);
      InodeOpen(ROOT_DIR_SECTOR);
      var found := Lookup(name);
      ok := found.Some?;
      slot := 0;
      if ok {
        var s := entries[found.value].sector;
        slot := found.value;
        OpenFileInv(fs, found.value, s, f);
        InodeOpen(s);
        InodeClose(ROOT_DIR_SECTOR);
        FileOpen(f, s);
      } else {
        RoundTrip(fs, Abs(), ROOT_DIR_SECTOR);
        InodeClose(ROOT_DIR_SECTOR);
        assert Abs() == fs;
      }
    }

    /** Sets the removed flag of an open inode, and frees its slot. */
    method Erase(slot: nat)
      requires Unique(open) && slot < |entries| && entries[slot].sector in Table(open)
      modifies `entries, `open
      ensures Unique(open) && Abs() == Unlink(old(Abs()), slot)
    {
      var s := entries[slot].sector;
      entries := entries[slot := entries[slot].(inUse := false)];
      var i := FindOpen(s);
      TableAt(open, i);
      TableUpdate(open, i, open[i].inode.(removed := true));
      open := open[i := Opened(s, open[i].inode.(removed := true))];
    }

    /** filesys_remove() */
    method Remove(name: string) returns (ok: bool, ghost slot: nat)
      requires Valid()
      modifies this
      ensures Valid()
      ensures ok <==> !NameFree(old(Abs()), name)
      ensures !ok ==> Abs() == old(Abs())
      ensures ok ==> slot < |old(entries)| && old(entries)[slot].inUse && old(entries)[slot].name == name
      ensures ok ==> RemoveEffect(old(Abs()), Abs(), slot, old(entries)[slot].sector)
      ensures ok ==> Abs() == RemoveFile(old(Abs()), slot, old(entries)[slot].sector)
    {
      ghost var fs := Abs();
      RootOpen(fs);
      InodeOpen(ROOT_DIR_SECTOR);
      var found := Lookup(name);
      ok := found.Some?;
      slot := 0;
      if ok {
        var s := entries[found.value].sector;
        slot := found.value;
        RemoveFileInv(fs, found.value, s);
        InodeOpen(s);
        Erase(found.value);
        InodeClose(s);
        InodeClose(ROOT_DIR_SECTOR);
      } else {
        RoundTrip(fs, Abs(), ROOT_DIR_SECTOR);
        InodeClose(ROOT_DIR_SECTOR);
        assert Abs() == fs;
      }
    }

    // ----- file.c ---------------------------------------------------------------------------------

    /** file_deny_write() and file_allow_write(), of a file in use. */
    method DenyWrite(f: nat, deny: bool)
      requires Valid() && f in files
      modifies `files, `open
      ensures Valid() && files == old(files)[f := File(old(files)[f].sector, deny)]
    {
      SetDenyInv(Abs(), f, deny);
      SetDenyWrite(f, deny);
    }

    /** The two functions at any point of the code. */
    method SetDenyWrite(f: nat, deny: bool)
      requires Unique(open) && f in files && files[f].sector in Table(open)
      modifies `files, `open
      ensures Unique(open) && Abs() == SetDeny(old(Abs()), f, deny)
      ensures files == old(files)[f := File(old(files)[f].sector, deny)]
    {
      if files[f].deny != deny {
        var s := files[f].sector;
        files := files[f := File(s, deny)];
        var i := FindOpen(s);
        TableAt(open, i);
        TableUpdate(open, i, Denied(open[i].inode, deny));
        open := open[i := Opened(s, Denied(open[i].inode, deny))];
      }
    }

    /** file_close() */
    method Close(file: Option<nat>)
      requires Valid() && (file.Some? ==> file.value in files)
      modifies this
      ensures Valid() && (file.None? ==> Abs() == old(Abs()))
      ensures file.Some? ==> var s := old(files)[file.value].sector;
        CloseEffect(old(Abs()), Abs(), file.value, s) && Abs() == CloseFile(old(Abs()), file.value, s)
    {
      if file.None? { return; }
      var f := file.value;
      ghost var fs := Abs();
      var s := files[f].sector;
      MayAllow(fs, f);
      CloseFileInv(fs, f, s);
      SetDenyWrite(f, false);
      files := files - {f};
      refs := refs + multiset{s};
      InodeClose(s);
    }

    /** file_duplicate(): g is the new struct file. */
    method Duplicate(f: nat, g: nat)
      requires Valid() && f in files && g !in files
      modifies this
      ensures Valid() && SameStore(old(Abs()), Abs()) && files == old(files)[g := old(files)[f]]
    {
      ghost var fs := Abs();
      var s, deny := files[f].sector, files[f].deny;
      DuplicateFileInv(fs, f, g, s, deny);
      InodeOpen(s);
      FileOpen(g, s);
      SetDenyWrite(g, deny);
    }
  }
}
