/** The base file system: free map, root directory, open inodes and open files as one state. */
module FileSystems {
  import opened Basics
  import opened Intervals

  const FREE_MAP_SECTOR: nat := 0
  const ROOT_DIR_SECTOR: nat := 1
  const NAME_MAX: nat := 14

  /** An inode on disk: its data extent. */
  datatype DiskInode = DiskInode(start: nat, length: nat)

  /** A struct inode in memory. */
  datatype Inode = Inode(openCnt: nat, removed: bool, denyCnt: nat, data: DiskInode)

  /** A slot of the root directory. */
  datatype Entry = Entry(sector: nat, name: string, inUse: bool)

  /** A struct file. */
  datatype File = File(sector: nat, deny: bool)

  /** used: the marked sectors of the free map.  disk: the inodes stored on disk.  refs: the
      references to open inodes that are not files, such as that of a directory while in use. */
  datatype FS = FS(used: set<nat>, disk: map<nat, DiskInode>, entries: seq<Entry>, opens: map<nat, Inode>,
                   files: map<nat, File>, refs: multiset<nat>)

  /** The sectors of an inode: its own and its data. */
  function Extent(d: DiskInode, s: nat): set<nat> {
    {s} + Interval(d.start, Sectors(d.length))
  }

  function Owned(fs: FS, s: nat): set<nat> {
    if s in fs.disk then Extent(fs.disk[s], s) else {s}
  }

  /** A directory entry in use leads to s. */
  ghost predicate Linked(fs: FS, s: nat) {
    exists i :: 0 <= i < |fs.entries| && fs.entries[i].inUse && fs.entries[i].sector == s
  }

  predicate Special(s: nat) {
    s == FREE_MAP_SECTOR || s == ROOT_DIR_SECTOR
  }

  /** s is the sector of an inode that is in use: linked, or still open, or one of the two fixed ones. */
  ghost predicate Live(fs: FS, s: nat) {
    Special(s) || Linked(fs, s) || s in fs.opens
  }

  // ----- the invariant -----------------------------------------------------------------------

  predicate SelfApart(d: DiskInode, s: nat) {
    s !in Interval(d.start, Sectors(d.length))
  }

  /** Inodes in use have all their sectors marked, and share none. */
  ghost predicate ExtentsOk(fs: FS) {
    && (forall s :: Live(fs, s) ==> s in fs.disk && SelfApart(fs.disk[s], s) && Owned(fs, s) <= fs.used)
    && (forall s, t :: Live(fs, s) && Live(fs, t) && s != t ==> Owned(fs, s) !! Owned(fs, t))
  }

  /** Names in use are unique, and so are the inodes they lead to. */
  ghost predicate NamesOk(fs: FS) {
    && (forall i, j :: 0 <= i < j < |fs.entries| && fs.entries[i].inUse && fs.entries[j].inUse ==>
          fs.entries[i].name != fs.entries[j].name && fs.entries[i].sector != fs.entries[j].sector)
    && (forall i :: 0 <= i < |fs.entries| && fs.entries[i].inUse ==> !Special(fs.entries[i].sector))
  }

  function FilesOf(files: map<nat, File>, s: nat): set<nat> {
    set f | f in files && files[f].sector == s
  }

  function DeniersOf(files: map<nat, File>, s: nat): set<nat> {
    set f | f in files && files[f].sector == s && files[f].deny
  }

  ghost predicate InodeOk(fs: FS, s: nat)
    requires s in fs.opens
  {
    var o := fs.opens[s];
    && o.openCnt == |FilesOf(fs.files, s)| + fs.refs[s] && o.openCnt > 0
    && o.denyCnt == |DeniersOf(fs.files, s)|
    && s in fs.disk && o.data == fs.disk[s]
    && (o.removed <==> !Special(s) && !Linked(fs, s))
  }

  /** Open inodes count their openers and deniers, and are removed when no name leads to them any more. */
  ghost predicate OpensOk(fs: FS) {
    && (forall s :: s in fs.opens ==> InodeOk(fs, s))
    && (forall f :: f in fs.files ==> fs.files[f].sector in fs.opens)
    && (forall s :: s in fs.refs ==> s in fs.opens)
  }

  ghost predicate Inv(fs: FS) {
    ExtentsOk(fs) && NamesOk(fs) && OpensOk(fs)
  }

  ghost predicate Covered(fs: FS, x: nat) {
    exists s :: Live(fs, s) && x in Owned(fs, s)
  }

  /** Every marked sector belongs to an inode in use. */
  ghost predicate NoLeak(fs: FS) {
    forall x :: x in fs.used ==> Covered(fs, x)
  }

  lemma CoveredBy(fs: FS, s: nat, x: nat)
    requires Live(fs, s) && x in Owned(fs, s)
    ensures Covered(fs, x)
  {
  }

  lemma Coverer(fs: FS, x: nat) returns (s: nat)
    requires Covered(fs, x)
    ensures Live(fs, s) && x in Owned(fs, s)
  {
    s :| Live(fs, s) && x in Owned(fs, s);
  }

  // ----- opening an inode --------------------------------------------------------------------

  /** inode_open() */
  function OpenInode(fs: FS, s: nat): FS {
    if s !in fs.opens && s !in fs.disk then fs
    else
      var o := if s in fs.opens then fs.opens[s].(openCnt := fs.opens[s].openCnt + 1) else Inode(1, false, 0, fs.disk[s]);
      fs.(opens := fs.opens[s := o], refs := fs.refs + multiset{s})
  }

  /** Nothing but the set of open inodes, which is the same or larger by s, and s is in use anyway. */
  lemma SameLive(fs: FS, fs': FS)
    requires fs'.used == fs.used && fs'.disk == fs.disk && fs'.entries == fs.entries
    requires forall s :: Live(fs', s) ==> Live(fs, s)
    requires ExtentsOk(fs) && NamesOk(fs)
    ensures ExtentsOk(fs') && NamesOk(fs') && forall s :: Linked(fs', s) == Linked(fs, s)
  {
  }

  lemma NotOpen(fs: FS, s: nat)
    requires OpensOk(fs) && s !in fs.opens
    ensures FilesOf(fs.files, s) == {} && DeniersOf(fs.files, s) == {} && fs.refs[s] == 0
  {
  }

  lemma OpenInodeInv(fs: FS, s: nat)
    requires Inv(fs) && (Special(s) || Linked(fs, s))
    ensures s in fs.disk && Inv(OpenInode(fs, s))
  {
    assert Live(fs, s);
    var fs' := OpenInode(fs, s);
    SameLive(fs, fs');
    if s !in fs.opens { NotOpen(fs, s); }
    forall t | t in fs'.opens
      ensures InodeOk(fs', t)
    {
      assert t in fs.opens ==> InodeOk(fs, t);
    }
  }

  // ----- closing an inode --------------------------------------------------------------------

  /** inode_close() */
  function CloseInode(fs: FS, s: nat): FS {
    if s !in fs.opens || fs.opens[s].openCnt == 0 then fs
    else
      var o := fs.opens[s];
      if o.openCnt > 1 then
        fs.(opens := fs.opens[s := o.(openCnt := o.openCnt - 1)], refs := fs.refs - multiset{s})
      else
        fs.(opens := fs.opens - {s}, refs := fs.refs - multiset{s}, used := if o.removed then fs.used - Extent(o.data, s) else fs.used)
  }

  lemma CloseOpens(fs: FS, s: nat)
    requires OpensOk(fs) && s in fs.refs
    ensures s in fs.opens && fs.opens[s].openCnt > 0 && OpensOk(CloseInode(fs, s))
  {
    assert InodeOk(fs, s);
    var fs' := CloseInode(fs, s);
    forall t | t in fs'.opens
      ensures InodeOk(fs', t)
    {
      assert InodeOk(fs, t);
      assert Linked(fs', t) == Linked(fs, t);
    }
    forall f | f in fs'.files
      ensures fs'.files[f].sector in fs'.opens
    {
      assert f in FilesOf(fs.files, fs.files[f].sector);
      if fs.files[f].sector == s { NonEmpty(FilesOf(fs.files, s), f); }
    }
  }

  lemma NonEmpty(a: set<nat>, x: nat)
    requires x in a
    ensures |a| > 0
  {
  }

  lemma CloseLive(fs: FS, s: nat, t: nat)
    requires OpensOk(fs) && s in fs.opens && fs.opens[s].openCnt > 0
    ensures Linked(CloseInode(fs, s), t) == Linked(fs, t)
    ensures Live(CloseInode(fs, s), t) ==> Live(fs, t)
    ensures Live(fs, t) && !Live(CloseInode(fs, s), t) ==> t == s && fs.opens[s].openCnt == 1 && fs.opens[s].removed
    ensures fs.opens[s].openCnt == 1 && fs.opens[s].removed ==> !Live(CloseInode(fs, s), s)
  {
    assert InodeOk(fs, s);
    assert CloseInode(fs, s).entries == fs.entries;
  }

  lemma CloseInodeInv(fs: FS, s: nat)
    requires Inv(fs) && s in fs.refs
    ensures s in fs.opens && fs.opens[s].openCnt > 0 && Inv(CloseInode(fs, s))
  {
    CloseOpens(fs, s);
    var fs' := CloseInode(fs, s);
    assert InodeOk(fs, s);
    forall t | Live(fs', t)
      ensures t in fs'.disk && SelfApart(fs'.disk[t], t) && Owned(fs', t) <= fs'.used
    {
      CloseLive(fs, s, t);
      assert Live(fs, s) && Live(fs, t);
    }
    forall t, u | Live(fs', t) && Live(fs', u) && t != u
      ensures Owned(fs', t) !! Owned(fs', u)
    {
      CloseLive(fs, s, t);
      CloseLive(fs, s, u);
    }
  }

  /** The last close of a removed inode frees exactly its sectors, which are all marked, and every
      other close frees none. */
  lemma CloseFrees(fs: FS, s: nat)
    requires Inv(fs) && s in fs.refs
    ensures s in fs.opens && fs.opens[s].openCnt > 0
    ensures var last := |FilesOf(fs.files, s)| + fs.refs[s] == 1 && !Special(s) && !Linked(fs, s);
      && CloseInode(fs, s).used == (if last then fs.used - Owned(fs, s) else fs.used)
      && (last ==> Owned(fs, s) <= fs.used)
  {
    CloseOpens(fs, s);
    assert InodeOk(fs, s) && Live(fs, s);
  }

  lemma CloseStillOwned(fs: FS, s: nat, t: nat, x: nat)
    requires OpensOk(fs) && s in fs.opens && fs.opens[s].openCnt > 0
    requires x in CloseInode(fs, s).used && Live(fs, t) && x in Owned(fs, t)
    ensures Live(CloseInode(fs, s), t) && x in Owned(CloseInode(fs, s), t)
  {
    assert InodeOk(fs, s);
    CloseLive(fs, s, t);
  }

  /** What inode_close() may rely on: the inode's sectors are marked, and are distinct. */
  lemma MayClose(fs: FS, s: nat)
    requires Inv(fs) && s in fs.refs
    ensures s in fs.opens && fs.opens[s].openCnt > 0
    ensures SelfApart(fs.opens[s].data, s) && Extent(fs.opens[s].data, s) <= fs.used
  {
    assert s in fs.opens;
    assert InodeOk(fs, s) && Live(fs, s);
  }

  lemma CloseInodeNoLeak(fs: FS, s: nat)
    requires OpensOk(fs) && NoLeak(fs) && s in fs.opens && fs.opens[s].openCnt > 0
    ensures NoLeak(CloseInode(fs, s))
  {
    var fs' := CloseInode(fs, s);
    assert fs'.used <= fs.used;
    forall x | x in fs'.used
      ensures Covered(fs', x)
    {
      var t := Coverer(fs, x);
      CloseStillOwned(fs, s, t, x);
      CoveredBy(fs', t, x);
    }
  }

  // ----- files -----------------------------------------------------------------------------------

  /** file_open(): a reference becomes a file. */
  function AddFile(fs: FS, f: nat, s: nat): FS {
    fs.(files := fs.files[f := File(s, false)], refs := fs.refs - multiset{s})
  }

  /** file_close(), up to the call of inode_close(): a file becomes a reference. */
  function DropFile(fs: FS, f: nat): FS {
    if f !in fs.files then fs else fs.(files := fs.files - {f}, refs := fs.refs + multiset{fs.files[f].sector})
  }

  lemma FilesAdded(files: map<nat, File>, f: nat, g: File, s: nat)
    requires f !in files
    ensures |FilesOf(files[f := g], s)| == |FilesOf(files, s)| + (if g.sector == s then 1 else 0)
    ensures |DeniersOf(files[f := g], s)| == |DeniersOf(files, s)| + (if g.sector == s && g.deny then 1 else 0)
  {
    var files' := files[f := g];
    if g.sector == s {
      assert FilesOf(files', s) == FilesOf(files, s) + {f};
    } else {
      assert FilesOf(files', s) == FilesOf(files, s);
    }
    if g.sector == s && g.deny {
      assert DeniersOf(files', s) == DeniersOf(files, s) + {f};
    } else {
      assert DeniersOf(files', s) == DeniersOf(files, s);
    }
  }

  lemma FilesDropped(files: map<nat, File>, f: nat, s: nat)
    requires f in files
    ensures |FilesOf(files, s)| == |FilesOf(files - {f}, s)| + (if files[f].sector == s then 1 else 0)
    ensures |DeniersOf(files, s)| == |DeniersOf(files - {f}, s)| + (if files[f].sector == s && files[f].deny then 1 else 0)
  {
    assert files == (files - {f})[f := files[f]];
    FilesAdded(files - {f}, f, files[f], s);
  }

  lemma AddFileInv(fs: FS, f: nat, s: nat)
    requires Inv(fs) && f !in fs.files && s in fs.refs
    ensures Inv(AddFile(fs, f, s))
  {
    var fs' := AddFile(fs, f, s);
    SameLive(fs, fs');
    forall t | t in fs'.opens
      ensures InodeOk(fs', t)
    {
      assert InodeOk(fs, t);
      FilesAdded(fs.files, f, File(s, false), t);
    }
  }

  lemma DropFileInv(fs: FS, f: nat)
    requires Inv(fs) && f in fs.files && !fs.files[f].deny
    ensures Inv(DropFile(fs, f))
  {
    var fs' := DropFile(fs, f);
    SameLive(fs, fs');
    forall t | t in fs'.opens
      ensures InodeOk(fs', t)
    {
      assert InodeOk(fs, t);
      FilesDropped(fs.files, f, t);
    }
  }

  /** file_deny_write() and file_allow_write(). */
  function SetDeny(fs: FS, f: nat, deny: bool): FS {
    if f !in fs.files || fs.files[f].deny == deny || fs.files[f].sector !in fs.opens then fs
    else
      var s := fs.files[f].sector;
      fs.(files := fs.files[f := File(s, deny)], opens := fs.opens[s := Denied(fs.opens[s], deny)])
  }

  /** inode_deny_write() and inode_allow_write() */
  function Denied(o: Inode, deny: bool): Inode {
    o.(denyCnt := if deny then o.denyCnt + 1 else if o.denyCnt > 0 then o.denyCnt - 1 else 0)
  }

  lemma FilesChanged(files: map<nat, File>, f: nat, deny: bool, s: nat)
    requires f in files && files[f].deny != deny
    ensures |FilesOf(files[f := File(files[f].sector, deny)], s)| == |FilesOf(files, s)|
    ensures |DeniersOf(files[f := File(files[f].sector, deny)], s)| ==
      |DeniersOf(files, s)| + (if files[f].sector != s then 0 else if deny then 1 else -1)
  {
    var g := File(files[f].sector, deny);
    assert files[f := g] == (files - {f})[f := g];
    FilesDropped(files, f, s);
    FilesAdded(files - {f}, f, g, s);
  }

  lemma MayAllow(fs: FS, f: nat)
    requires OpensOk(fs) && f in fs.files
    ensures fs.files[f].sector in fs.opens && (fs.files[f].deny ==> fs.opens[fs.files[f].sector].denyCnt > 0)
  {
    var s := fs.files[f].sector;
    assert InodeOk(fs, s);
    if fs.files[f].deny { NonEmpty(DeniersOf(fs.files, s), f); }
  }

  /** Denying and allowing keep the invariant, and the counts within what the assertions demand. */
  lemma SetDenyInv(fs: FS, f: nat, deny: bool)
    requires Inv(fs) && f in fs.files
    ensures fs.files[f].sector in fs.opens && (fs.files[f].deny ==> fs.opens[fs.files[f].sector].denyCnt > 0)
    ensures Inv(SetDeny(fs, f, deny))
    ensures var o := SetDeny(fs, f, deny).opens[fs.files[f].sector]; o.denyCnt <= o.openCnt
  {
    MayAllow(fs, f);
    var fs', s := SetDeny(fs, f, deny), fs.files[f].sector;
    SameLive(fs, fs');
    forall t | t in fs'.opens
      ensures InodeOk(fs', t)
    {
      assert InodeOk(fs, t);
      if fs.files[f].deny != deny { FilesChanged(fs.files, f, deny, t); }
    }
    assert InodeOk(fs', s);
    DeniersAreFiles(fs'.files, s);
  }

  lemma DeniersAreFiles(files: map<nat, File>, s: nat)
    ensures |DeniersOf(files, s)| <= |FilesOf(files, s)|
  {
    assert FilesOf(files, s) == DeniersOf(files, s) + (FilesOf(files, s) - DeniersOf(files, s));
  }

  // ----- creating a file -----------------------------------------------------------------------------

  /** inode_create() in sector p: the inode is stored, and its data sectors are zeroed. */
  function StoreInode(disk: map<nat, DiskInode>, p: nat, d: DiskInode): map<nat, DiskInode> {
    (disk - Interval(d.start, Sectors(d.length)))[p := d]
  }

  /** A new inode in p, with the extent d, under the given name in a free slot. */
  function CreateFile(fs: FS, slot: nat, name: string, p: nat, d: DiskInode): FS
    requires slot < |fs.entries|
  {
    fs.(used := fs.used + Extent(d, p), disk := StoreInode(fs.disk, p, d), entries := fs.entries[slot := Entry(p, name, true)])
  }

  /** Both are unmarked sectors. */
  ghost predicate Unmarked(fs: FS, p: nat, d: DiskInode) {
    Extent(d, p) !! fs.used && SelfApart(d, p)
  }

  ghost predicate NameFree(fs: FS, name: string) {
    forall i :: 0 <= i < |fs.entries| && fs.entries[i].inUse ==> fs.entries[i].name != name
  }

  /** A new inode does not touch those in use. */
  lemma StoreKeeps(fs: FS, p: nat, d: DiskInode, s: nat)
    requires ExtentsOk(fs) && Unmarked(fs, p, d) && Live(fs, s)
    ensures s != p && s in fs.disk && s in StoreInode(fs.disk, p, d) && StoreInode(fs.disk, p, d)[s] == fs.disk[s]
  {
    assert s in Owned(fs, s) && s in fs.used;
  }

  lemma CreateLive(fs: FS, slot: nat, name: string, p: nat, d: DiskInode, s: nat)
    requires slot < |fs.entries| && !fs.entries[slot].inUse
    ensures var fs' := CreateFile(fs, slot, name, p, d); Linked(fs', s) <==> Linked(fs, s) || s == p
    ensures var fs' := CreateFile(fs, slot, name, p, d); Live(fs', s) <==> Live(fs, s) || s == p
  {
    var fs' := CreateFile(fs, slot, name, p, d);
    if Linked(fs, s) {
      var i :| 0 <= i < |fs.entries| && fs.entries[i].inUse && fs.entries[i].sector == s;
      assert fs'.entries[i] == fs.entries[i];
    }
    assert fs'.entries[slot].sector == p && fs'.entries[slot].inUse;
  }

  lemma CreateExtents(fs: FS, slot: nat, name: string, p: nat, d: DiskInode)
    requires ExtentsOk(fs) && Unmarked(fs, p, d) && slot < |fs.entries| && !fs.entries[slot].inUse
    ensures ExtentsOk(CreateFile(fs, slot, name, p, d))
  {
    var fs' := CreateFile(fs, slot, name, p, d);
    forall s | Live(fs', s)
      ensures s in fs'.disk && SelfApart(fs'.disk[s], s) && Owned(fs', s) <= fs'.used && (s != p ==> Owned(fs', s) == Owned(fs, s) && Live(fs, s))
    {
      CreateLive(fs, slot, name, p, d, s);
      if s != p { StoreKeeps(fs, p, d, s); }
    }
    assert Owned(fs', p) == Extent(d, p);
  }

  lemma CreateOpens(fs: FS, slot: nat, name: string, p: nat, d: DiskInode)
    requires ExtentsOk(fs) && OpensOk(fs) && Unmarked(fs, p, d) && slot < |fs.entries| && !fs.entries[slot].inUse
    ensures OpensOk(CreateFile(fs, slot, name, p, d))
  {
    var fs' := CreateFile(fs, slot, name, p, d);
    forall s | s in fs'.opens
      ensures InodeOk(fs', s)
    {
      assert InodeOk(fs, s) && Live(fs, s);
      StoreKeeps(fs, p, d, s);
      CreateLive(fs, slot, name, p, d, s);
    }
  }

  lemma CreateNames(fs: FS, slot: nat, name: string, p: nat, d: DiskInode)
    requires ExtentsOk(fs) && NamesOk(fs) && Unmarked(fs, p, d) && slot < |fs.entries| && !fs.entries[slot].inUse && NameFree(fs, name)
    ensures NamesOk(CreateFile(fs, slot, name, p, d))
  {
    assert Live(fs, 0) && Live(fs, 1) && 0 in Owned(fs, 0) && 1 in Owned(fs, 1);
    assert !Special(p);
    forall i | 0 <= i < |fs.entries| && fs.entries[i].inUse
      ensures fs.entries[i].sector != p
    {
      assert Linked(fs, fs.entries[i].sector);
      StoreKeeps(fs, p, d, fs.entries[i].sector);
    }
  }

  lemma CreateInv(fs: FS, slot: nat, name: string, p: nat, d: DiskInode)
    requires Inv(fs) && Unmarked(fs, p, d) && slot < |fs.entries| && !fs.entries[slot].inUse && NameFree(fs, name)
    ensures Inv(CreateFile(fs, slot, name, p, d))
  {
    CreateExtents(fs, slot, name, p, d);
    CreateOpens(fs, slot, name, p, d);
    CreateNames(fs, slot, name, p, d);
  }

  lemma CreateCovers(fs: FS, slot: nat, name: string, p: nat, d: DiskInode, x: nat)
    requires ExtentsOk(fs) && Unmarked(fs, p, d) && slot < |fs.entries| && !fs.entries[slot].inUse
    requires Covered(fs, x) || x in Extent(d, p)
    ensures Covered(CreateFile(fs, slot, name, p, d), x)
  {
    var fs' := CreateFile(fs, slot, name, p, d);
    if x in Extent(d, p) {
      CreateLive(fs, slot, name, p, d, p);
      CoveredBy(fs', p, x);
    } else {
      var s := Coverer(fs, x);
      StoreKeeps(fs, p, d, s);
      CreateLive(fs, slot, name, p, d, s);
      CoveredBy(fs', s, x);
    }
  }

  lemma CreateNoLeak(fs: FS, slot: nat, name: string, p: nat, d: DiskInode)
    requires Inv(fs) && NoLeak(fs) && Unmarked(fs, p, d) && slot < |fs.entries| && !fs.entries[slot].inUse
    ensures NoLeak(CreateFile(fs, slot, name, p, d))
  {
    var fs' := CreateFile(fs, slot, name, p, d);
    forall x | x in fs'.used
      ensures Covered(fs', x)
    {
      CreateCovers(fs, slot, name, p, d, x);
    }
  }

  // ----- a creation that fails in dir_add() ------------------------------------------------------------

  /** The inode sector was released, but the data extent was not. */
  function Abandon(fs: FS, p: nat, d: DiskInode): FS {
    fs.(used := fs.used + Interval(d.start, Sectors(d.length)), disk := StoreInode(fs.disk, p, d))
  }

  lemma AbandonInv(fs: FS, p: nat, d: DiskInode)
    requires Inv(fs) && Unmarked(fs, p, d)
    ensures Inv(Abandon(fs, p, d))
  {
    var fs' := Abandon(fs, p, d);
    assert forall s :: Linked(fs', s) == Linked(fs, s);
    forall s | Live(fs', s)
      ensures s in fs'.disk && SelfApart(fs'.disk[s], s) && Owned(fs', s) == Owned(fs, s) && Live(fs, s) && Owned(fs', s) <= fs'.used
    {
      assert Live(fs, s);
      StoreKeeps(fs, p, d, s);
    }
    forall s | s in fs'.opens
      ensures InodeOk(fs', s)
    {
      assert InodeOk(fs, s) && Live(fs, s);
      StoreKeeps(fs, p, d, s);
    }
  }

  lemma AbandonLive(fs: FS, p: nat, d: DiskInode, s: nat)
    requires ExtentsOk(fs) && Unmarked(fs, p, d)
    ensures Live(Abandon(fs, p, d), s) <==> Live(fs, s)
    ensures Live(fs, s) ==> Owned(Abandon(fs, p, d), s) == Owned(fs, s)
  {
    assert Linked(Abandon(fs, p, d), s) == Linked(fs, s);
    if Live(fs, s) { StoreKeeps(fs, p, d, s); }
  }

  lemma AbandonCovers(fs: FS, p: nat, d: DiskInode, x: nat)
    requires ExtentsOk(fs) && Unmarked(fs, p, d)
    ensures Covered(Abandon(fs, p, d), x) <==> Covered(fs, x)
  {
    var fs' := Abandon(fs, p, d);
    if Covered(fs, x) {
      var s := Coverer(fs, x);
      AbandonLive(fs, p, d, s);
      CoveredBy(fs', s, x);
    }
    if Covered(fs', x) {
      var s := Coverer(fs', x);
      AbandonLive(fs, p, d, s);
      CoveredBy(fs, s, x);
    }
  }

  lemma CoveredIsMarked(fs: FS, x: nat)
    requires ExtentsOk(fs) && Covered(fs, x)
    ensures x in fs.used
  {
    var s := Coverer(fs, x);
  }

  /** Nothing is lost exactly when the file was to be empty. */
  lemma AbandonLeaks(fs: FS, p: nat, d: DiskInode)
    requires Inv(fs) && NoLeak(fs) && Unmarked(fs, p, d)
    ensures NoLeak(Abandon(fs, p, d)) <==> d.length == 0
  {
    var fs', x := Abandon(fs, p, d), d.start;
    IntervalHas(d.start, Sectors(d.length));
    if d.length > 0 {
      assert x in Extent(d, p) && x in fs'.used && x !in fs.used;
      AbandonCovers(fs, p, d, x);
      if Covered(fs, x) { CoveredIsMarked(fs, x); }
    } else {
      forall y | y in fs'.used
        ensures Covered(fs', y)
      {
        AbandonCovers(fs, p, d, y);
      }
    }
  }

  // ----- removing a name -----------------------------------------------------------------------------------

  /** dir_remove(), with the inode open: the slot is freed and the inode marked removed. */
  function Unlink(fs: FS, slot: nat): FS {
    if slot >= |fs.entries| || fs.entries[slot].sector !in fs.opens then fs
    else
      var e := fs.entries[slot];
      fs.(entries := fs.entries[slot := e.(inUse := false)], opens := fs.opens[e.sector := fs.opens[e.sector].(removed := true)])
  }

  lemma UnlinkLinked(fs: FS, slot: nat, s: nat)
    requires NamesOk(fs) && slot < |fs.entries| && fs.entries[slot].inUse && fs.entries[slot].sector in fs.opens
    ensures Linked(Unlink(fs, slot), s) <==> Linked(fs, s) && s != fs.entries[slot].sector
    ensures Live(Unlink(fs, slot), s) <==> Live(fs, s)
  {
    var fs' := Unlink(fs, slot);
    if Linked(fs, s) && s != fs.entries[slot].sector {
      var i :| 0 <= i < |fs.entries| && fs.entries[i].inUse && fs.entries[i].sector == s;
      assert fs'.entries[i] == fs.entries[i];
    }
    if Linked(fs', s) {
      var i :| 0 <= i < |fs'.entries| && fs'.entries[i].inUse && fs'.entries[i].sector == s;
      assert i != slot && fs.entries[i] == fs'.entries[i];
    }
  }

  lemma UnlinkExtents(fs: FS, slot: nat)
    requires ExtentsOk(fs) && NamesOk(fs) && slot < |fs.entries| && fs.entries[slot].inUse && fs.entries[slot].sector in fs.opens
    ensures ExtentsOk(Unlink(fs, slot))
  {
    var fs' := Unlink(fs, slot);
    forall s | Live(fs', s)
      ensures s in fs'.disk && SelfApart(fs'.disk[s], s) && Owned(fs', s) <= fs'.used
    {
      UnlinkLinked(fs, slot, s);
    }
    forall s, t | Live(fs', s) && Live(fs', t) && s != t
      ensures Owned(fs', s) !! Owned(fs', t)
    {
      UnlinkLinked(fs, slot, s);
      UnlinkLinked(fs, slot, t);
      assert Owned(fs, s) !! Owned(fs, t);
    }
  }

  lemma UnlinkNames(fs: FS, slot: nat)
    requires NamesOk(fs) && slot < |fs.entries| && fs.entries[slot].sector in fs.opens
    ensures NamesOk(Unlink(fs, slot))
  {
  }

  lemma UnlinkOpens(fs: FS, slot: nat)
    requires NamesOk(fs) && OpensOk(fs) && slot < |fs.entries| && fs.entries[slot].inUse && fs.entries[slot].sector in fs.opens
    ensures OpensOk(Unlink(fs, slot))
  {
    var fs' := Unlink(fs, slot);
    forall s | s in fs'.opens
      ensures InodeOk(fs', s)
    {
      assert InodeOk(fs, s);
      UnlinkLinked(fs, slot, s);
    }
  }

  lemma UnlinkInv(fs: FS, slot: nat)
    requires Inv(fs) && slot < |fs.entries| && fs.entries[slot].inUse && fs.entries[slot].sector in fs.opens
    ensures Inv(Unlink(fs, slot))
  {
    UnlinkExtents(fs, slot);
    UnlinkNames(fs, slot);
    UnlinkOpens(fs, slot);
  }

  lemma UnlinkNoLeak(fs: FS, slot: nat)
    requires NamesOk(fs) && NoLeak(fs) && slot < |fs.entries| && fs.entries[slot].inUse && fs.entries[slot].sector in fs.opens
    ensures NoLeak(Unlink(fs, slot))
  {
    var fs' := Unlink(fs, slot);
    forall x | x in fs'.used
      ensures Covered(fs', x)
    {
      var s := Coverer(fs, x);
      UnlinkLinked(fs, slot, s);
      CoveredBy(fs', s, x);
    }
  }

  // ----- the root directory while it is in use -----------------------------------------------------------------

  /** inode_open() and inode_close() around anything that leaves open inodes alone cancel out. */
  lemma RoundTrip(fs: FS, fs': FS, s: nat)
    requires s in fs.disk && (s in fs.opens ==> fs.opens[s].openCnt > 0)
    requires fs'.opens == OpenInode(fs, s).opens && fs'.refs == OpenInode(fs, s).refs
    ensures s in fs'.opens && fs'.opens[s].openCnt > 0
    ensures CloseInode(fs', s) == fs'.(opens := fs.opens, refs := fs.refs)
  {
    assert fs'.refs - multiset{s} == fs.refs;
    if s in fs.opens {
      assert fs'.opens[s := fs.opens[s]] == fs.opens;
    } else {
      assert fs'.opens - {s} == fs.opens;
    }
  }

  lemma RootOpen(fs: FS)
    requires Inv(fs)
    ensures ROOT_DIR_SECTOR in fs.disk && (ROOT_DIR_SECTOR in fs.opens ==> fs.opens[ROOT_DIR_SECTOR].openCnt > 0)
    ensures var o := OpenInode(fs, ROOT_DIR_SECTOR).opens[ROOT_DIR_SECTOR];
      SelfApart(o.data, ROOT_DIR_SECTOR) && Extent(o.data, ROOT_DIR_SECTOR) <= fs.used
  {
    assert Live(fs, ROOT_DIR_SECTOR);
    if ROOT_DIR_SECTOR in fs.opens { assert InodeOk(fs, ROOT_DIR_SECTOR); }
  }

  /** dir_add() succeeds: the name is valid and not in use, and a slot is free. */
  ghost predicate CanAdd(fs: FS, name: string) {
    0 < |name| <= NAME_MAX && NameFree(fs, name) && exists i :: 0 <= i < |fs.entries| && !fs.entries[i].inUse
  }

  // ----- whole operations ------------------------------------------------------------------------------------------

  /** filesys_open() of the name in a slot. */
  function OpenFile(fs: FS, s: nat, f: nat): FS {
    AddFile(CloseInode(OpenInode(OpenInode(fs, ROOT_DIR_SECTOR), s), ROOT_DIR_SECTOR), f, s)
  }

  /** What inode_close() demands: that the inode is open and its sectors are marked. */
  ghost predicate Closable(fs: FS, s: nat) {
    s in fs.opens && fs.opens[s].openCnt > 0 && SelfApart(fs.opens[s].data, s) && Extent(fs.opens[s].data, s) <= fs.used
  }

  predicate SameStore(fs: FS, fs': FS) {
    fs'.used == fs.used && fs'.disk == fs.disk && fs'.entries == fs.entries
  }

  /** The middle of filesys_open(): both inodes opened, and the root directory closed again. */
  lemma OpenPair(fs: FS, s: nat)
    requires Inv(fs) && Linked(fs, s) && fs.refs == multiset{}
    ensures ROOT_DIR_SECTOR in fs.disk && s in fs.disk
    ensures Closable(OpenInode(OpenInode(fs, ROOT_DIR_SECTOR), s), ROOT_DIR_SECTOR)
    ensures var fs' := CloseInode(OpenInode(OpenInode(fs, ROOT_DIR_SECTOR), s), ROOT_DIR_SECTOR);
      Inv(fs') && fs'.refs == multiset{s} && SameStore(fs, fs') && fs'.files == fs.files
  {
    var r := ROOT_DIR_SECTOR;
    OpenInodeInv(fs, r);
    var fs1 := OpenInode(fs, r);
    assert Linked(fs1, s);
    OpenInodeInv(fs1, s);
    var fs2 := OpenInode(fs1, s);
    MayClose(fs2, r);
    CloseInodeInv(fs2, r);
    CloseFrees(fs2, r);
  }

  lemma OpenFileInv(fs: FS, slot: nat, s: nat, f: nat)
    requires Inv(fs) && slot < |fs.entries| && fs.entries[slot].inUse && fs.entries[slot].sector == s && f !in fs.files && fs.refs == multiset{}
    ensures ROOT_DIR_SECTOR in fs.disk && s in fs.disk
    ensures Closable(OpenInode(OpenInode(fs, ROOT_DIR_SECTOR), s), ROOT_DIR_SECTOR)
    ensures Inv(OpenFile(fs, s, f)) && OpenFile(fs, s, f).refs == multiset{}
    ensures SameStore(fs, OpenFile(fs, s, f)) && OpenFile(fs, s, f).files == fs.files[f := File(s, false)]
  {
    assert Linked(fs, s);
    OpenPair(fs, s);
    AddFileInv(CloseInode(OpenInode(OpenInode(fs, ROOT_DIR_SECTOR), s), ROOT_DIR_SECTOR), f, s);
  }

  /** filesys_remove() of the name in a slot. */
  function RemoveFile(fs: FS, slot: nat, s: nat): FS {
    CloseInode(CloseInode(Unlink(OpenInode(OpenInode(fs, ROOT_DIR_SECTOR), s), slot), s), ROOT_DIR_SECTOR)
  }

  /** The name goes at once; the sectors go with the last file that is open, or at once if none is. */
  ghost predicate RemoveEffect(fs: FS, fs': FS, slot: nat, s: nat)
    requires slot < |fs.entries|
  {
    && fs'.refs == fs.refs && fs'.disk == fs.disk && fs'.files == fs.files
    && fs'.entries == fs.entries[slot := fs.entries[slot].(inUse := false)]
    && fs'.used == if FilesOf(fs.files, s) == {} then fs.used - Owned(fs, s) else fs.used
  }

  /** With s open once more and its name gone, closing it again. */
  lemma RemoveMiddle(fs: FS, slot: nat, s: nat)
    requires Inv(fs) && slot < |fs.entries| && fs.entries[slot].inUse && fs.entries[slot].sector == s && s !in fs.refs
    ensures s in fs.disk && s in OpenInode(fs, s).opens && Closable(Unlink(OpenInode(fs, s), slot), s)
    ensures var fs' := CloseInode(Unlink(OpenInode(fs, s), slot), s); Inv(fs') && RemoveEffect(fs, fs', slot, s)
  {
    assert Linked(fs, s) && !Special(s);
    OpenInodeInv(fs, s);
    var fs1 := OpenInode(fs, s);
    UnlinkInv(fs1, slot);
    UnlinkLinked(fs1, slot, s);
    var fs2 := Unlink(fs1, slot);
    MayClose(fs2, s);
    CloseInodeInv(fs2, s);
    CloseFrees(fs2, s);
    if FilesOf(fs.files, s) != {} { SomeFile(FilesOf(fs.files, s)); }
  }

  lemma SomeFile(a: set<nat>)
    requires a != {}
    ensures |a| > 0
  {
  }

  lemma RemoveFileInv(fs: FS, slot: nat, s: nat)
    requires Inv(fs) && slot < |fs.entries| && fs.entries[slot].inUse && fs.entries[slot].sector == s && fs.refs == multiset{}
    ensures ROOT_DIR_SECTOR in fs.disk
    ensures var fs1 := OpenInode(fs, ROOT_DIR_SECTOR);
      && s in fs1.disk && s in OpenInode(fs1, s).opens && Closable(Unlink(OpenInode(fs1, s), slot), s)
      && Closable(CloseInode(Unlink(OpenInode(fs1, s), slot), s), ROOT_DIR_SECTOR)
    ensures Inv(RemoveFile(fs, slot, s)) && RemoveEffect(fs, RemoveFile(fs, slot, s), slot, s)
  {
    var r := ROOT_DIR_SECTOR;
    OpenInodeInv(fs, r);
    var fs1 := OpenInode(fs, r);
    assert !Special(s);
    RemoveMiddle(fs1, slot, s);
    var fs2 := CloseInode(Unlink(OpenInode(fs1, s), slot), s);
    MayClose(fs2, r);
    CloseInodeInv(fs2, r);
    CloseFrees(fs2, r);
  }

  /** file_close() */
  function CloseFile(fs: FS, f: nat, s: nat): FS {
    CloseInode(DropFile(SetDeny(fs, f, false), f), s)
  }

  lemma DropUpdated(files: map<nat, File>, f: nat, g: File)
    ensures files[f := g] - {f} == files - {f}
  {
  }

  /** Up to inode_close(), file_close() changes neither the store nor what is linked. */
  lemma CloseFileStart(fs: FS, f: nat, s: nat)
    requires Inv(fs) && f in fs.files && fs.files[f].sector == s && fs.refs == multiset{}
    ensures var fs' := DropFile(SetDeny(fs, f, false), f);
      Inv(fs') && s in fs'.refs && fs'.refs == multiset{s} && SameStore(fs, fs') && fs'.files == fs.files - {f}
  {
    SetDenyInv(fs, f, false);
    DropFileInv(SetDeny(fs, f, false), f);
    DropUpdated(fs.files, f, File(s, false));
  }

  lemma CloseFileInv(fs: FS, f: nat, s: nat)
    requires Inv(fs) && f in fs.files && fs.files[f].sector == s && fs.refs == multiset{}
    ensures Closable(DropFile(SetDeny(fs, f, false), f), s) && Inv(CloseFile(fs, f, s))
    ensures CloseEffect(fs, CloseFile(fs, f, s), f, s)
  {
    CloseFileStart(fs, f, s);
    var fs2 := DropFile(SetDeny(fs, f, false), f);
    MayClose(fs2, s);
    CloseInodeInv(fs2, s);
    CloseFrees(fs2, s);
    assert Linked(fs2, s) == Linked(fs, s);
    if FilesOf(fs2.files, s) != {} { SomeFile(FilesOf(fs2.files, s)); }
  }

  /** Closing the last file of a removed inode frees exactly its sectors. */
  ghost predicate CloseEffect(fs: FS, fs': FS, f: nat, s: nat) {
    && fs'.refs == multiset{} && fs'.disk == fs.disk && fs'.entries == fs.entries && fs'.files == fs.files - {f}
    && fs'.used == if FilesOf(fs'.files, s) == {} && !Special(s) && !Linked(fs, s) then fs.used - Owned(fs, s) else fs.used
  }

  /** file_duplicate(): g is a second file for the inode of f, and denies writes if f does. */
  function DuplicateFile(fs: FS, f: nat, g: nat, s: nat, deny: bool): FS {
    SetDeny(AddFile(OpenInode(fs, s), g, s), g, deny)
  }

  lemma UpdateTwice(files: map<nat, File>, g: nat, a: File, b: File)
    ensures files[g := a][g := b] == files[g := b]
  {
  }

  lemma DuplicateFileInv(fs: FS, f: nat, g: nat, s: nat, deny: bool)
    requires Inv(fs) && f in fs.files && fs.files[f] == File(s, deny) && g !in fs.files && fs.refs == multiset{}
    ensures s in fs.opens
    ensures Inv(DuplicateFile(fs, f, g, s, deny)) && DuplicateFile(fs, f, g, s, deny).refs == multiset{}
    ensures SameStore(fs, DuplicateFile(fs, f, g, s, deny)) && DuplicateFile(fs, f, g, s, deny).files == fs.files[g := File(s, deny)]
  {
    ReopenInv(fs, s);
    var fs1 := OpenInode(fs, s);
    AddFileInv(fs1, g, s);
    SetDenyInv(AddFile(fs1, g, s), g, deny);
    UpdateTwice(fs.files, g, File(s, false), File(s, deny));
  }

  lemma ReopenOpens(fs: FS, s: nat)
    requires OpensOk(fs) && s in fs.opens
    ensures OpensOk(OpenInode(fs, s))
  {
    var fs' := OpenInode(fs, s);
    forall t | t in fs'.opens
      ensures InodeOk(fs', t)
    {
      assert InodeOk(fs, t);
      assert Linked(fs', t) == Linked(fs, t);
    }
  }

  /** inode_reopen() */
  lemma ReopenInv(fs: FS, s: nat)
    requires Inv(fs) && s in fs.opens
    ensures Inv(OpenInode(fs, s))
  {
    var fs' := OpenInode(fs, s);
    forall t | Live(fs', t)
      ensures Live(fs, t)
    {
      assert Linked(fs', t) == Linked(fs, t);
    }
    SameLive(fs, fs');
    ReopenOpens(fs, s);
  }

  // ----- a new file system -----------------------------------------------------------------------------------------

  /** do_format() and free_map_open(): the free map's file, of the given length, is open as file 0,
      and the root directory has sixteen free slots of 20 bytes. */
  function Formatted(mapLength: nat): FS {
    var map0, root := DiskInode(2, mapLength), DiskInode(2 + Sectors(mapLength), 320);
    FS(Extent(map0, 0) + Extent(root, 1), map[0 := map0, 1 := root], seq(16, _ => Entry(0, "", false)),
       map[0 := Inode(1, false, 0, map0)], map[0 := File(0, false)], multiset{})
  }

  lemma FormattedLive(mapLength: nat, s: nat)
    ensures Live(Formatted(mapLength), s) <==> Special(s)
    ensures !Linked(Formatted(mapLength), s)
  {
  }

  lemma FormattedOpens(mapLength: nat)
    ensures OpensOk(Formatted(mapLength))
  {
    var fs := Formatted(mapLength);
    assert FilesOf(fs.files, 0) == {0} && DeniersOf(fs.files, 0) == {};
    FormattedLive(mapLength, 0);
    assert InodeOk(fs, 0);
  }

  lemma FormattedNoLeak(mapLength: nat)
    ensures NoLeak(Formatted(mapLength))
  {
    var fs := Formatted(mapLength);
    forall x | x in fs.used
      ensures Covered(fs, x)
    {
      CoveredBy(fs, if x in Owned(fs, 0) then 0 else 1, x);
    }
  }

  lemma FormattedNames(mapLength: nat)
    ensures NamesOk(Formatted(mapLength))
  {
  }

  lemma FormattedInv(mapLength: nat)
    ensures Inv(Formatted(mapLength)) && NoLeak(Formatted(mapLength))
  {
    FormattedExtents(mapLength);
    FormattedNames(mapLength);
    FormattedOpens(mapLength);
    FormattedNoLeak(mapLength);
  }

  lemma FormattedExtents(mapLength: nat)
    ensures ExtentsOk(Formatted(mapLength))
  {
    var fs, k := Formatted(mapLength), Sectors(mapLength);
    IntervalHas(2, k);
    IntervalHas(2 + k, 1);
    forall s | Live(fs, s)
      ensures s == 0 || s == 1
    {
      FormattedLive(mapLength, s);
    }
    assert Owned(fs, 0) !! Owned(fs, 1);
  }

  // ----- no operation but a failed creation loses sectors ----------------------------------------------------------------

  lemma SameCover(fs: FS, fs': FS)
    requires NoLeak(fs) && fs'.used <= fs.used && fs'.disk == fs.disk && fs'.entries == fs.entries && fs.opens.Keys <= fs'.opens.Keys
    ensures NoLeak(fs')
  {
    forall x | x in fs'.used
      ensures Covered(fs', x)
    {
      var s := Coverer(fs, x);
      assert Linked(fs', s) == Linked(fs, s);
      CoveredBy(fs', s, x);
    }
  }

  lemma OpenInodeNoLeak(fs: FS, s: nat)
    requires Inv(fs) && NoLeak(fs) && (Special(s) || Linked(fs, s))
    ensures s in fs.disk && Inv(OpenInode(fs, s)) && NoLeak(OpenInode(fs, s))
  {
    OpenInodeInv(fs, s);
    SameCover(fs, OpenInode(fs, s));
  }

  lemma OpenPairNoLeak(fs: FS, s: nat)
    requires Inv(fs) && NoLeak(fs) && Linked(fs, s)
    ensures NoLeak(CloseInode(OpenInode(OpenInode(fs, ROOT_DIR_SECTOR), s), ROOT_DIR_SECTOR))
  {
    OpenInodeNoLeak(fs, ROOT_DIR_SECTOR);
    var fs1 := OpenInode(fs, ROOT_DIR_SECTOR);
    assert Linked(fs1, s);
    OpenInodeNoLeak(fs1, s);
    CloseInodeNoLeak(OpenInode(fs1, s), ROOT_DIR_SECTOR);
  }

  lemma OpenFileNoLeak(fs: FS, slot: nat, s: nat, f: nat)
    requires Inv(fs) && NoLeak(fs) && slot < |fs.entries| && fs.entries[slot].inUse && fs.entries[slot].sector == s && f !in fs.files && fs.refs == multiset{}
    ensures NoLeak(OpenFile(fs, s, f))
  {
    assert Linked(fs, s);
    OpenPairNoLeak(fs, s);
    SameCover(CloseInode(OpenInode(OpenInode(fs, ROOT_DIR_SECTOR), s), ROOT_DIR_SECTOR), OpenFile(fs, s, f));
  }

  lemma RemoveFileNoLeak(fs: FS, slot: nat, s: nat)
    requires Inv(fs) && NoLeak(fs) && slot < |fs.entries| && fs.entries[slot].inUse && fs.entries[slot].sector == s && fs.refs == multiset{}
    ensures NoLeak(RemoveFile(fs, slot, s))
  {
    RemoveFileInv(fs, slot, s);
    OpenInodeInv(fs, ROOT_DIR_SECTOR);
    var fs1 := OpenInode(fs, ROOT_DIR_SECTOR);
    SameCover(fs, fs1);
    RemoveMiddle(fs1, slot, s);
    RemoveMiddleNoLeak(fs1, slot, s);
    CloseInodeNoLeak(CloseInode(Unlink(OpenInode(fs1, s), slot), s), ROOT_DIR_SECTOR);
  }

  lemma RemoveMiddleNoLeak(fs: FS, slot: nat, s: nat)
    requires Inv(fs) && NoLeak(fs) && slot < |fs.entries| && fs.entries[slot].inUse && fs.entries[slot].sector == s && s !in fs.refs
    ensures NoLeak(CloseInode(Unlink(OpenInode(fs, s), slot), s))
  {
    assert Linked(fs, s);
    OpenInodeInv(fs, s);
    var fs1 := OpenInode(fs, s);
    SameCover(fs, fs1);
    UnlinkInv(fs1, slot);
    UnlinkNoLeak(fs1, slot);
    MayClose(Unlink(fs1, slot), s);
    CloseInodeNoLeak(Unlink(fs1, slot), s);
  }

  lemma CloseFileNoLeak(fs: FS, f: nat, s: nat)
    requires Inv(fs) && NoLeak(fs) && f in fs.files && fs.files[f].sector == s && fs.refs == multiset{}
    ensures NoLeak(CloseFile(fs, f, s))
  {
    CloseFileStart(fs, f, s);
    var fs' := DropFile(SetDeny(fs, f, false), f);
    SameCover(fs, fs');
    MayClose(fs', s);
    CloseInodeNoLeak(fs', s);
  }
}
