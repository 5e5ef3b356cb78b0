/** The contents of files on a disk whose sectors are shared out as FileSystems says. */
module FileContents {
  import opened Basics
  import opened Intervals
  import Data = InodeData
  import Files = FileSystems

  /** The extent of inode s. */
  function ExtentOf(fs: Files.FS, s: nat): Data.Extent
    requires s in fs.disk
  {
    Data.Extent(fs.disk[s].start, fs.disk[s].length, if s in fs.opens then fs.opens[s].denyCnt else 0)
  }

  /** disk holds the inodes in use and their data. */
  ghost predicate Holds(fs: Files.FS, disk: seq<seq<nat>>) {
    forall s: nat :: Files.Live(fs, s) ==> s in fs.disk && s < |disk| && Data.DiskOk(disk, ExtentOf(fs, s))
  }

  /** inode_write_at() to inode s, of n bytes of buffer, took disk from was to now. */
  ghost predicate WroteTo(fs: Files.FS, was: seq<seq<nat>>, now: seq<seq<nat>>, s: nat, offset: nat, buffer: seq<nat>, n: nat) {
    && Files.Live(fs, s) && s in fs.disk
    && Data.Written(was, now, ExtentOf(fs, s), offset, buffer, n) && offset + n <= Data.Max(offset, fs.disk[s].length)
  }

  /** A sector that is not one of the data sectors of s is as it was. */
  lemma SectorSpared(fs: Files.FS, was: seq<seq<nat>>, now: seq<seq<nat>>, s: nat, offset: nat, buffer: seq<nat>, n: nat, x: nat)
    requires Holds(fs, was) && WroteTo(fs, was, now, s, offset, buffer, n) && x < |was|
    requires x !in Interval(fs.disk[s].start, Sectors(fs.disk[s].length))
    ensures x < |now| && now[x] == was[x]
  {
    IntervalHas(fs.disk[s].start, Sectors(fs.disk[s].length));
    Data.WriteSparesOthers(was, now, ExtentOf(fs, s), offset, buffer, n, x);
  }

  /** The sectors of another inode in use are not those of s. */
  lemma OtherSectors(fs: Files.FS, s: nat, t: nat, x: nat)
    requires Files.Inv(fs) && Files.Live(fs, s) && Files.Live(fs, t) && s != t && x in Files.Owned(fs, t)
    ensures s in fs.disk && x !in Interval(fs.disk[s].start, Sectors(fs.disk[s].length))
  {
    assert x !in Files.Owned(fs, s);
  }

  /** A write to one inode leaves the inode sector and the contents of every other inode in use, open or
      named in the directory, as they were. */
  lemma WriteSparesFiles(fs: Files.FS, was: seq<seq<nat>>, now: seq<seq<nat>>, s: nat, offset: nat, buffer: seq<nat>, n: nat, t: nat)
    requires Files.Inv(fs) && Holds(fs, was) && WroteTo(fs, was, now, s, offset, buffer, n) && Files.Live(fs, t) && t != s
    ensures t in fs.disk && Data.DiskOk(was, ExtentOf(fs, t)) && Data.DiskOk(now, ExtentOf(fs, t))
    ensures Data.Flat(now, ExtentOf(fs, t)) == Data.Flat(was, ExtentOf(fs, t))
    ensures t < |was| == |now| && now[t] == was[t]
  {
    var e := ExtentOf(fs, t);
    OtherSectors(fs, s, t, t);
    SectorSpared(fs, was, now, s, offset, buffer, n, t);
    forall i | 0 <= i < e.length
      ensures Data.FileByte(now, e, i) == Data.FileByte(was, e, i)
    {
      var x := e.start + i / 512;
      IntervalHas(e.start, Sectors(e.length));
      assert x in Files.Owned(fs, t);
      OtherSectors(fs, s, t, x);
      SectorSpared(fs, was, now, s, offset, buffer, n, x);
    }
  }

  /** Its own inode sector is not touched either, and the file has the slice replaced. */
  lemma WriteKeepsInode(fs: Files.FS, was: seq<seq<nat>>, now: seq<seq<nat>>, s: nat, offset: nat, buffer: seq<nat>, n: nat)
    requires Files.Inv(fs) && Holds(fs, was) && WroteTo(fs, was, now, s, offset, buffer, n) && offset <= fs.disk[s].length
    ensures Data.DiskOk(was, ExtentOf(fs, s)) && Data.DiskOk(now, ExtentOf(fs, s)) && s < |was| == |now| && now[s] == was[s]
    ensures var a := Data.Flat(was, ExtentOf(fs, s)); Data.Flat(now, ExtentOf(fs, s)) == a[..offset] + buffer[..n] + a[offset + n..]
  {
    SectorSpared(fs, was, now, s, offset, buffer, n, s);
    Data.WriteReplacesSlice(was, now, ExtentOf(fs, s), offset, buffer, n);
  }

  /** Writes to an open inode are denied if and only if one of its files denies them. */
  lemma DeniedByFile(fs: Files.FS, s: nat)
    requires Files.Inv(fs) && s in fs.opens
    ensures s in fs.disk && (ExtentOf(fs, s).denyCnt > 0 <==> exists f :: f in fs.files && fs.files[f].sector == s && fs.files[f].deny)
  {
    assert Files.InodeOk(fs, s);
    if f :| f in fs.files && fs.files[f].sector == s && fs.files[f].deny {
      assert f in Files.DeniersOf(fs.files, s);
    } else {
      assert Files.DeniersOf(fs.files, s) == {};
    }
  }

  /** inode_create() zeroes the data sectors of inode p in sectors that were unmarked: the contents are zeros, and every
      inode in use keeps its sector and its contents. */
  lemma CreateIsZeros(fs: Files.FS, was: seq<seq<nat>>, now: seq<seq<nat>>, p: nat, d: Files.DiskInode, t: nat)
    requires Files.Inv(fs) && Holds(fs, was) && Files.Unmarked(fs, p, d) && Files.Live(fs, t)
    requires Data.DiskOk(was, Data.Extent(d.start, d.length, 0)) && Data.Zeroed(was, now, d.start, Sectors(d.length))
    ensures Data.DiskOk(now, Data.Extent(d.start, d.length, 0))
    ensures forall i :: 0 <= i < d.length ==> Data.Flat(now, Data.Extent(d.start, d.length, 0))[i] == 0
    ensures t in fs.disk && Data.DiskOk(was, ExtentOf(fs, t)) && Data.DiskOk(now, ExtentOf(fs, t)) && t < |was| == |now|
    ensures now[t] == was[t] && Data.Flat(now, ExtentOf(fs, t)) == Data.Flat(was, ExtentOf(fs, t))
  {
    var e := ExtentOf(fs, t);
    IntervalHas(d.start, Sectors(d.length));
    IntervalHas(e.start, Sectors(e.length));
    forall x | x in Files.Owned(fs, t)
      ensures !(d.start <= x < d.start + Sectors(d.length))
    {
      assert x in fs.used && x !in Files.Extent(d, p);
    }
    assert t in Files.Owned(fs, t);
    forall i | 0 <= i < e.length
      ensures Data.FileByte(now, e, i) == Data.FileByte(was, e, i)
    {
      assert e.start + i / 512 in Files.Owned(fs, t);
    }
  }
}
