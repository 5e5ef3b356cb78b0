/** inode_read_at() and inode_write_at() of filesys/inode.c on a disk of sectors. */
module InodeData {
  import opened Basics

  const SECTOR: nat := 512

  /** What of an inode the two functions use: its extent, its length, and its deny_write_cnt. */
  datatype Extent = Extent(start: nat, length: nat, denyCnt: nat)

  /** disk holds the extent, and every sector has its size. */
  ghost predicate DiskOk(disk: seq<seq<nat>>, e: Extent) {
    e.start + Sectors(e.length) <= |disk| && forall s :: 0 <= s < |disk| ==> |disk[s]| == SECTOR
  }

  /** Byte pos of the file.  byte_to_sector() gives the sector. */
  function FileByte(disk: seq<seq<nat>>, e: Extent, pos: nat): nat
    requires DiskOk(disk, e) && pos < e.length
  {
    disk[e.start + pos / 512][pos % 512]
  }

  function Min(a: int, b: int): int {
    if a < b then a else b
  }

  function Max(a: int, b: int): int {
    if a < b then b else a
  }

  /** The size of the next chunk of a transfer. */
  function Chunk(e: Extent, size: int, offset: nat): int {
    Min(size, Min(e.length - offset, 512 - offset % 512))
  }

  // ----- how much is transferred ----------------------------------------------------------

  /** The bytes there are from offset on, up to size. */
  function Wanted(e: Extent, size: int, offset: nat): nat {
    Max(0, Min(size, e.length - offset))
  }

  /** What inode_read_at(), or inode_write_at() where writes are not denied, returns.  Without a bounce
      buffer only whole sectors go through, and none if offset is inside one. */
  function Transferred(e: Extent, size: int, offset: nat, bounceOk: bool): nat {
    var t := Wanted(e, size, offset);
    if bounceOk then t else if offset % 512 == 0 then t - t % 512 else 0
  }

  /** All of it is transferred if and only if there is a bounce buffer or no need for one. */
  lemma TransfersAll(e: Extent, size: int, offset: nat, bounceOk: bool)
    ensures var t := Wanted(e, size, offset);
      Transferred(e, size, offset, bounceOk) == t <==> bounceOk || t == 0 || (offset % 512 == 0 && t % 512 == 0)
  {
    var t := Wanted(e, size, offset);
    if offset % 512 != 0 && t > 0 { assert Transferred(e, size, offset, false) == 0; }
  }

  /** n bytes have gone through, in whole sectors if there is no bounce buffer. */
  predicate Underway(e: Extent, size: int, offset: nat, bounceOk: bool, n: nat) {
    n <= Wanted(e, size, offset) && (!bounceOk ==> n % 512 == 0 && (n > 0 ==> offset % 512 == 0))
  }

  /** The loops stop for want of a bounce buffer at a chunk that is not a whole sector. */
  lemma StopsShort(e: Extent, size: int, offset: nat, n: nat)
    requires Underway(e, size, offset, false, n)
    requires var chunk := Chunk(e, size - n, offset + n); chunk > 0 && !((offset + n) % 512 == 0 && chunk == SECTOR)
    ensures n == Transferred(e, size, offset, false)
  {
    var t := Wanted(e, size, offset);
    if offset % 512 == 0 {
      assert (offset + n) % 512 == 0 && t - n < 512;
    }
  }

  /** They stop otherwise when nothing is left. */
  lemma StopsAtEnd(e: Extent, size: int, offset: nat, bounceOk: bool, n: nat)
    requires Underway(e, size, offset, bounceOk, n) && (size <= n || Chunk(e, size - n, offset + n) <= 0)
    ensures n == Transferred(e, size, offset, bounceOk)
  {
  }

  lemma UnderwayMore(e: Extent, size: int, offset: nat, bounceOk: bool, n: nat, chunk: nat)
    requires Underway(e, size, offset, bounceOk, n) && chunk == Chunk(e, size - n, offset + n) > 0
    requires bounceOk || ((offset + n) % 512 == 0 && chunk == SECTOR)
    ensures Underway(e, size, offset, bounceOk, n + chunk)
  {
  }

  // ----- reading -----------------------------------------------------------------------

  /** buffer holds the n file bytes from offset on, and is otherwise as it was. */
  ghost predicate ReadInto(disk: seq<seq<nat>>, e: Extent, offset: nat, n: nat, was: seq<nat>, now: seq<nat>)
    requires DiskOk(disk, e)
  {
    && |now| == |was| && n <= |was| && offset + n <= Max(offset, e.length)
    && (forall i :: 0 <= i < n ==> now[i] == FileByte(disk, e, offset + i))
    && (forall i :: n <= i < |was| ==> now[i] == was[i])
  }

  /** memcpy() of n bytes of a sector into the buffer. */
  method CopyOut(buffer: array<nat>, at: nat, sector: seq<nat>, from: nat, n: nat)
    requires at + n <= buffer.Length && from + n <= |sector|
    modifies buffer
    ensures forall i :: 0 <= i < buffer.Length ==>
      buffer[i] == if at <= i < at + n then sector[from + (i - at)] else old(buffer[i])
  {
    var k := 0;
    while k < n
      invariant 0 <= k <= n
      invariant forall i :: 0 <= i < buffer.Length ==>
        buffer[i] == if at <= i < at + k then sector[from + (i - at)] else old(buffer[i])
    {
      buffer[at + k] := sector[from + k];
      k := k + 1;
    }
  }

  /** Within one sector consecutive positions are consecutive bytes. */
  lemma SameSector(pos: nat, i: nat)
    requires pos % 512 + i < 512
    ensures (pos + i) / 512 == pos / 512 && (pos + i) % 512 == pos % 512 + i
  {
  }

  /** One chunk more has been read. */
  lemma ReadMore(disk: seq<seq<nat>>, e: Extent, offset: nat, n: nat, chunk: nat, was: seq<nat>, mid: seq<nat>, now: seq<nat>)
    requires DiskOk(disk, e) && ReadInto(disk, e, offset, n, was, mid) && |now| == |mid| && n + chunk <= |mid|
    requires 0 < chunk <= e.length - (offset + n) && (offset + n) % 512 + chunk <= 512
    requires forall i :: 0 <= i < |mid| ==>
      now[i] == if n <= i < n + chunk then disk[e.start + (offset + n) / 512][(offset + n) % 512 + (i - n)] else mid[i]
    ensures ReadInto(disk, e, offset, n + chunk, was, now)
  {
    forall i | 0 <= i < n + chunk
      ensures now[i] == FileByte(disk, e, offset + i)
    {
      if n <= i { SameSector(offset + n, i - n); }
    }
  }

  /** inode_read_at(): with a bounce buffer it reads all there is up to size. */
  method ReadAt(disk: seq<seq<nat>>, e: Extent, buffer: array<nat>, size: int, offset: nat, bounceOk: bool) returns (n: nat)
    requires DiskOk(disk, e) && size <= buffer.Length
    modifies buffer
    ensures n == Transferred(e, size, offset, bounceOk)
    ensures bounceOk ==> n == Max(0, Min(size, e.length - offset))
    ensures ReadInto(disk, e, offset, n, old(buffer[..]), buffer[..])
  {
    n := 0;
    while n < size
      invariant Underway(e, size, offset, bounceOk, n)
      invariant ReadInto(disk, e, offset, n, old(buffer[..]), buffer[..])
    {
      var pos := offset + n;
      var chunk := Chunk(e, size - n, pos);
      if chunk <= 0 { break; }
      var sector := disk[e.start + pos / 512];
      ghost var mid := buffer[..];
      if pos % 512 == 0 && chunk == SECTOR {
        CopyOut(buffer, n, sector, 0, SECTOR);
      } else {
        if !bounceOk {
          StopsShort(e, size, offset, n);
          return;
        }
        CopyOut(buffer, n, sector, pos % 512, chunk);
      }
      UnderwayMore(e, size, offset, bounceOk, n, chunk);
      ReadMore(disk, e, offset, n, chunk, old(buffer[..]), mid, buffer[..]);
      n := n + chunk;
    }
    StopsAtEnd(e, size, offset, bounceOk, n);
  }

  // ----- writing -----------------------------------------------------------------------

  /** What byte o of sector s is after the first n bytes of buffer went to the file at offset. */
  function ByteAfter(disk: seq<seq<nat>>, e: Extent, offset: nat, buffer: seq<nat>, n: nat, s: nat, o: nat): nat
    requires s < |disk| && o < |disk[s]| && n <= |buffer|
  {
    var pos := (s - e.start) * 512 + o;
    if e.start <= s && offset <= pos < offset + n then buffer[pos - offset] else disk[s][o]
  }

  /** now is was with the first n bytes of buffer written to the file at offset, and nothing else. */
  ghost predicate Written(was: seq<seq<nat>>, now: seq<seq<nat>>, e: Extent, offset: nat, buffer: seq<nat>, n: nat) {
    && |now| == |was| && n <= |buffer|
    && (forall s :: 0 <= s < |was| ==> |now[s]| == |was[s]| == SECTOR)
    && (forall s, o :: 0 <= s < |was| && 0 <= o < SECTOR ==> now[s][o] == ByteAfter(was, e, offset, buffer, n, s, o))
  }

  /** sector with n bytes of buffer, from at on, put in at ofs: memcpy() into the bounce buffer. */
  method CopyIn(sector: seq<nat>, ofs: nat, buffer: seq<nat>, at: nat, n: nat) returns (r: seq<nat>)
    requires ofs + n <= |sector| && at + n <= |buffer|
    ensures |r| == |sector|
    ensures forall o :: 0 <= o < |r| ==> r[o] == if ofs <= o < ofs + n then buffer[at + (o - ofs)] else sector[o]
  {
    r := sector;
    var k := 0;
    while k < n
      invariant 0 <= k <= n && |r| == |sector|
      invariant forall o :: 0 <= o < |r| ==> r[o] == if ofs <= o < ofs + k then buffer[at + (o - ofs)] else sector[o]
    {
      r := r[ofs + k := buffer[at + k]];
      k := k + 1;
    }
  }

  /** One chunk more has been written. */
  lemma WriteMore(was: seq<seq<nat>>, mid: seq<seq<nat>>, now: seq<seq<nat>>, e: Extent, offset: nat, buffer: seq<nat>, n: nat, chunk: nat, r: seq<nat>)
    requires Written(was, mid, e, offset, buffer, n) && n + chunk <= |buffer| && chunk > 0
    requires (offset + n) % 512 + chunk <= 512 && e.start + (offset + n) / 512 < |mid|
    requires |r| == SECTOR && now == mid[e.start + (offset + n) / 512 := r]
    requires forall o :: 0 <= o < SECTOR ==>
      r[o] == if (offset + n) % 512 <= o < (offset + n) % 512 + chunk then buffer[n + (o - (offset + n) % 512)] else mid[e.start + (offset + n) / 512][o]
    ensures Written(was, now, e, offset, buffer, n + chunk)
  {
    var pos := offset + n;
    var t := e.start + pos / 512;
    forall s, o | 0 <= s < |was| && 0 <= o < SECTOR
      ensures now[s][o] == ByteAfter(was, e, offset, buffer, n + chunk, s, o)
    {
      assert mid[s][o] == ByteAfter(was, e, offset, buffer, n, s, o);
      var at := (s - e.start) * 512 + o;
      if s == t {
        assert at == pos - pos % 512 + o;
      } else {
        assert at < pos - pos % 512 || pos - pos % 512 + 512 <= at;
      }
    }
  }

  /** The n sectors from start on are zeros, and the others are as they were. */
  ghost predicate Zeroed(was: seq<seq<nat>>, now: seq<seq<nat>>, start: nat, n: nat) {
    && |now| == |was| && start + n <= |was|
    && (forall s :: 0 <= s < |was| && !(start <= s < start + n) ==> now[s] == was[s])
    && (forall s :: start <= s < start + n ==> |now[s]| == SECTOR && forall o :: 0 <= o < SECTOR ==> now[s][o] == 0)
  }

  class Disk {
    var sectors: seq<seq<nat>>

    /** The loop of inode_create() over the data sectors. */
    method ZeroSectors(start: nat, n: nat)
      requires start + n <= |sectors|
      modifies this
      ensures Zeroed(old(sectors), sectors, start, n)
    {
      var zeros: seq<nat> := seq(SECTOR, _ => 0);
      var i := 0;
      while i < n
        invariant 0 <= i <= n && Zeroed(old(sectors), sectors, start, i)
      {
        sectors := sectors[start + i := zeros];
        i := i + 1;
      }
    }

    /** inode_write_at(): nothing if writes are denied, and else all that fits in the file. */
    method WriteAt(e: Extent, buffer: seq<nat>, size: int, offset: nat, bounceOk: bool) returns (n: nat)
      requires DiskOk(sectors, e) && size <= |buffer|
      modifies this
      ensures n == if e.denyCnt > 0 then 0 else Transferred(e, size, offset, bounceOk)
      ensures Written(old(sectors), sectors, e, offset, buffer, n)
    {
      n := 0;
      if e.denyCnt > 0 { return; }
      while n < size
        invariant Underway(e, size, offset, bounceOk, n)
        invariant DiskOk(sectors, e) && Written(old(sectors), sectors, e, offset, buffer, n)
      {
        var pos := offset + n;
        var chunk := Chunk(e, size - n, pos);
        if chunk <= 0 { break; }
        var idx, ofs := e.start + pos / 512, pos % 512;
        var bounce: seq<nat>;
        if ofs == 0 && chunk == SECTOR {
          bounce := buffer[n..n + chunk];
        } else {
          if !bounceOk {
            StopsShort(e, size, offset, n);
            return;
          }
          if ofs > 0 || chunk < 512 - ofs {
            bounce := sectors[idx];
          } else {
            assert false;   // a sector of zeros is never needed
          }
          bounce := CopyIn(bounce, ofs, buffer, n, chunk);
        }
        ghost var mid := sectors;
        sectors := sectors[idx := bounce];
        UnderwayMore(e, size, offset, bounceOk, n, chunk);
        WriteMore(old(sectors), mid, sectors, e, offset, buffer, n, chunk, bounce);
        n := n + chunk;
      }
      StopsAtEnd(e, size, offset, bounceOk, n);
    }
  }

  // ----- files as flat byte arrays -------------------------------------------------------

  /** The contents of the file. */
  function Flat(disk: seq<seq<nat>>, e: Extent): (r: seq<nat>)
    requires DiskOk(disk, e)
    ensures |r| == e.length && forall i :: 0 <= i < e.length ==> r[i] == FileByte(disk, e, i)
  {
    FlatUpto(disk, e, e.length)
  }

  function FlatUpto(disk: seq<seq<nat>>, e: Extent, n: nat): (r: seq<nat>)
    requires DiskOk(disk, e) && n <= e.length
    ensures |r| == n && forall i :: 0 <= i < n ==> r[i] == FileByte(disk, e, i)
  {
    if n == 0 then [] else FlatUpto(disk, e, n - 1) + [FileByte(disk, e, n - 1)]
  }

  /** A write replaces a slice of the file. */
  lemma WriteReplacesSlice(was: seq<seq<nat>>, now: seq<seq<nat>>, e: Extent, offset: nat, buffer: seq<nat>, n: nat)
    requires DiskOk(was, e) && DiskOk(now, e) && Written(was, now, e, offset, buffer, n) && offset + n <= e.length
    ensures Flat(now, e) == Flat(was, e)[..offset] + buffer[..n] + Flat(was, e)[offset + n..]
  {
    forall i | 0 <= i < e.length
      ensures FileByte(now, e, i) == if offset <= i < offset + n then buffer[i - offset] else FileByte(was, e, i)
    {
      var s, o := e.start + i / 512, i % 512;
      assert now[s][o] == ByteAfter(was, e, offset, buffer, n, s, o);
    }
  }

  /** A read returns a slice of the file. */
  lemma ReadReturnsSlice(disk: seq<seq<nat>>, e: Extent, offset: nat, n: nat, was: seq<nat>, now: seq<nat>)
    requires DiskOk(disk, e) && ReadInto(disk, e, offset, n, was, now) && offset + n <= e.length
    ensures now == Flat(disk, e)[offset..offset + n] + was[n..]
  {
  }

  /** Of 513 bytes without a bounce buffer 512 are read, and the buffer's last byte stays as it was. */
  lemma ShortRead(disk: seq<seq<nat>>, start: nat, was: seq<nat>, now: seq<nat>)
    requires DiskOk(disk, Extent(start, 513, 0)) && |was| == 513
    requires ReadInto(disk, Extent(start, 513, 0), 0, Transferred(Extent(start, 513, 0), 513, 0, false), was, now)
    ensures Transferred(Extent(start, 513, 0), 513, 0, false) == 512 < Wanted(Extent(start, 513, 0), 513, 0)
    ensures now == disk[start] + [was[512]]
  {
    var e := Extent(start, 513, 0);
    assert Transferred(e, 513, 0, false) == 512;
    forall i | 0 <= i < 512
      ensures now[i] == disk[start][i]
    {
      assert now[i] == FileByte(disk, e, 0 + i);
    }
  }

  /** What was written is what a read of the same place returns. */
  lemma ReadBack(was: seq<seq<nat>>, now: seq<seq<nat>>, e: Extent, offset: nat, buffer: seq<nat>, n: nat, b: seq<nat>, b': seq<nat>)
    requires DiskOk(was, e) && DiskOk(now, e) && Written(was, now, e, offset, buffer, n) && ReadInto(now, e, offset, n, b, b')
    ensures b'[..n] == buffer[..n]
  {
    forall i | 0 <= i < n
      ensures b'[i] == buffer[i]
    {
      var s, o := e.start + (offset + i) / 512, (offset + i) % 512;
      assert b'[i] == FileByte(now, e, offset + i);
      assert now[s][o] == ByteAfter(was, e, offset, buffer, n, s, o);
    }
  }

  /** A write leaves every sector outside the file's extent, and so every other file, as it was. */
  lemma WriteSparesOthers(was: seq<seq<nat>>, now: seq<seq<nat>>, e: Extent, offset: nat, buffer: seq<nat>, n: nat, s: nat)
    requires DiskOk(was, e) && Written(was, now, e, offset, buffer, n) && offset + n <= Max(offset, e.length) && s < |was|
    requires s < e.start || e.start + Sectors(e.length) <= s
    ensures now[s] == was[s]
  {
    forall o | 0 <= o < SECTOR
      ensures now[s][o] == was[s][o]
    {
      assert now[s][o] == ByteAfter(was, e, offset, buffer, n, s, o);
    }
  }
}
