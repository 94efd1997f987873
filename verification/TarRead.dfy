/** Reading the files of an archive. */
module TarRead {
  import opened Base
  import opened Disks
  import opened Numbers
  import opened Tar
  import opened TarFind
  import opened TarArchive

  // ---------------------------------------------------------------- open files

  /** An open file. */
  class TarFile {
    const disk: Disk
    const regular: bool
    const len: nat
    const sect: nat
    var offset: nat

    constructor (disk: Disk, len: nat, sect: nat)
      ensures this.disk == disk && regular && this.len == len && this.sect == sect && offset == 0
    {
      this.disk, regular, this.len, this.sect, offset := disk, true, len, sect, 0;
    }

    /** The fields hold what their types can hold. */
    ghost predicate Valid()
      reads this
    {
      disk.Valid() && len < U64 && sect < U64 && offset < U64
    }

    /** A regular file that lies on the disk as a whole. */
    ghost predicate OnDisk() { regular && (sect + 1) * TAR_SIZE + len <= |disk.data| }

    ghost function Contents(): (c: seq<char>)
      requires OnDisk()
      ensures |c| == len
    {
      disk.data[(sect + 1) * TAR_SIZE..(sect + 1) * TAR_SIZE + len]
    }

    /** How many bytes a call asks of the disk, and where: all in 64 bits, where the difference wraps around
        beyond the end of the file. */
    function Wanted(n: nat): nat
      reads this
    {
      Min(n, (len - offset) % U64)
    }

    function From(): nat
      reads this
    {
      ((sect + 1) * TAR_SIZE + offset) % U64
    }

    /** At the end of the file nothing is copied and the error code comes back, which is also the count of a
        one-byte read.  Otherwise the offset moves by whatever the disk returned.  If nothing is cut off on the
        way, these are the next bytes of the file, at most `n`, and their number. */
    method Read(buffer: array<char>, n: nat) returns (size: int)
      requires Valid() && n <= buffer.Length && n < U64 && disk.Buffers(Wanted(n)) && buffer != disk.atabuf
      modifies this`offset, disk`atabuf, disk.atabuf, buffer
      ensures Valid() && (disk.atabuf == old(disk.atabuf) || fresh(disk.atabuf))
      ensures !regular || old(Wanted(n)) == 0 || old(Wanted(n)) >= I63 ==>
        size == ERROR_TAR && offset == old(offset) && buffer[..] == old(buffer[..])
      ensures regular && 0 < old(Wanted(n)) < I63 ==>
        && disk.Reads(old(From()), old(Wanted(n)), old(buffer[..]), buffer[..], size, old(disk.atabuf[..]))
        && offset == (old(offset) + size) % U64
      ensures OnDisk() && old(offset) <= len && disk.Plain(old(From()), old(Wanted(n))) ==>
        var m := Min(n, len - old(offset));
        size == m && offset == old(offset) + m && buffer[..m] == Contents()[old(offset)..offset]
      ensures OnDisk() && !disk.ata && old(offset) <= len && 0 < old(Wanted(n)) < I63 ==>
        (size == Min(n, len - old(offset)) <==> Min(n, len - old(offset)) < I31)
    {
      hide Disk.Reads, Disk.Plain, Disk.Buffers, Disk.Valid, Wrap;
      var size' := Wrap(Wanted(n), I63);
      WantedLong(len, offset, n);
      if !regular || size' < 1 {
        PlainSome(disk, From(), Wanted(n));
        return ERROR_TAR;
      }
      ghost var was, from, stale := buffer[..], From(), disk.atabuf[..];
      size := disk.Read(((sect + 1) * TAR_SIZE + offset) % U64, size', buffer);
      if OnDisk() && offset <= len && disk.Plain(from, size') {
        NextBytes(offset, size', was, buffer[..], size, stale);
      }
      if OnDisk() && !disk.ata && offset <= len {
        RightCount(offset, size', was, buffer[..], size, stale);
      }
      offset := (offset + size) % U64;
    }

    /** What a plain read inside the file copies. */
    lemma NextBytes(o: nat, m: nat, was: seq<char>, now: seq<char>, size: int, stale: seq<char>)
      requires disk.Valid() && OnDisk() && o + m <= len && m <= |was|
      requires disk.Plain(((sect + 1) * TAR_SIZE + o) % U64, m)
      requires disk.Reads(((sect + 1) * TAR_SIZE + o) % U64, m, was, now, size, stale)
      ensures size == m && (o + size) % U64 == o + m && |now| == |was| && now[..m] == Contents()[o..o + m]
    {
      hide Disk.Reads, Disk.Plain;
      var at := (sect + 1) * TAR_SIZE;
      SmallSum(at, o, len, |disk.data|);
      SmallSum(at, o + m, len, |disk.data|);
      disk.PlainReads(at + o, m, was, now, size, stale);
      SliceOfSlice(disk.data, at, at + len, Contents(), o, m);
    }

    lemma RightCount(o: nat, m: nat, was: seq<char>, now: seq<char>, size: int, stale: seq<char>)
      requires disk.Valid() && OnDisk() && !disk.ata && 0 < m && o + m <= len && m <= |was|
      requires disk.Reads(((sect + 1) * TAR_SIZE + o) % U64, m, was, now, size, stale)
      ensures size == m <==> m < I31
    {
      hide Disk.RdReads;
      SmallSum((sect + 1) * TAR_SIZE, o, len, |disk.data|);
      disk.RdCount((sect + 1) * TAR_SIZE + o, m, was, now, size);
    }

    /** tar_seek: 0 from the start, 1 from here, 2 from the end.  The offset is kept in 64 bits, the result is
        cut to an int and right exactly below 2^31. */
    method Seek(delta: int, whence: int) returns (ret: int)
      requires Valid()
      modifies this`offset
      ensures Valid()
      ensures whence == 0 ==> offset == delta % U64
      ensures whence == 1 ==> offset == (old(offset) + delta) % U64
      ensures whence == 2 ==> offset == (len + delta) % U64
      ensures whence in {0, 1, 2} ==> ret == ToInt(offset) && (ret == offset <==> offset < I31)
      ensures whence !in {0, 1, 2} ==> ret == -1 && offset == old(offset)
    {
      if whence == 0 {
        offset := delta % U64;
      } else if whence == 1 {
        offset := (offset + delta) % U64;
      } else if whence == 2 {
        offset := (len + delta) % U64;
      } else {
        return -1;
      }
      ToIntExact(offset);
      ret := ToInt(offset);
    }
  }

  lemma WantedLong(len: nat, offset: nat, n: nat)
    requires len < U64 && offset < U64 && n < U64
    ensures var w := Min(n, (len - offset) % U64);
      && (Wrap(w, I63) < 1 <==> w == 0 || w >= I63) && (w < I63 ==> Wrap(w, I63) == w)
      && (offset <= len ==> w == Min(n, len - offset))
  {
    if offset <= len { Remainder(len - offset, U64, 0, len - offset); }
    var w := Min(n, (len - offset) % U64);
    if w < I63 { WrapSmall(w, I63); } else { Remainder(w + I63, U64, 1, w - I63); }
  }

  lemma PlainSome(disk: Disk, from: nat, m: nat)
    ensures disk.Plain(from, m) ==> 0 < m < I63
  {
  }

  lemma SmallSum(at: nat, o: nat, len: nat, size: nat)
    requires o <= len && at + len <= size < U64
    ensures (at + o) % U64 == at + o && o % U64 == o
  {
  }

  /** Reading 2^31 bytes of a ramdisk file at once copies them, but returns a negative count and moves the
      offset backwards past the start. */
  method ReadsBackwards(f: TarFile, buffer: array<char>) returns (size: int)
    requires f.Valid() && f.OnDisk() && !f.disk.ata && f.offset == 0 && I31 <= f.len
    requires I31 <= buffer.Length && buffer != f.disk.atabuf
    modifies f`offset, f.disk`atabuf, f.disk.atabuf, buffer
    ensures size == -0x8000_0000 && f.offset == U64 - 0x8000_0000 && buffer[..I31] == f.Contents()[..I31]
  {
    hide Disk.Reads, Disk.Valid, Disk.Plain;
    WantedLong(f.len, 0, I31);
    ghost var was, from, stale := buffer[..], f.From(), f.disk.atabuf[..];
    size := f.Read(buffer, I31);
    ReadNegative(f, from, was, buffer[..], size, stale);
  }

  lemma ReadNegative(f: TarFile, from: nat, was: seq<char>, now: seq<char>, size: int, stale: seq<char>)
    requires f.disk.Valid() && f.OnDisk() && !f.disk.ata && I31 <= f.len && I31 <= |was|
    requires from == (f.sect + 1) * TAR_SIZE % U64 && f.disk.Reads(from, I31, was, now, size, stale)
    ensures size == -0x8000_0000 && size % U64 == U64 - 0x8000_0000
    ensures |now| == |was| && now[..I31] == f.Contents()[..I31]
  {
    hide ToInt;
    SmallSum((f.sect + 1) * TAR_SIZE, 0, f.len, |f.disk.data|);
    SliceOfSlice(f.disk.data, from, from + f.len, f.Contents(), 0, I31);
    NegativeCount();
  }

  lemma NegativeCount()
    ensures ToInt(I31) == -0x8000_0000 && -0x8000_0000 % U64 == U64 - 0x8000_0000
  {
  }

  // ---------------------------------------------------------------- whole files

  function Sum(sizes: seq<nat>): nat {
    if sizes == [] then 0 else Sum(sizes[..|sizes| - 1]) + sizes[|sizes| - 1]
  }

  /** Sizes that fit the buffer and that no result or sector count cuts off, wherever the reads begin. */
  ghost predicate Chunks(disk: Disk, sizes: seq<nat>, room: nat) {
    forall k :: 0 <= k < |sizes| ==> sizes[k] <= room && sizes[k] < I31 && (disk.ata ==> sizes[k] <= READ_MAX)
  }

  /** Successive reads of any such sizes.  In a file that lies on the disk they give consecutive slices, which
      join to the contents. */
  method ReadChunks(f: TarFile, sizes: seq<nat>, buffer: array<char>) returns (got: seq<char>)
    requires f.Valid() && Chunks(f.disk, sizes, buffer.Length) && buffer != f.disk.atabuf
    modifies f`offset, f.disk`atabuf, f.disk.atabuf, buffer
    ensures f.OnDisk() && old(f.offset) <= f.len ==>
      f.offset == Min(f.len, old(f.offset) + Sum(sizes)) && got == f.Contents()[old(f.offset)..f.offset]
  {
    hide Disk.Reads, Disk.Plain, Disk.Buffers, Disk.Valid;
    got := [];
    ghost var start := f.offset;
    var k := 0;
    while k < |sizes|
      invariant k <= |sizes| && f.Valid() && buffer != f.disk.atabuf
      invariant f.disk.atabuf == old(f.disk.atabuf) || fresh(f.disk.atabuf)
      invariant f.OnDisk() && start <= f.len ==>
        && start <= f.offset <= f.len && f.offset == Min(f.len, start + Sum(sizes[..k]))
        && got == f.Contents()[start..f.offset]
    {
      var before := f.offset;
      ChunkPlain(f, sizes[k]);
      var size := f.Read(buffer, sizes[k]);
      if f.OnDisk() && start <= f.len { Joined(f.Contents(), start, before, f.offset); }
      if 0 <= f.offset - before <= buffer.Length {
        got := got + buffer[..f.offset - before];
      }
      assert sizes[..k + 1][..k] == sizes[..k];
      k := k + 1;
    }
    assert sizes[..k] == sizes;
  }

  lemma ChunkPlain(f: TarFile, n: nat)
    requires f.Valid() && n < I31 && (f.disk.ata ==> n <= READ_MAX)
    ensures f.disk.Buffers(f.Wanted(n))
    ensures f.OnDisk() && f.offset <= f.len ==> f.Wanted(n) == Min(n, f.len - f.offset)
    ensures f.OnDisk() && f.offset <= f.len && f.Wanted(n) > 0 ==> f.disk.Plain(f.From(), f.Wanted(n))
  {
    WantedLong(f.len, f.offset, n);
    if f.OnDisk() && f.offset <= f.len {
      SmallSum((f.sect + 1) * TAR_SIZE, f.offset, f.len, |f.disk.data|);
      if f.disk.ata { ReachableIff(f.Wanted(n)); }
    }
  }

  lemma Joined(c: seq<char>, a: nat, b: nat, d: nat)
    requires a <= b <= d <= |c|
    ensures c[a..b] + c[b..d] == c[a..d]
  {
  }

  /** The bytes behind the header at `sect`, as many as its size field says, lie on the disk. */
  predicate Holds(data: seq<char>, sect: nat) {
    HeaderThere(data, sect) && (sect + 1) * TAR_SIZE + FileSize(HeaderAt(data, sect)) <= |data|
  }

  function Behind(data: seq<char>, sect: nat): seq<char>
    requires Holds(data, sect)
  {
    data[(sect + 1) * TAR_SIZE..(sect + 1) * TAR_SIZE + FileSize(HeaderAt(data, sect))]
  }

  function Take(s: seq<char>, n: nat): seq<char> { s[..Min(|s|, n)] }

  /** From path to bytes, on any disk of either kind on which the search ends: looking a file up and reading it
      in any chunks gives the bytes behind the header that the search ended at, as far as the chunks go. */
  method ReadNamed(disk: Disk, path: seq<char>, sizes: seq<nat>, buffer: array<char>)
    returns (err: nat, sect: nat, got: seq<char>)
    requires disk.Valid() && Chunks(disk, sizes, buffer.Length) && buffer != disk.atabuf && NUL !in path
    requires Ends(disk.data, path, 0)
    modifies disk`atabuf, disk.atabuf, buffer
    ensures Answer(disk.data, path, 0, err, sect)
    ensures err == NOERROR_TAR && Holds(disk.data, sect) ==> got == Take(Behind(disk.data, sect), Sum(sizes))
  {
    hide Ends, Answer, HeaderThere, IsUstar, FileSize, Disk.Valid, Chunks;
    var hdr := new char[TAR_SIZE];
    got := [];
    err, sect := FindFile(disk, path, 0, hdr);
    if err != NOERROR_TAR {
      return;
    }
    HeaderFound(disk.data, path, err, sect);
    var n := SizeOf(hdr[..]);
    var f := new TarFile(disk, n, sect);
    got := ReadChunks(f, sizes, buffer);
  }

  lemma HeaderFound(data: seq<char>, path: seq<char>, err: nat, sect: nat)
    requires Answer(data, path, 0, err, sect) && err == NOERROR_TAR
    ensures HeaderThere(data, sect) && sect < U64 && FileSize(HeaderAt(data, sect)) < U64
  {
    hide Halts, HeaderThere;
    var n: nat :| Halts(data, path, 0, n) && sect == Visit(data, 0, n);
    VisitWord(data, 0, n);
  }

  /** On an archive on which the walk keeps to the entries, these are the contents of the entry found if and only
      if it stores what its size field says, or nothing was asked for.  If the archive is honest about the path
      it is the first file of the path. */
  lemma ReadTheorem(data: seq<char>, es: seq<Entry>, path: seq<char>, sizes: seq<nat>, err: nat, sect: nat,
                    got: seq<char>)
    requires Archive(data, 0, es) && Walkable(0, es, path) && NUL !in path
    requires Answer(data, path, 0, err, sect)
    requires err == NOERROR_TAR && Holds(data, sect) ==> got == Take(Behind(data, sect), Sum(sizes))
    ensures Headers(es) && Found(0, es, FirstHit(es, path), err, sect)
    ensures Honest(es, path) ==> FirstHit(es, path) == First(es, path)
    ensures err == NOERROR_TAR ==>
      var e := es[FirstHit(es, path).value];
      && (|e.content| == e.size ==> Holds(data, sect))
      && (Holds(data, sect) ==>
            (got == Take(e.content, Sum(sizes)) <==> |e.content| == e.size || Sum(sizes) == 0))
  {
    hide Archive, Walkable, Headers, First, FirstHit, Honest, Sector, IsUstar, FileSize, HeaderThere, Answer, Octal;
    FindTheorem(data, 0, es, path, err, sect);
    FindIff(es, path);
    if err == NOERROR_TAR {
      var i := FirstHit(es, path).value;
      ArchiveAt(data, 0, es, i);
      HeaderFound(data, path, err, sect);
      SizeReads(es[i].header, es[i].size);
    }
  }
}
