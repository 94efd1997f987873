/** Reading byte ranges from a disk: a ramdisk copies them, an ATA disk reads whole sectors into a buffer
    that grows and copies from there. */
module Disks {
  import opened Base

  const SECT_SIZE := 512
  /** The error codes are negative constants that the code negates once more. */
  const BAD_PARAM := 2
  const NO_MEMORY := 5
  /** The largest error code of the driver. */
  const IDE_MAX := 8
  const BAD_POSITION := 1
  const DEVICE_FAULT := 5

  /** Sectors that the range from `offset` touches. */
  function Sectors(offset: nat, len: nat): nat { (len + offset % SECT_SIZE + SECT_SIZE - 1) / SECT_SIZE }

  /** The driver takes a 16-bit sector count and a 32-bit sector number. */
  function Count(offset: nat, len: nat): nat { Sectors(offset, len) % 0x1_0000 }
  function Lba(offset: nat): nat { offset / SECT_SIZE % U32 }

  /** Neither of them cuts anything off. */
  predicate Reachable(offset: nat, len: nat) {
    Sectors(offset, len) < 0x1_0000 && offset / SECT_SIZE < U32
  }

  /** The most bytes that one call may ask of an ATA disk at any offset. */
  const READ_MAX := 0x200_0000 - 1023

  lemma ReachableIff(len: nat)
    ensures (forall offset: nat :: offset / SECT_SIZE < U32 ==> Reachable(offset, len)) <==> len <= READ_MAX
  {
    if len > READ_MAX { assert !Reachable(511, len); }
  }

  lemma Rounding(offset: nat, len: nat, size: nat)
    requires size % SECT_SIZE == 0
    ensures offset % SECT_SIZE + len <= Sectors(offset, len) * SECT_SIZE
    ensures offset == offset / SECT_SIZE * SECT_SIZE + offset % SECT_SIZE
    ensures len > 0 ==> (offset + len <= size <==> (offset / SECT_SIZE + Sectors(offset, len)) * SECT_SIZE <= size)
  {
  }

  class Disk {
    const ata: bool
    const data: seq<char>
    /** The static sector buffer of the ATA path. */
    var atabuf: array<char>

    ghost predicate Valid() {
      |data| < U64 && (ata ==> |data| % SECT_SIZE == 0 && |data| / SECT_SIZE < U32)
    }

    /** The size of the sector buffer is computed in 32 bits. */
    ghost predicate Buffers(len: nat) { len < U64 && (ata ==> len < U32 - 2 * SECT_SIZE) }

    /** What reading from a ramdisk does to a buffer.  Past the end nothing is copied and the negated error
        code comes back; a range that runs over the end is cut off; the count is cut to an int. */
    ghost predicate RdReads(offset: nat, len: nat, was: seq<char>, now: seq<char>, ret: int)
      requires len <= |was|
    {
      if offset >= |data| then ret == BAD_PARAM && now == was
      else var n := Min(len, |data| - offset); ret == ToInt(n) && now == data[offset..offset + n] + was[n..]
    }

    /** What reading from an ATA disk does, when the sector buffer holds `stale`.  If a sector is not on the
        disk, a positive error code comes back.  Otherwise the bytes of the sectors read arrive, which are all
        bytes asked for unless the count is cut to 16 bits; beyond them the caller gets what the sector buffer
        held before, and the result does not tell.  No buffer is made for no sectors. */
    ghost predicate AtaReads(offset: nat, len: nat, was: seq<char>, now: seq<char>, ret: int, stale: seq<char>)
      requires len <= |was|
    {
      var n, at, err := Count(offset, len) * SECT_SIZE, Lba(offset) * SECT_SIZE, offset % SECT_SIZE;
      if stale == [] && Sectors(offset, len) == 0 then ret == NO_MEMORY && now == was
      else if at + n > |data| then 0 < ret <= IDE_MAX && now == was
      else
        && ret == ToInt(len) && |now| == |was| && now[len..] == was[len..]
        && var m := if err <= n then Min(len, n - err) else 0;
           && (m > 0 ==> now[..m] == data[at + err..at + err + m])
           && forall i :: m <= i < len && err + i < |stale| ==> now[i] == stale[err + i]
    }

    ghost predicate Reads(offset: nat, len: nat, was: seq<char>, now: seq<char>, ret: int, stale: seq<char>)
      requires len <= |was|
    {
      if ata then AtaReads(offset, len, was, now, ret, stale) else RdReads(offset, len, was, now, ret)
    }

    /** Nothing is cut off: the count fits an int, and on an ATA disk the sectors fit the driver. */
    predicate Plain(offset: nat, len: nat) { 0 < len < I31 && (ata ==> Reachable(offset, len)) }

    /** A plain read of a range that lies on the disk, of either kind, copies exactly that range; of one that
        does not, it returns less. */
    lemma PlainReads(offset: nat, len: nat, was: seq<char>, now: seq<char>, ret: int, stale: seq<char>)
      requires Valid() && len <= |was| && Reads(offset, len, was, now, ret, stale) && Plain(offset, len)
      ensures |now| == |was|
      ensures offset + len <= |data| ==> ret == len && now == data[offset..offset + len] + was[len..]
      ensures offset + len > |data| && len > IDE_MAX ==> ret < len
    {
      hide RdReads, AtaReads, Reachable;
      if ata {
        PlainAta(offset, len, was, now, ret, stale);
      } else {
        PlainRd(offset, len, was, now, ret);
      }
    }

    lemma PlainRd(offset: nat, len: nat, was: seq<char>, now: seq<char>, ret: int)
      requires len <= |was| && RdReads(offset, len, was, now, ret) && 0 < len < I31
      ensures |now| == |was|
      ensures offset + len <= |data| ==> ret == len && now == data[offset..offset + len] + was[len..]
      ensures offset + len > |data| && len > IDE_MAX ==> ret < len
    {
      hide ToInt;
      if offset < |data| { ToIntExact(Min(len, |data| - offset)); }
    }

    lemma PlainAta(offset: nat, len: nat, was: seq<char>, now: seq<char>, ret: int, stale: seq<char>)
      requires Valid() && ata && 0 < len < I31 && len <= |was|
      requires AtaReads(offset, len, was, now, ret, stale) && Reachable(offset, len)
      ensures |now| == |was|
      ensures offset + len <= |data| ==> ret == len && now == data[offset..offset + len] + was[len..]
      ensures offset + len > |data| && len > IDE_MAX ==> ret < len
    {
      hide ToInt, Count, Lba, Reachable;
      ToIntExact(len);
      ReachablePlace(offset, len);
      if offset + len <= |data| { assert now == now[..len] + now[len..]; }
    }

    lemma ReachablePlace(offset: nat, len: nat)
      requires Valid() && ata && len > 0 && Reachable(offset, len)
      ensures var n, at, err := Count(offset, len) * SECT_SIZE, Lba(offset) * SECT_SIZE, offset % SECT_SIZE;
        at + err == offset && err + len <= n && (at + n <= |data| <==> offset + len <= |data|)
    {
      hide Sectors;
      Rounding(offset, len, |data|);
    }

    /** On a ramdisk the count is right if and only if it is below 2^31. */
    lemma RdCount(offset: nat, len: nat, was: seq<char>, now: seq<char>, ret: int)
      requires len <= |was| && RdReads(offset, len, was, now, ret) && offset + len <= |data| && offset < |data|
      ensures ret == len <==> len < I31
    {
      ToIntExact(len);
    }

    method ReadRd(offset: nat, len: nat, buffer: array<char>) returns (ret: int)
      requires len <= buffer.Length
      modifies buffer
      ensures RdReads(offset, len, old(buffer[..]), buffer[..], ret)
    {
      if offset >= |data| {
        return BAD_PARAM;
      }
      var n := len;
      if |data| - offset < n {
        n := |data| - offset;
      }
      forall i | 0 <= i < n {
        buffer[i] := data[offset + i];
      }
      ret := ToInt(n);
    }

    /** The driver: whole sectors, or an error if they are not all on the disk.  The test adds in 32 bits;
        where the sum wraps around the device itself fails. */
    method ReadSectors(n: nat, lba: nat) returns (err: int)
      requires Valid() && n * SECT_SIZE <= atabuf.Length
      modifies atabuf
      ensures (lba + n) * SECT_SIZE > |data| ==> 0 < err <= IDE_MAX
      ensures (lba + n) * SECT_SIZE <= |data| ==> err == 0
      ensures err == 0 ==> atabuf[..n * SECT_SIZE] == data[lba * SECT_SIZE..(lba + n) * SECT_SIZE]
      ensures atabuf[n * SECT_SIZE..] == old(atabuf[n * SECT_SIZE..])
    {
      if (lba + n) % U32 > |data| / SECT_SIZE {
        DeviceEnd(lba + n);
        return BAD_POSITION;
      }
      if (lba + n) * SECT_SIZE > |data| {
        return DEVICE_FAULT;
      }
      forall i | 0 <= i < n * SECT_SIZE {
        atabuf[i] := data[lba * SECT_SIZE + i];
      }
      return 0;
    }

    lemma DeviceEnd(s: nat)
      requires s % U32 > |data| / SECT_SIZE
      ensures s * SECT_SIZE > |data|
    {
    }

    method ReadAta(offset: nat, len: nat, buffer: array<char>) returns (ret: int)
      requires Valid() && ata && Buffers(len) && len <= buffer.Length && buffer != atabuf
      modifies this`atabuf, atabuf, buffer
      ensures atabuf == old(atabuf) || fresh(atabuf)
      ensures AtaReads(offset, len, old(buffer[..]), buffer[..], ret, old(atabuf[..]))
    {
      hide Buffers, ToInt, Sectors, Count, Lba, AtaReads;
      ghost var was, stale := buffer[..], atabuf[..];
      var err := offset % SECT_SIZE;
      var n := Sectors(offset, len) % U32;
      SectorBuffer(offset, len);
      var ok := GrowBuffer(n * SECT_SIZE % U32);
      if !ok {
        NoBuffer(offset, len, was, stale);
        return NO_MEMORY;
      }
      ghost var size, grown := Count(offset, len) * SECT_SIZE, atabuf[..];
      ret := ReadSectors(n % 0x1_0000, offset / SECT_SIZE % U32);
      if ret != 0 {
        AtaFails(offset, len, was, ret, stale);
        return;
      }
      ghost var got := atabuf[..];
      assert got[..size] == atabuf[..size] && got[size..] == grown[size..];
      CopyOut(err, len, buffer);
      ret := ToInt(len);
      AtaArrives(offset, len, was, buffer[..], grown, got, stale);
    }

    lemma NoBuffer(offset: nat, len: nat, was: seq<char>, stale: seq<char>)
      requires len <= |was| && stale == [] && Sectors(offset, len) == 0
      ensures AtaReads(offset, len, was, was, NO_MEMORY, stale)
    {
    }

    lemma AtaFails(offset: nat, len: nat, was: seq<char>, ret: int, stale: seq<char>)
      requires len <= |was| && 0 < ret <= IDE_MAX && (Lba(offset) + Count(offset, len)) * SECT_SIZE > |data|
      requires stale != [] || Sectors(offset, len) != 0
      ensures AtaReads(offset, len, was, was, ret, stale)
    {
    }

    /** The sectors read have been copied out of the sector buffer, and with them what lay behind. */
    lemma AtaArrives(offset: nat, len: nat, was: seq<char>, now: seq<char>, grown: seq<char>, got: seq<char>,
                     stale: seq<char>)
      requires len <= |was| == |now| && now[len..] == was[len..] && (stale != [] || Sectors(offset, len) != 0)
      requires var at, size, err := Lba(offset) * SECT_SIZE, Count(offset, len) * SECT_SIZE, offset % SECT_SIZE;
        && at + size <= |data| && size <= |got| && got[..size] == data[at..at + size]
        && err + len <= |got| && now[..len] == got[err..err + len]
        && stale <= grown && |grown| == |got| && got[size..] == grown[size..]
      ensures AtaReads(offset, len, was, now, ToInt(len), stale)
    {
      hide ToInt, Count, Lba, Sectors;
      var size, err := Count(offset, len) * SECT_SIZE, offset % SECT_SIZE;
      if err <= size { Arrived(data, Lba(offset) * SECT_SIZE, size, got, err, len, now); }
      forall i | 0 <= i < len && size <= err + i < |stale| ensures now[i] == stale[err + i] {
        assert now[i] == now[..len][i] == got[err..err + len][i] == got[err + i];
        assert got[err + i] == got[size..][err + i - size] == grown[size..][err + i - size];
      }
    }

    /** Makes the sector buffer long enough and keeps what is in it; there is none at first. */
    method GrowBuffer(size: nat) returns (ok: bool)
      modifies this`atabuf
      ensures ok <==> old(atabuf[..]) != [] || size != 0
      ensures atabuf.Length >= size && (atabuf == old(atabuf) || fresh(atabuf))
      ensures old(atabuf[..]) <= atabuf[..]
    {
      ok := true;
      if atabuf.Length == 0 || atabuf.Length < size {
        if size == 0 {
          return false;
        }
        var grown := new char[size];
        forall i | 0 <= i < atabuf.Length {
          grown[i] := atabuf[i];
        }
        atabuf := grown;
      }
    }

    lemma SectorBuffer(offset: nat, len: nat)
      requires ata && Buffers(len)
      ensures var n := Sectors(offset, len);
        && n % U32 == n && n * SECT_SIZE % U32 == n * SECT_SIZE && offset % SECT_SIZE + len <= n * SECT_SIZE
        && Count(offset, len) == n % 0x1_0000 && Count(offset, len) * SECT_SIZE <= n * SECT_SIZE
        && Lba(offset) == offset / SECT_SIZE % U32
    {
    }

    /** The copy from the sector buffer to the caller's. */
    method CopyOut(err: nat, len: nat, buffer: array<char>)
      requires err + len <= atabuf.Length && len <= buffer.Length && buffer != atabuf
      modifies buffer
      ensures buffer[..len] == atabuf[err..err + len] && buffer[len..] == old(buffer[len..])
    {
      forall i | 0 <= i < len {
        buffer[i] := atabuf[err + i];
      }
    }

    /** disk_read, on either kind of disk. */
    method Read(offset: nat, len: nat, buffer: array<char>) returns (ret: int)
      requires Valid() && Buffers(len) && len <= buffer.Length && buffer != atabuf
      modifies this`atabuf, atabuf, buffer
      ensures atabuf == old(atabuf) || fresh(atabuf)
      ensures Reads(offset, len, old(buffer[..]), buffer[..], ret, old(atabuf[..]))
    {
      if ata {
        ret := ReadAta(offset, len, buffer);
      } else {
        ret := ReadRd(offset, len, buffer);
      }
    }

    /** A read of `65536 * k + j` sectors reads only `j` of them: then the caller gets what the sector buffer held
        before, and the result says that all is well. */
    method ReadsPart(offset: nat, k: nat, j: nat, buffer: array<char>) returns (ret: int)
      requires Valid() && ata && offset % SECT_SIZE == 0 && offset + j * SECT_SIZE <= |data|
      requires 0 < k < 64 && j < 0x1_0000
      requires var len := (0x1_0000 * k + j) * SECT_SIZE; len <= atabuf.Length && len <= buffer.Length
      requires buffer != atabuf
      modifies this`atabuf, atabuf, buffer
      ensures var n, len := j * SECT_SIZE, (0x1_0000 * k + j) * SECT_SIZE;
        && ret == len && buffer[..n] == data[offset..offset + n] && buffer[n..len] == old(atabuf[n..len])
    {
      hide Reads;
      ghost var was, stale := buffer[..], atabuf[..];
      ret := Read(offset, (0x1_0000 * k + j) * SECT_SIZE, buffer);
      PartArrives(offset, k, j, was, buffer[..], ret, stale);
    }

    lemma PartArrives(offset: nat, k: nat, j: nat, was: seq<char>, now: seq<char>, ret: int, stale: seq<char>)
      requires Valid() && ata && offset % SECT_SIZE == 0 && offset + j * SECT_SIZE <= |data|
      requires 0 < k < 64 && j < 0x1_0000
      requires var len := (0x1_0000 * k + j) * SECT_SIZE;
        len <= |was| && len <= |stale| && Reads(offset, len, was, now, ret, stale)
      ensures var n, len := j * SECT_SIZE, (0x1_0000 * k + j) * SECT_SIZE;
        && ret == len && |now| == |was| && now[..n] == data[offset..offset + n] && now[n..len] == stale[n..len]
    {
      hide ToInt, Count, Lba, Sectors;
      var len := (0x1_0000 * k + j) * SECT_SIZE;
      ToIntExact(len);
      PartCount(offset, k, j);
    }

    lemma PartCount(offset: nat, k: nat, j: nat)
      requires Valid() && ata && offset % SECT_SIZE == 0 && offset <= |data| && 0 < k && j < 0x1_0000
      ensures var len := (0x1_0000 * k + j) * SECT_SIZE;
        Sectors(offset, len) == 0x1_0000 * k + j && Count(offset, len) == j && Lba(offset) * SECT_SIZE == offset
    {
    }

    /** A ramdisk delivers what there is up to its end. */
    lemma RdTail(offset: nat, len: nat, was: seq<char>, now: seq<char>, ret: int)
      requires len <= |was| && RdReads(offset, len, was, now, ret) && offset < |data| <= offset + len
      requires |data| - offset < I31
      ensures ret == |data| - offset && |now| == |was| && now[..ret] == data[offset..] && now[ret..] == was[ret..]
    {
      hide ToInt;
      ToIntExact(|data| - offset);
    }
  }

  /** Of the bytes copied out of the sector buffer, those from the sectors read are the disk's. */
  lemma Arrived(data: seq<char>, at: nat, size: nat, got: seq<char>, err: nat, len: nat, out: seq<char>)
    requires at + size <= |data| && size <= |got| && got[..size] == data[at..at + size]
    requires err <= size && err + len <= |got| && len <= |out| && out[..len] == got[err..err + len]
    ensures var m := Min(len, size - err); out[..m] == data[at + err..at + err + m]
  {
    var m := Min(len, size - err);
    SliceOfSlice(data, at, at + size, got[..size], err, m);
    forall i | 0 <= i < m ensures out[i] == got[..size][err..err + m][i] {
      assert out[i] == out[..len][i] == got[err..err + len][i] == got[err + i];
    }
  }

  /** A slice of the sectors read is a slice of the disk. */
  lemma SliceOfSlice(s: seq<char>, lo: nat, hi: nat, t: seq<char>, from: nat, len: nat)
    requires lo <= hi <= |s| && t == s[lo..hi] && from + len <= |t|
    ensures t[from..from + len] == s[lo + from..lo + from + len]
  {
    var a, b := t[from..from + len], s[lo + from..lo + from + len];
    forall i | 0 <= i < len ensures a[i] == b[i] {}
  }
}
