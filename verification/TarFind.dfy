/** Looking a file up: the headers that find_file visits, on any disk and on an archive. */
module TarFind {
  import opened Base
  import opened Numbers
  import opened Disks
  import opened Tar

  // ---------------------------------------------------------------- the walk

  /** The headers of a disk come round again after this many sectors, which are 4 GiB. */
  const ROUND := 0x80_0000

  /** The byte offset of a header; the product is taken in 32 bits. */
  function HeaderOffset(sect: nat): nat { sect % U32 * TAR_SIZE % U32 }

  lemma HeadersRepeat(sect: nat)
    ensures HeaderOffset(sect) == sect % ROUND * TAR_SIZE
    ensures HeaderOffset(sect) == sect * TAR_SIZE <==> sect < ROUND
  {
    var s := sect % U32;
    Congruent(sect, -TAR_SIZE * (sect / U32), ROUND);
    assert s * TAR_SIZE == U32 * (s / ROUND) + s % ROUND * TAR_SIZE;
    Remainder(s * TAR_SIZE, U32, s / ROUND, s % ROUND * TAR_SIZE);
    if sect < ROUND { Remainder(sect, ROUND, 0, sect); }
  }

  predicate HeaderThere(data: seq<char>, sect: nat) { GoodHeader(data, HeaderOffset(sect)) }

  function HeaderAt(data: seq<char>, sect: nat): (h: seq<char>)
    requires HeaderThere(data, sect)
    ensures IsUstar(h)
  {
    data[HeaderOffset(sect)..HeaderOffset(sect) + TAR_SIZE]
  }

  /** The sector after the contents that the size field announces, in 64 bits. */
  function Next(data: seq<char>, sect: nat): nat {
    if HeaderThere(data, sect) then Onward(sect, FileSize(HeaderAt(data, sect))) else sect
  }

  function Onward(sect: nat, size: nat): nat { (sect + (size + TAR_SIZE - 1) % U64 / TAR_SIZE + 1) % U64 }

  /** The sector visited after `n` steps. */
  function Visit(data: seq<char>, start: nat, n: nat): nat
    decreases n
  {
    if n == 0 then start else Next(data, Visit(data, start, n - 1))
  }

  /** The search ends here: there is no header, or it begins with the path. */
  predicate Stops(data: seq<char>, path: seq<char>, sect: nat) {
    HeaderThere(data, sect) ==> Hits(HeaderAt(data, sect), path)
  }

  ghost predicate Ends(data: seq<char>, path: seq<char>, start: nat) {
    exists n: nat :: Stops(data, path, Visit(data, start, n))
  }

  /** The search ends at the sector visited after `n` steps. */
  ghost predicate Halts(data: seq<char>, path: seq<char>, start: nat, n: nat) {
    && Stops(data, path, Visit(data, start, n))
    && forall j: nat :: j < n ==> !Stops(data, path, Visit(data, start, j))
  }

  lemma VisitNone(data: seq<char>, start: nat)
    ensures Visit(data, start, 0) == start
  {
  }

  lemma VisitStep(data: seq<char>, start: nat, n: nat)
    requires HeaderThere(data, Visit(data, start, n))
    ensures Visit(data, start, n + 1)
         == Onward(Visit(data, start, n), FileSize(HeaderAt(data, Visit(data, start, n))))
  {
  }

  lemma {:induction false} VisitAdd(data: seq<char>, start: nat, m: nat, n: nat)
    ensures Visit(data, start, m + n) == Visit(data, Visit(data, start, m), n)
    decreases n
  {
    hide Next;
    if n > 0 { VisitAdd(data, start, m, n - 1); }
  }

  lemma {:induction false} VisitWord(data: seq<char>, start: nat, n: nat)
    requires start < U64
    ensures Visit(data, start, n) < U64
    decreases n
  {
    hide HeaderThere, FileSize;
    if n > 0 { VisitWord(data, start, n - 1); }
  }

  lemma LeastStop(data: seq<char>, path: seq<char>, start: nat, k: nat) returns (n: nat)
    requires Stops(data, path, Visit(data, start, k))
    ensures n <= k && Halts(data, path, start, n)
  {
    hide Stops, Visit;
    n := 0;
    while !Stops(data, path, Visit(data, start, n))
      invariant n <= k && forall j: nat :: j < n ==> !Stops(data, path, Visit(data, start, j))
      decreases k - n
    {
      n := n + 1;
    }
  }

  lemma HaltsOnce(data: seq<char>, path: seq<char>, start: nat, m: nat, n: nat)
    requires Halts(data, path, start, m) && Halts(data, path, start, n)
    ensures m == n
  {
    hide Stops, Visit;
  }

  // ---------------------------------------------------------------- when the walk ends

  /** Sectors a round apart have the same header, and so have their successors. */
  lemma SameRound(data: seq<char>, path: seq<char>, a: nat, b: nat)
    requires a % ROUND == b % ROUND
    ensures Stops(data, path, a) == Stops(data, path, b) && Next(data, a) % ROUND == Next(data, b) % ROUND
  {
    hide HeaderOffset, GoodHeader, FileSize, Onward;
    HeadersRepeat(a);
    HeadersRepeat(b);
    if HeaderThere(data, a) { SameOnward(a, b, FileSize(HeaderAt(data, a))); }
  }

  lemma SameOnward(a: nat, b: nat, size: nat)
    requires a % ROUND == b % ROUND
    ensures Onward(a, size) % ROUND == Onward(b, size) % ROUND
  {
    var d := (size + TAR_SIZE - 1) % U64 / TAR_SIZE + 1;
    WordRound(a + d);
    WordRound(b + d);
    SumRound(a, b, d);
  }

  /** A word is a whole number of rounds. */
  lemma WordRound(x: nat)
    ensures x % U64 % ROUND == x % ROUND
  {
    var k := x / U64;
    assert x == x % U64 + ROUND * (0x200_0000_0000 * k);
    Congruent(x % U64, 0x200_0000_0000 * k, ROUND);
  }

  lemma SumRound(a: nat, b: nat, d: nat)
    requires a % ROUND == b % ROUND
    ensures (a + d) % ROUND == (b + d) % ROUND
  {
    var k := a / ROUND - b / ROUND;
    assert a + d == b + d + ROUND * k;
    Congruent(b + d, k, ROUND);
  }

  lemma {:induction false} SameWalk(data: seq<char>, path: seq<char>, a: nat, b: nat, n: nat)
    requires a % ROUND == b % ROUND
    ensures Stops(data, path, Visit(data, a, n)) == Stops(data, path, Visit(data, b, n))
    ensures Visit(data, a, n) % ROUND == Visit(data, b, n) % ROUND
    decreases n
  {
    hide Stops, Next;
    if n > 0 {
      SameWalk(data, path, a, b, n - 1);
      SameRound(data, path, Visit(data, a, n - 1), Visit(data, b, n - 1));
    }
    SameRound(data, path, Visit(data, a, n), Visit(data, b, n));
  }

  /** Until it stops the walk comes to no header twice. */
  lemma NoReturn(data: seq<char>, path: seq<char>, start: nat, n: nat, i: nat, j: nat)
    requires Halts(data, path, start, n) && i < j <= n
    ensures Visit(data, start, i) % ROUND != Visit(data, start, j) % ROUND
  {
    hide Stops, Visit;
    var a, b := Visit(data, start, i), Visit(data, start, j);
    if a % ROUND == b % ROUND {
      SameWalk(data, path, a, b, n - j);
      VisitAdd(data, start, i, n - j);
      VisitAdd(data, start, j, n - j);
      assert false;
    }
  }

  lemma HaltsSoon(data: seq<char>, path: seq<char>, start: nat, n: nat)
    requires Halts(data, path, start, n)
    ensures n < ROUND
  {
    hide Stops, Visit, Halts;
    var places: seq<nat> := seq(n + 1, i requires 0 <= i <= n => Visit(data, start, i) % ROUND);
    forall i, j | 0 <= i < j <= n ensures places[i] != places[j] { NoReturn(data, path, start, n, i, j); }
    DistinctBelow(places, ROUND);
  }

  /** The search ends if and only if it stops within the headers of one round. */
  lemma EndsIff(data: seq<char>, path: seq<char>, start: nat)
    ensures Ends(data, path, start)
      <==> exists n: nat :: n < ROUND && Stops(data, path, Visit(data, start, n))
  {
    hide Stops, Visit;
    if k: nat :| Stops(data, path, Visit(data, start, k)) {
      var n := LeastStop(data, path, start, k);
      HaltsSoon(data, path, start, n);
      assert Stops(data, path, Visit(data, start, n));
    }
  }

  // ---------------------------------------------------------------- the code

  method ReadTarHeader(disk: Disk, sect: nat, hdr: array<char>) returns (err: nat)
    requires disk.Valid() && hdr.Length == TAR_SIZE && hdr != disk.atabuf
    modifies disk`atabuf, disk.atabuf, hdr
    ensures disk.atabuf == old(disk.atabuf) || fresh(disk.atabuf)
    ensures err == NOERROR_TAR <==> HeaderThere(disk.data, sect)
    ensures err == NOERROR_TAR ==> hdr[..] == HeaderAt(disk.data, sect)
  {
    hide Disk.Reads;
    var off := sect % U32 * TAR_SIZE % U32;
    HeaderPlain(disk, off);
    ghost var was, stale := hdr[..], disk.atabuf[..];
    var n := disk.Read(off, TAR_SIZE, hdr);
    disk.PlainReads(off, TAR_SIZE, was, hdr[..], n, stale);
    if n < TAR_SIZE {
      return ERROR_TAR;
    }
    assert was[TAR_SIZE..] == [];
    if hdr[257..263] != ['u', 's', 't', 'a', 'r', NUL] || hdr[263..265] != ['0', '0'] {
      return ERROR_TAR;
    }
    return NOERROR_TAR;
  }

  lemma HeaderPlain(disk: Disk, off: nat)
    requires off < U32
    ensures disk.Plain(off, TAR_SIZE) && disk.Buffers(TAR_SIZE)
  {
  }

  /** strtoull on the size field. */
  method SizeOf(h: seq<char>) returns (n: nat)
    requires IsUstar(h)
    ensures n == FileSize(h)
  {
    SizeTerminated(h);
    var end;
    n, end := Strtoux(h, 124, 8, U64);
  }

  /** memcmp of the name and the path with its terminator.  It stops at the zero of the magic at the latest,
      so it stays in the header however long the path is. */
  method NameMatches(h: seq<char>, path: seq<char>) returns (b: bool)
    requires IsUstar(h) && NUL !in path
    ensures b == Hits(h, path)
  {
    MagicEnds(h);
    var i := 0;
    while i <= |path|
      invariant i <= |path| + 1 && i <= 263
      invariant forall k :: 0 <= k < i ==> h[k] == (path + [NUL])[k]
    {
      if h[i] != (if i < |path| then path[i] else NUL) {
        assert |path| < |h| ==> h[..|path| + 1][i] != (path + [NUL])[i];
        return false;
      }
      assert i == 262 ==> i == |path|;
      i := i + 1;
    }
    assert h[..|path| + 1] == path + [NUL];
    b := true;
  }

  /** The search ended at sector `sect`, with a header or without one. */
  ghost predicate Answer(data: seq<char>, path: seq<char>, start: nat, err: nat, sect: nat) {
    && (exists n: nat :: Halts(data, path, start, n) && sect == Visit(data, start, n))
    && (err == NOERROR_TAR <==> HeaderThere(data, sect))
  }

  /** Walks the headers of any disk from sector `start`, if the walk ends. */
  method FindFile(disk: Disk, path: seq<char>, start: nat, outHeader: array<char>) returns (err: nat, sect: nat)
    requires disk.Valid() && outHeader.Length == TAR_SIZE && outHeader != disk.atabuf && NUL !in path
    requires Ends(disk.data, path, start)
    modifies disk`atabuf, disk.atabuf, outHeader
    ensures disk.atabuf == old(disk.atabuf) || fresh(disk.atabuf)
    ensures Answer(disk.data, path, start, err, sect)
    ensures outHeader[..] == if err == NOERROR_TAR then HeaderAt(disk.data, sect) else old(outHeader[..])
  {
    hide Disk.Valid, HeaderThere, HeaderAt, Hits, IsUstar, FileSize, Visit;
    ghost var k: nat :| Stops(disk.data, path, Visit(disk.data, start, k));
    ghost var n := LeastStop(disk.data, path, start, k);
    var hdr := new char[TAR_SIZE];
    sect := start;
    ghost var i := 0;
    VisitNone(disk.data, start);
    while true
      invariant i <= n && sect == Visit(disk.data, start, i)
      invariant disk.atabuf == old(disk.atabuf) || fresh(disk.atabuf)
      invariant hdr != disk.atabuf && outHeader != disk.atabuf && outHeader[..] == old(outHeader[..])
      decreases n - i
    {
      err := ReadTarHeader(disk, sect, hdr);
      if err != NOERROR_TAR {
        assert i == n;
        return;
      }
      var b := NameMatches(hdr[..], path);
      if b {
        assert i == n;
        forall j | 0 <= j < TAR_SIZE {
          outHeader[j] := hdr[j];
        }
        return;
      }
      var size := SizeOf(hdr[..]);
      VisitStep(disk.data, start, i);
      sect := (sect + (size + TAR_SIZE - 1) % U64 / TAR_SIZE + 1) % U64;
      i := i + 1;
    }
  }
}
