/** What find_file returns on an archive: where its walk keeps to the entries, and what it then finds. */
module TarArchive {
  import opened Base
  import opened Numbers
  import opened Tar
  import opened TarFind

  // ---------------------------------------------------------------- entries on the disk

  lemma {:induction false} ArchiveAt(data: seq<char>, at: nat, es: seq<Entry>, i: nat)
    requires Archive(data, at, es) && i < |es|
    ensures var from := (Sector(at, es, i) + 1) * TAR_SIZE;
      && es[i].WellFormed() && from + |es[i].content| <= |data|
      && data[from - TAR_SIZE..from] == es[i].header && data[from..from + |es[i].content|] == es[i].content
    decreases i
  {
    hide GoodHeader, Entry.WellFormed, Blocks;
    if i > 0 { ArchiveAt(data, at + 1 + Blocks(|es[0].content|), es[1..], i - 1); }
  }

  lemma {:induction false} ArchiveEnd(data: seq<char>, at: nat, es: seq<Entry>)
    requires Archive(data, at, es)
    ensures !GoodHeader(data, Sector(at, es, |es|) * TAR_SIZE)
    decreases |es|
  {
    hide GoodHeader, Entry.WellFormed, Blocks;
    if es != [] { ArchiveEnd(data, at + 1 + Blocks(|es[0].content|), es[1..]); }
  }

  lemma ArchiveHeaders(data: seq<char>, at: nat, es: seq<Entry>)
    requires Archive(data, at, es)
    ensures Headers(es)
  {
    hide Archive, IsUstar, Sector, Octal;
    forall j | 0 <= j < |es| ensures IsUstar(es[j].header) { ArchiveAt(data, at, es, j); }
  }

  lemma {:induction false} SectorNext(at: nat, es: seq<Entry>, i: nat)
    requires i < |es|
    ensures Sector(at, es, i + 1) == Sector(at, es, i) + 1 + Blocks(|es[i].content|)
    decreases i
  {
    if i > 0 { SectorNext(at + 1 + Blocks(|es[0].content|), es[1..], i - 1); }
  }

  lemma {:induction false} SectorGrows(at: nat, es: seq<Entry>, i: nat, j: nat)
    requires i < j <= |es|
    ensures Sector(at, es, i) < Sector(at, es, j)
    decreases j
  {
    SectorNext(at, es, j - 1);
    if i < j - 1 { SectorGrows(at, es, i, j - 1); }
  }

  // ---------------------------------------------------------------- keeping to the entries

  /** The entry that a search comes to last, or the end of the archive. */
  function Stop(es: seq<Entry>, path: seq<char>): (i: nat)
    ensures i <= |es|
  {
    var w := FirstHit(es, path); if w.Some? then w.value else |es|
  }

  lemma StopHits(es: seq<Entry>, path: seq<char>, i: nat)
    requires i < |es| && i <= Stop(es, path)
    ensures Hits(es[i].header, path) <==> i == Stop(es, path)
  {
    hide Hits, FirstTrue;
    var hits := seq(|es|, j requires 0 <= j < |es| => Hits(es[j].header, path));
    assert hits[i] == Hits(es[i].header, path) && FirstHit(es, path) == FirstTrue(hits);
  }

  /** After `i` steps the walk is at entry `i`, and reads the header there. */
  ghost predicate Follows(data: seq<char>, start: nat, es: seq<Entry>, i: nat)
    requires i <= |es|
  {
    var sect := Visit(data, start, i); sect == Sector(start, es, i) && HeaderOffset(sect) == sect * TAR_SIZE
  }

  /** The search keeps to the entries up to its end. */
  ghost predicate Tracks(data: seq<char>, start: nat, es: seq<Entry>, path: seq<char>) {
    forall i: nat :: i <= Stop(es, path) ==> Follows(data, start, es, i)
  }

  /** The part of the archive that a search passes lies below 4 GiB, and every entry it passes over stores
      what its size field says. */
  ghost predicate Walkable(at: nat, es: seq<Entry>, path: seq<char>) {
    forall i: nat :: i <= Stop(es, path) ==>
      Sector(at, es, i) < ROUND && (i < Stop(es, path) ==> |es[i].content| == es[i].size)
  }

  /** At an entry the walk reads its header, and at the end of the archive none. */
  lemma HeaderHere(data: seq<char>, start: nat, es: seq<Entry>, i: nat)
    requires Archive(data, start, es) && i <= |es| && Follows(data, start, es, i)
    ensures var sect := Visit(data, start, i);
      && (HeaderThere(data, sect) <==> i < |es|)
      && (i < |es| ==> HeaderAt(data, sect) == es[i].header && FileSize(es[i].header) == es[i].size < 0x2_0000_0000)
      && (i < |es| ==> |es[i].content| == (if es[i].Dataless() then 0 else es[i].size))
  {
    hide Archive, Sector, Visit, FileSize, HeaderOffset, Octal, IsUstar;
    if i < |es| {
      ArchiveAt(data, start, es, i);
      SizeReads(es[i].header, es[i].size);
    } else {
      ArchiveEnd(data, start, es);
    }
  }

  lemma Steps(sect: nat, size: nat, stored: nat)
    requires sect < ROUND && size < 0x2_0000_0000 && (stored == size || stored == 0)
    ensures Onward(sect, size) == sect + 1 + Blocks(stored) <==> stored == size
  {
  }

  /** From one entry the walk comes to the next if and only if the entry stores what its size field says. */
  lemma StepsOver(data: seq<char>, start: nat, es: seq<Entry>, i: nat)
    requires Archive(data, start, es) && i < |es| && Follows(data, start, es, i)
    ensures Visit(data, start, i + 1) == Sector(start, es, i + 1) <==> |es[i].content| == es[i].size
  {
    hide Archive, Sector, FileSize, HeaderOffset, HeaderThere, Onward, Blocks;
    HeaderHere(data, start, es, i);
    var sect := Visit(data, start, i);
    HeadersRepeat(sect);
    SectorNext(start, es, i);
    Steps(sect, es[i].size, |es[i].content|);
    assert Visit(data, start, i + 1) == Next(data, sect);
  }

  lemma {:induction false} Followed(data: seq<char>, start: nat, es: seq<Entry>, path: seq<char>, i: nat)
    requires Archive(data, start, es) && Walkable(start, es, path) && i <= Stop(es, path)
    ensures Follows(data, start, es, i)
    decreases i
  {
    hide Archive, HeaderOffset, Stop, Next;
    if i > 0 {
      Followed(data, start, es, path, i - 1);
      StepsOver(data, start, es, i - 1);
    }
    HeadersRepeat(Sector(start, es, i));
  }

  /** The sectors visited and the offsets read are those of the entries if and only if every entry on the way
      lies below 4 GiB and every entry passed over stores what its size field says. */
  lemma TracksIff(data: seq<char>, start: nat, es: seq<Entry>, path: seq<char>)
    requires Archive(data, start, es)
    ensures Tracks(data, start, es, path) <==> Walkable(start, es, path)
  {
    hide Archive, HeaderOffset, Stop, Sector, Visit;
    if Walkable(start, es, path) {
      forall i: nat | i <= Stop(es, path) ensures Follows(data, start, es, i) { Followed(data, start, es, path, i); }
    }
    if Tracks(data, start, es, path) {
      forall i: nat | i <= Stop(es, path)
        ensures Sector(start, es, i) < ROUND && (i < Stop(es, path) ==> |es[i].content| == es[i].size)
      {
        assert Follows(data, start, es, i);
        HeadersRepeat(Sector(start, es, i));
        if i < Stop(es, path) {
          assert Follows(data, start, es, i + 1);
          StepsOver(data, start, es, i);
        }
      }
    }
  }

  // ---------------------------------------------------------------- what is found

  /** The call found entry `i`, or nothing. */
  ghost predicate Found(start: nat, es: seq<Entry>, i: Option<nat>, err: nat, sect: nat) {
    && (err == NOERROR_TAR <==> i.Some?)
    && (i.Some? ==> i.value < |es| && sect == Sector(start, es, i.value))
  }

  /** Such a search ends, at the first entry that begins with the path or at the end of the archive. */
  lemma SearchHalts(data: seq<char>, start: nat, es: seq<Entry>, path: seq<char>)
    requires Archive(data, start, es) && Walkable(start, es, path)
    ensures Halts(data, path, start, Stop(es, path)) && Ends(data, path, start)
  {
    hide Archive, Walkable, Visit, Stop, HeaderThere, Hits, FileSize;
    forall i: nat | i <= Stop(es, path)
      ensures Stops(data, path, Visit(data, start, i)) <==> i == Stop(es, path)
    {
      Followed(data, start, es, path, i);
      HeaderHere(data, start, es, i);
      if i < |es| { StopHits(es, path, i); }
    }
  }

  /** The answer is the first entry that begins with the path.  It is the first file of the path, or there is
      none, if and only if the archive is honest about the path. */
  lemma FindTheorem(data: seq<char>, start: nat, es: seq<Entry>, path: seq<char>, err: nat, sect: nat)
    requires Archive(data, start, es) && Walkable(start, es, path) && NUL !in path
    requires Answer(data, path, start, err, sect)
    ensures Headers(es) && Found(start, es, FirstHit(es, path), err, sect)
    ensures err == NOERROR_TAR ==> HeaderAt(data, sect) == es[FirstHit(es, path).value].header
    ensures Found(start, es, First(es, path), err, sect) <==> Honest(es, path)
  {
    hide Archive, Walkable, Visit, Halts, HeaderThere, Hits, FileSize, FirstHit, First, Honest, Sector, Headers;
    ArchiveHeaders(data, start, es);
    SearchHalts(data, start, es, path);
    var n: nat :| Halts(data, path, start, n) && sect == Visit(data, start, n);
    HaltsOnce(data, path, start, n, Stop(es, path));
    Followed(data, start, es, path, n);
    HeaderHere(data, start, es, n);
    FindIff(es, path);
    FirstApart(start, es, path);
  }

  /** Different entries begin at different sectors. */
  lemma FirstApart(start: nat, es: seq<Entry>, path: seq<char>)
    requires Headers(es)
    ensures var i, w := FirstHit(es, path), First(es, path);
      && (i.Some? ==> i.value < |es|) && (w.Some? ==> w.value < |es|)
      && (i.Some? && w.Some? && Sector(start, es, i.value) == Sector(start, es, w.value) ==> i == w)
  {
    hide Headers, FirstTrue, Sector, Hits, Text;
    var i, w := FirstHit(es, path), First(es, path);
    if i.Some? && w.Some? && i.value < w.value { SectorGrows(start, es, i.value, w.value); }
    if i.Some? && w.Some? && w.value < i.value { SectorGrows(start, es, w.value, i.value); }
  }

  // ---------------------------------------------------------------- archives that the walk leaves

  /** The digits of 512 and of 2^32 - 512. */
  const ONE_BLOCK := "00000001000"
  const MANY_BLOCKS := "37777777000"

  lemma ValueStep(ds: seq<char>, k: nat)
    requires k < |ds|
    ensures Value(ds[..k + 1], 8) == 8 * Value(ds[..k], 8) + Ctoi(ds[k])
  {
    assert ds[..k + 1][..k] == ds[..k];
  }

  lemma {:induction false} LastZeros(ds: seq<char>, k: nat)
    requires k + 3 == |ds| && ds[k] == ds[k + 1] == ds[k + 2] == '0'
    ensures Value(ds, 8) == 512 * Value(ds[..k], 8)
  {
    hide Value;
    ValueStep(ds, k);
    ValueStep(ds, k + 1);
    ValueStep(ds, k + 2);
    assert ds[..k + 3] == ds;
  }

  lemma {:induction false} Sevens(ds: seq<char>, k: nat)
    requires 0 < k <= |ds| && ds[0] == '3' && forall i :: 0 < i < k ==> ds[i] == '7'
    ensures Value(ds[..k], 8) == 4 * Power8(k - 1) - 1
    decreases k
  {
    hide Value;
    ValueStep(ds, k - 1);
    if k > 1 { Sevens(ds, k - 1); } else { NoValue(ds[..0]); }
  }

  lemma NoValue(ds: seq<char>)
    requires ds == []
    ensures Value(ds, 8) == 0
  {
  }

  lemma BlockDigits()
    ensures Value(ONE_BLOCK, 8) == 512 && Value(MANY_BLOCKS, 8) == 0xffff_fe00
    ensures forall k :: 0 <= k < 11 ==> IsDigit(ONE_BLOCK[k], 8) && IsDigit(MANY_BLOCKS[k], 8)
  {
    hide Value;
    LastZeros(ONE_BLOCK, 8);
    ValueStep(ONE_BLOCK, 7);
    AllZeros(ONE_BLOCK[..7]);
    LastZeros(MANY_BLOCKS, 8);
    Sevens(MANY_BLOCKS, 8);
    assert Power8(4) == 4096;
  }

  /** A directory, and a file of many blocks. */
  function Directory(name: seq<char>): Entry
    requires |name| < 100
  {
    Entry(Sample([], name, '5', ONE_BLOCK), 512, [])
  }

  function LongFile(name: seq<char>, content: seq<char>): Entry
    requires |name| < 100
  {
    Entry(Sample([], name, '0', MANY_BLOCKS), 0xffff_fe00, content)
  }

  /** A disk that holds one entry, and then another that stores nothing. */
  function Pair(e: Entry, f: Entry): seq<char> { e.header + e.content + f.header }

  lemma PairArchive(e: Entry, f: Entry)
    requires e.WellFormed() && f.WellFormed() && f.content == [] && |e.content| % TAR_SIZE == 0
    ensures Archive(Pair(e, f), 0, [e, f])
  {
    hide Octal, IsUstar;
    var data, at := Pair(e, f), 1 + Blocks(|e.content|);
    assert |e.header| == TAR_SIZE && |f.header| == TAR_SIZE by { PairLengths(e, f); }
    assert at * TAR_SIZE == TAR_SIZE + |e.content|;
    assert data[0..TAR_SIZE] == e.header && data[TAR_SIZE..TAR_SIZE + |e.content|] == e.content;
    assert data[at * TAR_SIZE..at * TAR_SIZE + TAR_SIZE] == f.header;
    assert !GoodHeader(data, (at + 1) * TAR_SIZE);
    assert Archive(data, at + 1, []);
    assert [f][1..] == [] && [e, f][1..] == [f];
    assert Archive(data, at, [f]);
  }

  lemma PairLengths(e: Entry, f: Entry)
    requires e.WellFormed() && f.WellFormed()
    ensures |e.header| == TAR_SIZE && |f.header| == TAR_SIZE
  {
    hide Octal;
  }

  lemma SampleEntries(name: seq<char>, content: seq<char>)
    requires |name| < 100 && NUL !in name && |content| == 0xffff_fe00
    ensures var d, f := Directory(name), LongFile(name, content);
      && d.WellFormed() && d.Name() == name && d.Prefix() == [] && d.Dataless()
      && f.WellFormed() && f.Name() == name && f.Prefix() == []
  {
    hide Value, Text, Sample, Octal, IsUstar;
    BlockDigits();
    SampleFields([], name, '5', ONE_BLOCK, 512);
    SampleFields([], name, '0', MANY_BLOCKS, 0xffff_fe00);
  }

  /** Two entries without prefixes and with short names mislead no search. */
  lemma SecondFound(e: Entry, f: Entry, path: seq<char>)
    requires IsUstar(e.header) && IsUstar(f.header) && NUL !in path
    requires |e.Name()| < 100 && |f.Name()| < 100 && e.Prefix() == f.Prefix() == []
    requires e.Name() != path && f.Name() == path
    ensures Honest([e, f], path) && First([e, f], path) == Some(1) && !Hits(e.header, path) && Stop([e, f], path) == 1
  {
    hide Text, Hits, FirstTrue;
    ShortName(e, path);
    ShortName(f, path);
    HitsStart(e.header, path);
    HitsStart(f.header, path);
    FirstAt(seq(2, j requires 0 <= j < 2 => [e, f][j].Pathname() == path), 1);
    FirstAt(seq(2, j requires 0 <= j < 2 => Hits([e, f][j].header, path)), 1);
  }

  /** A directory with a size, and after it the file: the walk takes the size for contents, steps over the file,
      and finds nothing. */
  lemma DirectoryDerails(dir: seq<char>, path: seq<char>)
    requires |dir| < 100 && |path| < 100 && NUL !in dir && NUL !in path && dir != path
    ensures var es := [Directory(dir), File([], path)]; var data := Pair(es[0], es[1]);
      && Archive(data, 0, es) && Headers(es) && Honest(es, path) && First(es, path) == Some(1)
      && Halts(data, path, 0, 1) && !HeaderThere(data, Visit(data, 0, 1)) && !Walkable(0, es, path)
  {
    hide Text, Octal, FileSize, Hits, First, Honest, Sample, Archive, Walkable, Halts, Visit, Next, HeaderThere;
    var d, f := Directory(dir), File([], path);
    SampleEntries(dir, seq(0xffff_fe00, _ => NUL));
    FileFields([], path);
    PairArchive(d, f);
    SecondFound(d, f, path);
    StartsAt(d, f, path);
    Derailed(Pair(d, f), path);
    TracksIff(Pair(d, f), 0, [d, f], path);
    assert !Follows(Pair(d, f), 0, [d, f], 1);
  }

  lemma Derailed(data: seq<char>, path: seq<char>)
    requires |data| == 1024 && !Stops(data, path, 0) && Next(data, 0) == Onward(0, 512)
    ensures Visit(data, 0, 1) == 2 && !HeaderThere(data, 2) && Halts(data, path, 0, 1)
  {
    hide Next, FileSize, Hits;
    assert Visit(data, 0, 0) == 0 && Visit(data, 0, 1) == Next(data, 0) == 2;
    HeadersRepeat(2);
  }

  /** The first header of such a disk. */
  lemma StartsAt(e: Entry, f: Entry, path: seq<char>)
    requires Archive(Pair(e, f), 0, [e, f]) && !Hits(e.header, path)
    ensures var data := Pair(e, f);
      && IsUstar(e.header) && HeaderThere(data, 0) && HeaderAt(data, 0) == e.header && FileSize(e.header) == e.size
      && Next(data, 0) == Onward(0, e.size) && !Stops(data, path, 0)
  {
    hide Archive, Octal, Hits, FileSize;
    HeadersRepeat(0);
    HeaderHere(Pair(e, f), 0, [e, f], 0);
  }

  /** A file that ends at 4 GiB, and after it the one looked for: the walk is back at the first header, for
      ever. */
  lemma LongFileLoops(name: seq<char>, content: seq<char>, path: seq<char>)
    requires |name| < 100 && |path| < 100 && NUL !in name && NUL !in path && name != path
    requires |content| == 0xffff_fe00
    ensures var es := [LongFile(name, content), File([], path)]; var data := Pair(es[0], es[1]);
      && Archive(data, 0, es) && Headers(es) && Honest(es, path) && First(es, path) == Some(1)
      && !Ends(data, path, 0) && !Walkable(0, es, path)
  {
    hide Text, Octal, FileSize, Hits, First, Honest, Sample, Archive, Stops, Walkable, Next, Onward, Visit, Pair, Stop;
    var e, f := LongFile(name, content), File([], path);
    var data := Pair(e, f);
    SampleEntries(name, content);
    FileFields([], path);
    PairArchive(e, f);
    SecondFound(e, f, path);
    StartsAt(e, f, path);
    Steps(0, 0xffff_fe00, 0xffff_fe00);
    forall n: nat ensures !Stops(data, path, Visit(data, 0, n)) {
      Back(data, path, n);
    }
    if Walkable(0, [e, f], path) { SearchHalts(data, 0, [e, f], path); }
  }

  /** If the walk goes round once without stopping, it does so for ever. */
  lemma {:induction false} Back(data: seq<char>, path: seq<char>, n: nat)
    requires !Stops(data, path, 0) && Next(data, 0) == ROUND
    ensures !Stops(data, path, Visit(data, 0, n)) && Visit(data, 0, n) % ROUND == 0
    decreases n
  {
    hide Stops, Next;
    if n > 0 {
      Back(data, path, n - 1);
      SameRound(data, path, Visit(data, 0, n - 1), 0);
    }
    SameRound(data, path, Visit(data, 0, n), 0);
  }
}
