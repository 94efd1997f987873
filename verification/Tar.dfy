/** The ustar format, and what a search by name makes of it. */
module Tar {
  import opened Base
  import opened Numbers

  const TAR_SIZE := 512
  const NOERROR_TAR := 0
  const ERROR_TAR := 1

  // ---------------------------------------------------------------- headers

  predicate IsUstar(h: seq<char>) {
    |h| == TAR_SIZE && h[257..263] == ['u', 's', 't', 'a', 'r', NUL] && h[263..265] == ['0', '0']
  }

  predicate GoodHeader(data: seq<char>, offset: nat) {
    offset + TAR_SIZE <= |data| && IsUstar(data[offset..offset + TAR_SIZE])
  }

  /** One wrong byte in the magic or the version, and the header is none. */
  lemma OneByteOff(h: seq<char>, k: nat, c: char)
    requires IsUstar(h) && 257 <= k < 265 && c != h[k]
    ensures !IsUstar(h[k := c])
  {
    var h' := h[k := c];
    if k < 263 {
      assert h'[257..263][k - 257] != h[257..263][k - 257];
    } else {
      assert h'[263..265][k - 263] != h[263..265][k - 263];
    }
  }

  /** The magic ends in a zero. */
  lemma MagicEnds(h: seq<char>)
    requires IsUstar(h)
    ensures h[262] == NUL
  {
    assert h[262] == h[257..263][5];
  }

  /** So the size field is a terminated string whatever it holds. */
  lemma SizeTerminated(h: seq<char>)
    requires IsUstar(h)
    ensures CString(h, 124) && SkipSpace(h, 124) < |h|
  {
    MagicEnds(h);
    assert !IsSpace(h[262]);
  }

  /** What strtoull makes of the size field. */
  function FileSize(h: seq<char>): (n: nat)
    requires IsUstar(h)
  {
    SizeTerminated(h);
    var q := SkipSpace(h, 124);
    Value(h[q..DigitsEnd(h, q, 8)], 8) % U64
  }

  /** Blocks that contents of `n` bytes take. */
  function Blocks(n: nat): nat { (n + TAR_SIZE - 1) / TAR_SIZE }

  /** What find_file takes for the file it looks for: the header begins with the path and its terminator. */
  predicate Hits(h: seq<char>, path: seq<char>) {
    |path| < |h| && h[..|path| + 1] == path + [NUL]
  }

  // ---------------------------------------------------------------- archives

  /** Where the text that begins at `at` ends: at its first zero, or where its field ends. */
  function TextEnd(h: seq<char>, at: nat, end: nat): (e: nat)
    requires at <= end <= |h|
    ensures at <= e <= end && (forall k :: at <= k < e ==> h[k] != NUL) && (e < end ==> h[e] == NUL)
    decreases |h| - at
  {
    if at == end || h[at] == NUL then at else TextEnd(h, at + 1, end)
  }

  function Text(h: seq<char>, at: nat, end: nat): (t: seq<char>)
    requires at <= end <= |h|
    ensures |t| <= end - at && NUL !in t && h[at..at + |t|] == t && (|t| < end - at ==> h[at + |t|] == NUL)
  {
    h[at..TextEnd(h, at, end)]
  }

  /** A numeric field holds `n`: spaces, octal digits, and a zero or space after them. */
  ghost predicate Octal(h: seq<char>, at: nat, width: nat, n: nat)
    requires at + width <= |h|
  {
    exists a, e :: at <= a < e < at + width && OctalText(h, at, a, e) && Value(h[a..e], 8) == n
  }

  ghost predicate OctalText(h: seq<char>, at: nat, a: nat, e: nat)
    requires at <= a <= e < |h|
  {
    && (forall k :: at <= k < a ==> h[k] == ' ')
    && (forall k :: a <= k < e ==> IsDigit(h[k], 8))
    && (h[e] == NUL || h[e] == ' ')
  }

  /** An entry of an archive: the 512 bytes of its header, the number in its size field, and the bytes
      stored after it. */
  datatype Entry = Entry(header: seq<char>, size: nat, content: seq<char>) {

    /** The header is as the ustar format of POSIX.1 lays it out.  Links, devices, directories and FIFOs
        store nothing, whatever their size field says. */
    ghost predicate WellFormed() {
      && IsUstar(header) && Octal(header, 124, 12, size)
      && |content| == if Dataless() then 0 else size
    }

    predicate Dataless()
      requires |header| == TAR_SIZE
    {
      '1' <= header[156] <= '6'
    }

    function Name(): seq<char>
      requires |header| == TAR_SIZE
    {
      Text(header, 0, 100)
    }

    function Prefix(): seq<char>
      requires |header| == TAR_SIZE
    {
      Text(header, 345, 500)
    }

    /** The path of the file: the name, after the prefix and a slash if there is a prefix. */
    function Pathname(): seq<char>
      requires |header| == TAR_SIZE
    {
      if Prefix() == [] then Name() else Prefix() + ['/'] + Name()
    }
  }

  /** From sector `at` on the disk holds these entries, each its header and its contents in whole sectors,
      and then something that is no header. */
  ghost predicate Archive(data: seq<char>, at: nat, es: seq<Entry>)
    decreases |es|
  {
    var off := at * TAR_SIZE;
    if es == [] then !GoodHeader(data, off)
    else
      var end := off + TAR_SIZE + |es[0].content|;
      && es[0].WellFormed() && end <= |data|
      && data[off..off + TAR_SIZE] == es[0].header && data[off + TAR_SIZE..end] == es[0].content
      && Archive(data, at + 1 + Blocks(|es[0].content|), es[1..])
  }

  /** The sector at which entry `i` begins. */
  function Sector(at: nat, es: seq<Entry>, i: nat): nat
    requires i <= |es|
    decreases i
  {
    if i == 0 then at else Sector(at + 1 + Blocks(|es[0].content|), es[1..], i - 1)
  }

  ghost predicate Headers(es: seq<Entry>) { forall j :: 0 <= j < |es| ==> IsUstar(es[j].header) }

  function FirstTrue(bs: seq<bool>): (i: Option<nat>)
    ensures i.Some? ==> i.value < |bs| && bs[i.value] && forall j :: 0 <= j < i.value ==> !bs[j]
    ensures i.None? ==> forall j :: 0 <= j < |bs| ==> !bs[j]
  {
    if bs == [] then None
    else if bs[0] then Some(0)
    else var i := FirstTrue(bs[1..]); if i.None? then None else Some(i.value + 1)
  }

  /** The first file of that path. */
  function First(es: seq<Entry>, path: seq<char>): (i: Option<nat>)
    requires Headers(es)
    ensures i.Some? ==> i.value < |es|
  {
    FirstTrue(seq(|es|, j requires 0 <= j < |es| => es[j].Pathname() == path))
  }

  /** The first entry that find_file takes for it. */
  function FirstHit(es: seq<Entry>, path: seq<char>): Option<nat> {
    FirstTrue(seq(|es|, j requires 0 <= j < |es| => Hits(es[j].header, path)))
  }

  // ---------------------------------------------------------------- when find_file is right

  /** The text at the start of a header.  It runs on behind a name that fills its field. */
  function Start(h: seq<char>): seq<char> { Text(h, 0, |h|) }

  /** A search for `path` is misled by an entry whose header begins with another text than the path of the
      file: it finds the entry under that text, and not under its path. */
  predicate Deceives(e: Entry, path: seq<char>)
    requires |e.header| == TAR_SIZE
  {
    Start(e.header) != e.Pathname() && (path == Start(e.header) || path == e.Pathname())
  }

  /** No entry up to the first file of that path misleads the search. */
  ghost predicate Honest(es: seq<Entry>, path: seq<char>)
    requires Headers(es)
  {
    var w := First(es, path);
    forall j :: 0 <= j < |es| && (w.Some? ==> j <= w.value) ==> !Deceives(es[j], path)
  }

  /** find_file compares the path with the text at the start of the header. */
  lemma HitsStart(h: seq<char>, path: seq<char>)
    requires IsUstar(h) && NUL !in path
    ensures Hits(h, path) <==> path == Start(h)
  {
    hide TextEnd;
    var s := Start(h);
    MagicEnds(h);
    if Hits(h, path) {
      forall k | 0 <= k <= |path| ensures h[k] == (path + [NUL])[k] { assert h[k] == h[..|path| + 1][k]; }
      TextIs(h, 0, |h|, path);
    }
    if path == s { assert h[..|path| + 1] == h[0..|path|] + [h[|path|]]; }
  }

  /** Below 100 bytes that text is the name, so the search is misled exactly by a prefix. */
  lemma ShortName(e: Entry, path: seq<char>)
    requires |e.header| == TAR_SIZE && |e.Name()| < 100
    ensures Start(e.header) == e.Name()
    ensures Deceives(e, path) <==> e.Prefix() != [] && (path == e.Name() || path == e.Pathname())
  {
    hide Text;
    TextIs(e.header, 0, TAR_SIZE, e.Name());
    assert e.Prefix() != [] ==> |e.Pathname()| > |e.Name()|;
  }

  /** A name of 100 bytes runs on into the mode, so unless that is empty the search is misled. */
  lemma LongName(e: Entry, path: seq<char>)
    requires |e.header| == TAR_SIZE && |e.Name()| == 100 && e.Prefix() == []
    ensures Start(e.header) == e.Name() + Text(e.header, 100, TAR_SIZE)
    ensures Deceives(e, path) <==> e.header[100] != NUL && (path == Start(e.header) || path == e.Name())
  {
    hide Text;
    var h, name, rest := e.header, e.Name(), Text(e.header, 100, TAR_SIZE);
    assert h[0..100 + |rest|] == h[0..100] + h[100..100 + |rest|];
    TextIs(h, 0, TAR_SIZE, name + rest);
    assert rest == [] <==> h[100] == NUL by { assert rest != [] ==> h[100..100 + |rest|][0] == rest[0]; }
  }

  lemma DeceivesIff(e: Entry, path: seq<char>)
    requires IsUstar(e.header) && NUL !in path
    ensures Deceives(e, path) <==> (Hits(e.header, path) <==> e.Pathname() != path)
  {
    hide Text, IsUstar, Hits;
    HitsStart(e.header, path);
  }

  /** The entry find_file stops at is the first file of that path if and only if the archive is honest about
      it. */
  lemma FindIff(es: seq<Entry>, path: seq<char>)
    requires Headers(es) && NUL !in path
    ensures FirstHit(es, path) == First(es, path) <==> Honest(es, path)
  {
    hide Deceives, Hits, FirstTrue, Text;
    var hits := seq(|es|, j requires 0 <= j < |es| => Hits(es[j].header, path));
    var named := seq(|es|, j requires 0 <= j < |es| => es[j].Pathname() == path);
    forall j | 0 <= j < |es| ensures Deceives(es[j], path) <==> hits[j] != named[j] { DeceivesIff(es[j], path); }
    FirstSame(hits, named);
  }

  lemma FirstAt(bs: seq<bool>, i: nat)
    requires i < |bs| && bs[i] && forall j :: 0 <= j < i ==> !bs[j]
    ensures FirstTrue(bs) == Some(i)
  {
    hide FirstTrue;
  }

  lemma FirstSame(a: seq<bool>, b: seq<bool>)
    requires |a| == |b|
    ensures var w := FirstTrue(b);
      FirstTrue(a) == w <==> forall j :: 0 <= j < |b| && (w.Some? ==> j <= w.value) ==> a[j] == b[j]
  {
    hide FirstTrue;
    var w := FirstTrue(b);
    if w.Some? && forall j :: 0 <= j <= w.value ==> a[j] == b[j] { FirstAt(a, w.value); }
  }

  // ---------------------------------------------------------------- archives that are not honest

  const EMPTY := "00000000000"

  /** A header with these fields: `kind` is '0' for a file and '5' for a directory, `size` the digits of the
      size field. */
  function Sample(prefix: seq<char>, name: seq<char>, kind: char, size: seq<char>): (h: seq<char>)
    requires |prefix| <= 155 && |name| <= 100 && |size| == 11
    ensures |h| == TAR_SIZE
  {
    seq(TAR_SIZE, i requires 0 <= i < TAR_SIZE =>
      if i < |name| then name[i]
      else if 124 <= i < 135 then size[i - 124]
      else if i == 156 then kind
      else if 257 <= i < 262 then ['u', 's', 't', 'a', 'r'][i - 257]
      else if 345 <= i < 345 + |prefix| then prefix[i - 345]
      else if 100 <= i < 107 || 263 <= i < 265 then '0'
      else NUL)
  }

  lemma TextIs(h: seq<char>, at: nat, end: nat, s: seq<char>)
    requires at + |s| <= end <= |h| && NUL !in s && (at + |s| < end ==> h[at + |s|] == NUL) && h[at..at + |s|] == s
    ensures Text(h, at, end) == s
  {
    hide TextEnd;
    var e := TextEnd(h, at, end);
    forall k | at <= k < at + |s| ensures h[k] != NUL { assert h[k] == h[at..at + |s|][k - at] == s[k - at]; }
    assert e == at + |s|;
  }

  ghost predicate Fields(prefix: seq<char>, name: seq<char>, size: seq<char>) {
    && |prefix| <= 155 && |name| <= 100 && NUL !in prefix && NUL !in name
    && |size| == 11 && forall k :: 0 <= k < 11 ==> IsDigit(size[k], 8)
  }

  lemma SampleFields(prefix: seq<char>, name: seq<char>, kind: char, size: seq<char>, n: nat)
    requires Fields(prefix, name, size) && Value(size, 8) == n
    ensures var h := Sample(prefix, name, kind, size);
      && IsUstar(h) && Octal(h, 124, 12, n) && h[156] == kind
      && Text(h, 0, 100) == name && Text(h, 345, 500) == prefix
      && (|name| == 100 ==> h[100] == '0')
  {
    hide Value, Text, TextEnd, Sample, OctalText, IsUstar;
    var h := Sample(prefix, name, kind, size);
    SampleTexts(prefix, name, kind, size);
    TextIs(h, 0, 100, name);
    TextIs(h, 345, 500, prefix);
    SampleNumbers(prefix, name, kind, size);
    assert h[124..135] == h[124..135] && Octal(h, 124, 12, n);
  }

  lemma SampleNumbers(prefix: seq<char>, name: seq<char>, kind: char, size: seq<char>)
    requires Fields(prefix, name, size)
    ensures var h := Sample(prefix, name, kind, size);
      IsUstar(h) && h[156] == kind && OctalText(h, 124, 124, 135) && h[124..135] == size
  {
    var h := Sample(prefix, name, kind, size);
    forall k | 0 <= k < 6 ensures h[257..263][k] == ['u', 's', 't', 'a', 'r', NUL][k] {}
    forall k | 0 <= k < 11 ensures h[124..135][k] == size[k] {}
    forall k | 124 <= k < 135 ensures IsDigit(h[k], 8) { assert h[k] == size[k - 124]; }
  }

  lemma SampleTexts(prefix: seq<char>, name: seq<char>, kind: char, size: seq<char>)
    requires |prefix| <= 155 && |name| <= 100 && |size| == 11
    ensures var h := Sample(prefix, name, kind, size);
      && h[0..0 + |name|] == name && h[345..345 + |prefix|] == prefix && (|name| == 100 ==> h[100] == '0')
      && (|name| < 100 ==> h[|name|] == NUL) && (|prefix| < 155 ==> h[345 + |prefix|] == NUL)
  {
    var h := Sample(prefix, name, kind, size);
    forall k | 0 <= k < |name| ensures h[0..0 + |name|][k] == name[k] {}
    forall k | 0 <= k < |prefix| ensures h[345..345 + |prefix|][k] == prefix[k] {}
  }

  lemma {:induction false} AllZeros(ds: seq<char>)
    requires forall k :: 0 <= k < |ds| ==> ds[k] == '0'
    ensures Value(ds, 8) == 0
  {
    if ds != [] { AllZeros(ds[..|ds| - 1]); }
  }

  /** An empty regular file. */
  function File(prefix: seq<char>, name: seq<char>): Entry
    requires |prefix| <= 155 && |name| <= 100
  {
    Entry(Sample(prefix, name, '0', EMPTY), 0, [])
  }

  lemma FileFields(prefix: seq<char>, name: seq<char>)
    requires |prefix| <= 155 && |name| <= 100 && NUL !in prefix && NUL !in name
    ensures var e := File(prefix, name);
      && e.WellFormed() && e.Name() == name && e.Prefix() == prefix && (|name| == 100 ==> e.header[100] == '0')
  {
    hide Value, Text, Sample, Octal, IsUstar;
    AllZeros(EMPTY);
    SampleFields(prefix, name, '0', EMPTY, 0);
  }

  /** A file whose name fills its field is never found. */
  lemma LongNameMissed(name: seq<char>)
    requires |name| == 100 && NUL !in name
    ensures var es := [File([], name)];
      es[0].WellFormed() && First(es, name) == Some(0) && FirstHit(es, name) == None && !Honest(es, name)
  {
    hide File, Hits, Text, Honest, Octal;
    FileFields([], name);
    var e := File([], name);
    LongName(e, name);
    HitsStart(e.header, name);
    FindIff([e], name);
  }

  /** A file with a prefix is found under its name alone, and not under its path. */
  lemma PrefixIgnored(prefix: seq<char>, name: seq<char>)
    requires 0 < |prefix| <= 155 && |name| < 100 && NUL !in prefix && NUL !in name
    ensures var es := [File(prefix, name)]; var path := prefix + ['/'] + name;
      && es[0].WellFormed()
      && First(es, path) == Some(0) && FirstHit(es, path) == None && !Honest(es, path)
      && First(es, name) == None && FirstHit(es, name) == Some(0) && !Honest(es, name)
  {
    hide File, Hits, Text, Honest, Octal;
    FileFields(prefix, name);
    var e := File(prefix, name);
    var path := prefix + ['/'] + name;
    assert |path| > |name| && e.Pathname() == path;
    ShortName(e, name);
    HitsStart(e.header, name);
    HitsStart(e.header, path);
    FindIff([e], name);
    FindIff([e], path);
  }

  // ---------------------------------------------------------------- size fields

  /** The size field is read back as the number it holds. */
  lemma SizeReads(h: seq<char>, n: nat)
    requires IsUstar(h) && Octal(h, 124, 12, n)
    ensures FileSize(h) == n && n < 0x2_0000_0000
  {
    hide Value;
    SizeTerminated(h);
    var a, e :| 124 <= a < e < 136 && OctalText(h, 124, a, e) && Value(h[a..e], 8) == n;
    SpacesEnd(h, 124, a);
    OctalEnd(h, a, e);
    ValueBound(h[a..e], 11);
    Remainder(n, U64, 0, n);
  }

  lemma {:induction false} SpacesEnd(h: seq<char>, p: nat, a: nat)
    requires p <= a < |h| && (forall k :: p <= k < a ==> h[k] == ' ') && IsDigit(h[a], 8)
    ensures SkipSpace(h, p) == a
    decreases a - p
  {
    if p < a { SpacesEnd(h, p + 1, a); }
  }

  lemma {:induction false} OctalEnd(h: seq<char>, p: nat, e: nat)
    requires p <= e < |h| && (forall k :: p <= k < e ==> IsDigit(h[k], 8)) && (h[e] == NUL || h[e] == ' ')
    ensures DigitsEnd(h, p, 8) == e
    decreases e - p
  {
    if p < e { OctalEnd(h, p + 1, e); }
  }

  function Power8(n: nat): (r: nat)
    ensures r > 0
  {
    if n == 0 then 1 else 8 * Power8(n - 1)
  }

  lemma {:induction false} DigitsBelow(ds: seq<char>)
    requires forall k :: 0 <= k < |ds| ==> IsDigit(ds[k], 8)
    ensures 0 <= Value(ds, 8) < Power8(|ds|)
  {
    if ds != [] { DigitsBelow(ds[..|ds| - 1]); }
  }

  lemma {:induction false} ValueBound(ds: seq<char>, n: nat)
    requires |ds| <= n <= 11 && forall k :: 0 <= k < |ds| ==> IsDigit(ds[k], 8)
    ensures 0 <= Value(ds, 8) < 0x2_0000_0000
  {
    DigitsBelow(ds);
    PowerGrows(|ds|, 11);
    assert Power8(4) == 4096 && Power8(8) == 4096 * 4096 && Power8(11) == 0x2_0000_0000;
  }

  lemma {:induction false} PowerGrows(m: nat, n: nat)
    requires m <= n
    ensures Power8(m) <= Power8(n)
    decreases n - m
  {
    if m < n { PowerGrows(m, n - 1); }
  }
}
