/** Printing numbers into a buffer and parsing them back, in any radix from 2 to 36.  Strings lie in
    character buffers, end in a zero character, and pointers are positions. */
module Numbers {
  import opened Base

  const NUL: char := '\0'

  function Itoc(i: int): char
    requires -48 <= i < 36
  {
    if i < 10 then ('0' as int + i) as char else ('a' as int + (i - 10)) as char
  }

  function Ctoi(c: char): int {
    if '0' <= c <= '9' then c as int - '0' as int
    else if 'A' <= c <= 'Z' then c as int - 'A' as int + 10
    else if 'a' <= c <= 'z' then c as int - 'a' as int + 10
    else -1
  }

  predicate IsSpace(c: char) { c in {' ', '\t', 11 as char, 12 as char, '\r', '\n'} }

  predicate Radix(r: int) { 2 <= r <= 36 }

  /** `c` is a digit in this radix. */
  predicate IsDigit(c: char, radix: int) { 0 <= Ctoi(c) < radix }

  lemma ItocCtoi(i: int)
    requires 0 <= i < 36
    ensures Ctoi(Itoc(i)) == i && !IsSpace(Itoc(i)) && Itoc(i) != NUL && Itoc(i) != '-' && Itoc(i) != '+'
  {
  }

  /** C division rounds towards zero, and the remainder takes the sign of the dividend. */
  function DivC(n: int, r: int): int
    requires r > 0
  {
    if n < 0 then -(-n / r) else n / r
  }

  function ModC(n: int, r: int): int
    requires r > 0
  {
    if n < 0 then -(-n % r) else n % r
  }

  function Abs(n: int): nat { if n < 0 then -n else n }

  lemma DivFacts(n: nat, r: int)
    requires r >= 2
    ensures n == n / r * r + n % r && 0 <= n % r < r && n / r >= 0
    ensures n < r ==> n / r == 0 && n % r == n
    ensures n >= r ==> n / r > 0
    ensures n > 0 ==> n / r < n
  {
    var q := n / r;
    assert n == r * q + n % r;
    Multiple(r, q);
  }

  lemma Multiple(r: int, q: int)
    requires r >= 2
    ensures q >= 1 ==> r * q >= r && r * q >= 2 * q
    ensures q <= -1 ==> r * q <= -r
    ensures r * q == q * r
  {
  }

  // ---------------------------------------------------------------- printed forms

  /** The digits of `n`, the most significant first.  A negative number gives the characters of its
      negative remainders, which are not digits. */
  function Digits(n: int, radix: int): (ds: seq<char>)
    requires Radix(radix)
    ensures |ds| > 0
    decreases Abs(n)
  {
    DivFacts(Abs(n), radix);
    if Abs(n) < radix then [Itoc(n)] else Digits(DivC(n, radix), radix) + [Itoc(ModC(n, radix))]
  }

  function Reversed(s: seq<char>): (r: seq<char>)
    ensures |r| == |s| && forall k :: 0 <= k < |s| ==> r[k] == s[|s| - 1 - k]
  {
    seq(|s|, k requires 0 <= k < |s| => s[|s| - 1 - k])
  }

  lemma {:induction false} DigitsFine(n: nat, radix: int)
    requires Radix(radix)
    ensures forall k :: 0 <= k < |Digits(n, radix)| ==> IsDigit(Digits(n, radix)[k], radix)
    decreases n
  {
    if n < radix {
      ItocCtoi(n);
    } else {
      DivFacts(n, radix);
      DigitsFine(n / radix, radix);
      ItocCtoi(n % radix);
    }
  }

  /** The number that a string of digits denotes. */
  function Value(ds: seq<char>, radix: int): int {
    if ds == [] then 0 else Value(ds[..|ds| - 1], radix) * radix + Ctoi(ds[|ds| - 1])
  }

  lemma ValueSnoc(ds: seq<char>, c: char, radix: int)
    ensures Value(ds + [c], radix) == Value(ds, radix) * radix + Ctoi(c)
  {
    assert (ds + [c])[..|ds + [c]| - 1] == ds;
  }

  /** The printed form denotes the number. */
  lemma {:induction false} ValueDigits(n: nat, radix: int)
    requires Radix(radix)
    ensures Value(Digits(n, radix), radix) == n
    decreases n
  {
    if n < radix {
      assert Digits(n, radix) == [] + [Itoc(n)];
      ValueSnoc([], Itoc(n), radix);
      ItocCtoi(n);
    } else {
      DivFacts(n, radix);
      ValueDigits(n / radix, radix);
      ValueSnoc(Digits(n / radix, radix), Itoc(n % radix), radix);
      ItocCtoi(n % radix);
    }
  }

  lemma DigitsCons(n: nat, radix: int)
    requires Radix(radix) && n >= radix
    ensures Digits(n, radix) == Digits(n / radix, radix) + [Itoc(n % radix)]
  {
  }

  /** Only zero begins with a zero. */
  lemma {:induction false} NoLeadingZero(n: nat, radix: int)
    requires Radix(radix) && n > 0
    ensures Digits(n, radix)[0] != '0'
    decreases n
  {
    DivFacts(n, radix);
    if n >= radix {
      DigitsCons(n, radix);
      NoLeadingZero(n / radix, radix);
    } else {
      ItocCtoi(n);
    }
  }

  // ---------------------------------------------------------------- printing

  /** The digit loop: writes the digits of `n`, the least significant first. */
  method EmitDigits(buffer: array<char>, start: nat, n: int, radix: int) returns (pos: nat)
    requires Radix(radix) && n != 0 && start + |Digits(n, radix)| <= buffer.Length
    modifies buffer
    ensures pos == start + |Digits(n, radix)| && Reversed(buffer[start..pos]) == Digits(n, radix)
    ensures forall k :: 0 <= k < buffer.Length && !(start <= k < pos) ==> buffer[k] == old(buffer[k])
  {
    pos := start;
    var m := n;
    while m != 0
      invariant start <= pos <= buffer.Length
      invariant m != 0 ==> pos + |Digits(m, radix)| == start + |Digits(n, radix)|
      invariant (if m == 0 then [] else Digits(m, radix)) + Reversed(buffer[start..pos]) == Digits(n, radix)
      invariant forall k :: 0 <= k < buffer.Length && !(start <= k < pos) ==> buffer[k] == old(buffer[k])
      decreases Abs(m)
    {
      ghost var was := buffer[start..pos];
      buffer[pos] := Itoc(ModC(m, radix));
      pos := pos + 1;
      EmitStep(m, radix, was, buffer[start..pos]);
      m := DivC(m, radix);
    }
  }

  lemma EmitStep(m: int, radix: int, was: seq<char>, now: seq<char>)
    requires Radix(radix) && m != 0 && now == was + [Itoc(ModC(m, radix))]
    ensures var d := DivC(m, radix);
      && (if d == 0 then [] else Digits(d, radix)) + Reversed(now) == Digits(m, radix) + Reversed(was)
      && |Digits(m, radix)| == (if d == 0 then 1 else 1 + |Digits(d, radix)|)
      && Abs(d) < Abs(m)
  {
    SmallDiv(m, radix);
    var c := Itoc(ModC(m, radix));
    assert Reversed(now) == [c] + Reversed(was);
  }

  lemma SmallDiv(m: int, radix: int)
    requires Radix(radix)
    ensures DivC(m, radix) == 0 <==> Abs(m) < radix
    ensures Abs(m) < radix ==> ModC(m, radix) == m
    ensures m != 0 ==> Abs(DivC(m, radix)) < Abs(m)
  {
    DivFacts(Abs(m), radix);
  }

  /** The swap loop, with both pointers moving inwards. */
  method ReverseInPlace(buffer: array<char>, lo: nat, hi: nat)
    requires lo < hi <= buffer.Length
    modifies buffer
    ensures buffer[lo..hi] == Reversed(old(buffer[lo..hi]))
    ensures forall k :: 0 <= k < buffer.Length && !(lo <= k < hi) ==> buffer[k] == old(buffer[k])
  {
    var start, end := lo, hi - 1;
    while end > start
      invariant lo <= start <= end + 1 <= hi && start - lo == hi - 1 - end
      invariant forall k :: 0 <= k < buffer.Length && (start <= k <= end || k < lo || k >= hi) ==>
        buffer[k] == old(buffer[k])
      invariant forall k :: lo <= k < start || end < k < hi ==> buffer[k] == old(buffer[lo + (hi - 1 - k)])
    {
      var tmp := buffer[start];
      buffer[start] := buffer[end];
      start := start + 1;
      buffer[end] := tmp;
      end := end - 1;
    }
  }

  /** utoa, ultoa and ulltoa: prints `n` at `start` and returns the position of the terminator. */
  method Uxtoa(buffer: array<char>, start: nat, n: nat, radix: int) returns (end: nat)
    requires Radix(radix) && start + |Digits(n, radix)| < buffer.Length
    modifies buffer
    ensures end == start + |Digits(n, radix)| && buffer[start..end] == Digits(n, radix) && buffer[end] == NUL
    ensures forall k :: 0 <= k < buffer.Length && !(start <= k <= end) ==> buffer[k] == old(buffer[k])
  {
    if n == 0 {
      buffer[start] := '0';
      buffer[start + 1] := NUL;
      return start + 1;
    }
    end := PrintDigits(buffer, start, n, radix);
  }

  /** The digits of a number other than zero, and their terminator. */
  method PrintDigits(buffer: array<char>, start: nat, n: int, radix: int) returns (end: nat)
    requires Radix(radix) && n != 0 && start + |Digits(n, radix)| < buffer.Length
    modifies buffer
    ensures end == start + |Digits(n, radix)| && buffer[start..end] == Digits(n, radix) && buffer[end] == NUL
    ensures forall k :: 0 <= k < buffer.Length && !(start <= k <= end) ==> buffer[k] == old(buffer[k])
  {
    hide Digits;
    end := EmitDigits(buffer, start, n, radix);
    buffer[end] := NUL;
    ghost var was := buffer[start..end];
    ReverseInPlace(buffer, start, end);
  }

  /** What the signed printer writes.  The smallest number has no negation, so its digits come out
      negative. */
  function Printed(n: int, h: int, radix: int): (s: seq<char>)
    requires Radix(radix) && h > 1 && -h <= n < h
  {
    if n < 0 then ['-'] + Digits(Wrap(-n, h), radix) else Digits(n, radix)
  }

  lemma Negated(n: int, h: int)
    requires h > 1 && -h <= n < 0
    ensures Wrap(-n, h) == if n == -h then -h else -n
  {
    if n == -h { Remainder(h + h, 2 * h, 1, 0); } else { Remainder(-n + h, 2 * h, 0, -n + h); }
  }

  /** itoa, ltoa and lltoa. */
  method Xtoa(buffer: array<char>, begin: nat, n: int, h: int, radix: int) returns (end: nat)
    requires Radix(radix) && h > 1 && -h <= n < h && begin + |Printed(n, h, radix)| < buffer.Length
    modifies buffer
    ensures end == begin + |Printed(n, h, radix)| && buffer[begin..end] == Printed(n, h, radix) && buffer[end] == NUL
    ensures forall k :: 0 <= k < buffer.Length && !(begin <= k <= end) ==> buffer[k] == old(buffer[k])
  {
    if n == 0 {
      buffer[begin] := '0';
      buffer[begin + 1] := NUL;
      return begin + 1;
    }
    hide Digits, Wrap;
    var start, m := begin, n;
    if n < 0 {
      buffer[start] := '-';
      start := start + 1;
      Negated(n, h);
      m := Wrap(-n, h);
    }
    end := PrintDigits(buffer, start, m, radix);
    assert n < 0 ==> buffer[begin..end] == ['-'] + buffer[start..end];
  }

  // ---------------------------------------------------------------- parsing

  /** A zero-terminated string begins at `p`. */
  ghost predicate CString(s: seq<char>, p: nat) { exists e :: p <= e < |s| && s[e] == NUL }

  function SkipSpace(s: seq<char>, p: nat): (q: nat)
    requires p <= |s|
    ensures p <= q <= |s| && (forall k :: p <= k < q ==> IsSpace(s[k])) && (q < |s| ==> !IsSpace(s[q]))
    decreases |s| - p
  {
    if p < |s| && IsSpace(s[p]) then SkipSpace(s, p + 1) else p
  }

  function DigitsEnd(s: seq<char>, p: nat, radix: int): (q: nat)
    requires p <= |s|
    ensures p <= q <= |s| && (forall k :: p <= k < q ==> IsDigit(s[k], radix)) && (q < |s| ==> !IsDigit(s[q], radix))
    decreases |s| - p
  {
    if p < |s| && IsDigit(s[p], radix) then DigitsEnd(s, p + 1, radix) else p
  }

  predicate HexPrefix(s: seq<char>, q: nat) {
    q + 1 < |s| && s[q] == '0' && (s[q + 1] == 'x' || s[q + 1] == 'X')
  }

  /** The radix that applies at `q` and where its digits begin. */
  function AfterPrefix(s: seq<char>, q: nat, radix: int): (r: (int, nat))
    requires q < |s|
    ensures q <= r.1 <= |s|
  {
    if (radix == 0 || radix == 16) && HexPrefix(s, q) then (16, q + 2)
    else if radix == 0 then (if s[q] == '0' then (8, q + 1) else (10, q))
    else (radix, q)
  }

  /** The radix prefix, as both parsers handle it. */
  method ReadPrefix(s: seq<char>, q: nat, radix: int) returns (r: int, p: nat)
    requires CString(s, q)
    ensures (r, p) == AfterPrefix(s, q, radix) && CString(s, p)
  {
    r, p := radix, q;
    if (r == 0 || r == 16) && s[p] == '0' && (s[p + 1] == 'x' || s[p + 1] == 'X') {
      r := 16;
      p := p + 2;
    } else if r == 0 {
      if s[p] == '0' {
        r := 8;
        p := p + 1;
      } else {
        r := 10;
      }
    }
  }

  lemma ModStep(a: int, r: int, n: int, m: int)
    requires m > 0
    ensures (a % m * r + n) % m == (a * r + n) % m
  {
    var k := a / m;
    assert a == m * k + a % m;
    assert a * r + n == a % m * r + n + m * (k * r);
    Congruent(a % m * r + n, k * r, m);
  }

  /** A character that is not the terminator leaves a string behind it. */
  lemma Onwards(s: seq<char>, p: nat)
    requires CString(s, p)
    ensures p < |s| && (s[p] != NUL ==> CString(s, p + 1)) && !IsSpace(NUL) && forall r :: !IsDigit(NUL, r)
  {
  }

  method SkipSpaces(s: seq<char>, start: nat) returns (p: nat)
    requires CString(s, start)
    ensures p == SkipSpace(s, start) && CString(s, p)
  {
    hide CString, IsSpace;
    p := start;
    Onwards(s, p);
    while IsSpace(s[p])
      invariant start <= p < |s| && CString(s, p) && SkipSpace(s, p) == SkipSpace(s, start)
      decreases |s| - p
    {
      Onwards(s, p);
      p := p + 1;
      Onwards(s, p);
    }
  }

  /** The digit loop of the unsigned parsers. */
  method ReadDigits(s: seq<char>, q: nat, r: int, m: int) returns (num: int, hasDigit: bool, p: nat)
    requires CString(s, q) && m > 0
    ensures p == DigitsEnd(s, q, r) + 1 && num == Value(s[q..p - 1], r) % m && hasDigit == (p - 1 > q)
  {
    hide CString, Value, Ctoi;
    num, hasDigit, p := 0, false, q;
    Onwards(s, p);
    NoDigits(s, q, r);
    while true
      invariant q <= p < |s| && CString(s, p) && DigitsEnd(s, p, r) == DigitsEnd(s, q, r)
      invariant num == Value(s[q..p], r) % m && hasDigit == (p > q)
      decreases |s| - p
    {
      var n := Ctoi(s[p]);
      p := p + 1;
      if n < 0 || n >= r {
        break;
      }
      hasDigit := true;
      MoreDigits(s, q, p - 1, r, m);
      num := (num * r + n) % m;
      Onwards(s, p - 1);
      Onwards(s, p);
    }
  }

  lemma NoDigits(s: seq<char>, q: nat, r: int)
    requires q <= |s|
    ensures Value(s[q..q], r) == 0
  {
  }

  lemma MoreDigits(s: seq<char>, q: nat, p: nat, r: int, m: int)
    requires q <= p < |s| && m > 0
    ensures Value(s[q..p + 1], r) % m == (Value(s[q..p], r) % m * r + Ctoi(s[p])) % m
  {
    hide Value, Ctoi;
    assert s[q..p + 1] == s[q..p] + [s[p]];
    ValueSnoc(s[q..p], s[p], r);
    ModStep(Value(s[q..p], r), r, Ctoi(s[p]), m);
  }

  lemma MoreSignedDigits(s: seq<char>, q: nat, p: nat, r: int, h: int)
    requires q <= p < |s| && h > 0
    ensures Wrap(Value(s[q..p + 1], r), h) == Wrap(Wrap(Value(s[q..p], r), h) * r + Ctoi(s[p]), h)
  {
    hide Value, Ctoi, Wrap;
    assert s[q..p + 1] == s[q..p] + [s[p]];
    ValueSnoc(s[q..p], s[p], r);
    WrapStep(Value(s[q..p], r), r, Ctoi(s[p]), h);
  }

  /** strtoui, strtoul and strtoull in a type of `m` values: the value of the longest run of digits after
      spaces and prefix, and where it ends; without a digit, the end is where the string began. */
  method Strtoux(s: seq<char>, start: nat, radix: int, m: int) returns (num: int, end: nat)
    requires CString(s, start) && m > 0
    ensures SkipSpace(s, start) < |s|
    ensures var (r, q) := AfterPrefix(s, SkipSpace(s, start), radix);
      var e := DigitsEnd(s, q, r);
      num == Value(s[q..e], r) % m && end == if e > q then e else start
  {
    hide Value, DigitsEnd, SkipSpace, AfterPrefix;
    var p := SkipSpaces(s, start);
    var r, q := ReadPrefix(s, p, radix);
    var hasDigit;
    num, hasDigit, p := ReadDigits(s, q, r, m);
    end := if hasDigit then p - 1 else start;
  }

  lemma WrapStep(a: int, r: int, n: int, h: int)
    requires h > 0
    ensures Wrap(Wrap(a, h) * r + n, h) == Wrap(a * r + n, h)
  {
    var k := (a + h) / (2 * h);
    assert a == Wrap(a, h) + 2 * h * k;
    assert a * r + n + h == Wrap(a, h) * r + n + h + 2 * h * (k * r);
    Congruent(Wrap(a, h) * r + n + h, k * r, 2 * h);
  }

  /** Where the sign leaves the parser. */
  function AfterSign(s: seq<char>, q: nat): (r: (bool, nat))
    requires q < |s|
    ensures q <= r.1 <= q + 1
  {
    if s[q] == '-' then (true, q + 1) else if s[q] == '+' then (false, q + 1) else (false, q)
  }

  /** The signed parser's reading: radix, sign, where the digits begin and where they end. */
  function Reading(s: seq<char>, start: nat, radix: int): (v: (int, bool, nat, nat))
    requires CString(s, start)
    ensures v.2 <= v.3 <= |s|
  {
    var q := SkipSpace(s, start);
    SkipStops(s, start);
    var (neg, q') := AfterSign(s, q);
    var (r, b) := AfterPrefix(s, q', radix);
    (r, neg, b, DigitsEnd(s, b, r))
  }

  lemma {:induction false} SkipStops(s: seq<char>, p: nat)
    requires CString(s, p)
    ensures CString(s, SkipSpace(s, p)) && AfterSign(s, SkipSpace(s, p)).1 < |s|
    ensures CString(s, AfterSign(s, SkipSpace(s, p)).1)
    decreases |s| - p
  {
    if IsSpace(s[p]) { SkipStops(s, p + 1); }
  }

  /** strtoi, strtol and strtoll in a signed type with `h` non-negative values. */
  method Strtox(s: seq<char>, start: nat, radix: int, h: int) returns (num: int, end: nat)
    requires CString(s, start) && h > 0
    ensures var (r, neg, b, e) := Reading(s, start, radix);
      var v := Wrap(Value(s[b..e], r), h);
      num == Wrap(if neg then -v else v, h) && end == if e > b then e else start
  {
    hide Value, DigitsEnd, SkipSpace, AfterPrefix, Wrap, CString;
    Onwards(s, start);
    SkipStops(s, start);
    var p := SkipSpaces(s, start);
    var sign := false;
    if s[p] == '-' {
      sign := true;
      p := p + 1;
    } else if s[p] == '+' {
      p := p + 1;
    }
    var r, q := ReadPrefix(s, p, radix);
    var hasDigit;
    num, hasDigit, p := ReadSignedDigits(s, q, r, h);
    end := if hasDigit then p - 1 else start;
    num := Wrap(if sign then -num else num, h);
  }

  /** The digit loop of the signed parsers. */
  method ReadSignedDigits(s: seq<char>, q: nat, r: int, h: int) returns (num: int, hasDigit: bool, p: nat)
    requires CString(s, q) && h > 0
    ensures p == DigitsEnd(s, q, r) + 1 && num == Wrap(Value(s[q..p - 1], r), h) && hasDigit == (p - 1 > q)
  {
    hide CString, Value, Ctoi, Wrap;
    num, hasDigit, p := 0, false, q;
    Onwards(s, p);
    NoDigits(s, q, r);
    WrapSmall(0, h);
    while true
      invariant q <= p < |s| && CString(s, p) && DigitsEnd(s, p, r) == DigitsEnd(s, q, r)
      invariant num == Wrap(Value(s[q..p], r), h) && hasDigit == (p > q)
      decreases |s| - p
    {
      var n := Ctoi(s[p]);
      p := p + 1;
      if n < 0 || n >= r {
        break;
      }
      hasDigit := true;
      MoreSignedDigits(s, q, p - 1, r, h);
      num := Wrap(num * r + n, h);
      Onwards(s, p - 1);
      Onwards(s, p);
    }
  }

  // ---------------------------------------------------------------- round trips

  /** A terminated string of digits is read to its end. */
  lemma {:induction false} DigitsEndAt(s: seq<char>, p: nat, e: nat, radix: int)
    requires p <= e < |s| && s[e] == NUL && forall k :: p <= k < e ==> IsDigit(s[k], radix)
    ensures DigitsEnd(s, p, radix) == e
    decreases e - p
  {
    if p < e { DigitsEndAt(s, p + 1, e, radix); }
  }

  /** The printed digits of `n` lie at `p`, terminated: they are read back as `n`, with no prefix. */
  lemma ReadsBack(s: seq<char>, p: nat, n: nat, radix: int)
    requires Radix(radix) && p + |Digits(n, radix)| < |s|
    requires s[p..p + |Digits(n, radix)|] == Digits(n, radix) && s[p + |Digits(n, radix)|] == NUL
    ensures var e := p + |Digits(n, radix)|;
      && CString(s, p) && !IsSpace(s[p]) && s[p] != '-' && s[p] != '+' && AfterPrefix(s, p, radix) == (radix, p)
      && DigitsEnd(s, p, radix) == e && Value(s[p..e], radix) == n
  {
    hide Value, DigitsEnd;
    var ds := Digits(n, radix);
    var e := p + |ds|;
    DigitsFine(n, radix);
    ValueDigits(n, radix);
    forall k | p <= k < e ensures s[k] == ds[k - p] { assert s[k] == s[p..e][k - p]; }
    DigitsEndAt(s, p, e, radix);
    if n > 0 { NoLeadingZero(n, radix); } else { assert |ds| == 1; }
  }

  /** Printing and parsing an unsigned number, in any radix, gives the number back, with the end at the
      terminator. */
  method UnsignedRoundTrip(buffer: array<char>, start: nat, n: nat, radix: int, m: int) returns (num: int, end: nat)
    requires Radix(radix) && n < m && start + |Digits(n, radix)| < buffer.Length
    modifies buffer
    ensures num == n && end == start + |Digits(n, radix)| && buffer[end] == NUL
  {
    hide Digits, Value, DigitsEnd, AfterPrefix, CString;
    var e := Uxtoa(buffer, start, n, radix);
    ReadsBack(buffer[..], start, n, radix);
    assert SkipSpace(buffer[..], start) == start;
    num, end := Strtoux(buffer[..], start, radix, m);
    Remainder(n, m, 0, n);
  }

  /** The characters of negative remainders are no digits. */
  lemma {:induction false} NegativeDigits(n: int, radix: int)
    requires Radix(radix) && n < 0
    ensures var c := Digits(n, radix)[0]; Ctoi(c) == -1 && c != '0'
    decreases -n
  {
    hide DivC, ModC, Ctoi;
    SmallDiv(n, radix);
    NegativeDiv(n, radix);
    ItocNegative(if Abs(n) < radix then n else -1);
    if Abs(n) >= radix { NegativeDigits(DivC(n, radix), radix); }
  }

  lemma NegativeDiv(n: int, radix: int)
    requires radix > 0 && n < 0
    ensures DivC(n, radix) <= 0
  {
    hide ModC;
    assert -n / radix >= 0;
  }

  lemma ItocNegative(i: int)
    requires -36 < i < 0
    ensures Ctoi(Itoc(i)) == -1 && Itoc(i) != '0'
  {
  }

  /** How the signed parser reads what the signed printer wrote. */
  lemma SignedReading(s: seq<char>, start: nat, n: int, h: int, radix: int)
    requires Radix(radix) && h > 1 && -h <= n < h && start + |Printed(n, h, radix)| < |s|
    requires var e := start + |Printed(n, h, radix)|; s[start..e] == Printed(n, h, radix) && s[e] == NUL
    ensures CString(s, start)
    ensures var (r, neg, b, e) := Reading(s, start, radix);
      && r == radix && neg == (n < 0) && b == start + (if n < 0 then 1 else 0)
      && (n == -h ==> e == b)
      && (n != -h ==> e == start + |Printed(n, h, radix)| && e > b && Value(s[b..e], r) == Abs(n))
  {
    hide Digits, Value, CString, Wrap, DigitsEnd, SkipSpace, AfterPrefix;
    var e := start + |Printed(n, h, radix)|;
    Terminated(s, start, e);
    if n < 0 {
      Negated(n, h);
      assert s[start] == s[start..e][0];
      assert s[start + 1..e] == s[start..e][1..] == Digits(Wrap(-n, h), radix);
      NoSpaces(s, start);
      if n == -h {
        assert s[start + 1] == s[start + 1..e][0];
        MinimumStops(s, start + 1, h, radix);
      } else {
        ReadsBack(s, start + 1, -n, radix);
      }
    } else {
      ReadsBack(s, start, n, radix);
      NoSpaces(s, start);
    }
  }

  lemma NoSpaces(s: seq<char>, p: nat)
    requires p < |s| && !IsSpace(s[p])
    ensures SkipSpace(s, p) == p
  {
  }

  /** The digits of the smallest number stop the parser at once. */
  lemma MinimumStops(s: seq<char>, p: nat, h: int, radix: int)
    requires Radix(radix) && h > 1 && p < |s| && s[p] == Digits(-h, radix)[0]
    ensures AfterPrefix(s, p, radix) == (radix, p) && DigitsEnd(s, p, radix) == p
  {
    hide Digits;
    NegativeDigits(-h, radix);
  }

  lemma Terminated(s: seq<char>, p: nat, e: nat)
    requires p <= e < |s| && s[e] == NUL
    ensures CString(s, p)
  {
  }

  /** Printing and parsing a signed number gives it back, with the end at the terminator, if and only if it
      is not the smallest of its type; that one is read as nothing. */
  method SignedRoundTrip(buffer: array<char>, start: nat, n: int, h: int, radix: int) returns (num: int, end: nat)
    requires Radix(radix) && h > 1 && -h <= n < h && start + |Printed(n, h, radix)| < buffer.Length
    modifies buffer
    ensures num == n && end == start + |Printed(n, h, radix)| && buffer[end] == NUL <==> n != -h
    ensures n == -h ==> num == 0 && end == start
  {
    hide Printed, Value, Reading, CString, Wrap;
    var e := Xtoa(buffer, start, n, h, radix);
    SignedReading(buffer[..], start, n, h, radix);
    num, end := Strtox(buffer[..], start, radix, h);
    ReadSigned(buffer[..], start, n, h, radix);
  }

  lemma ReadSigned(s: seq<char>, start: nat, n: int, h: int, radix: int)
    requires Radix(radix) && h > 1 && -h <= n < h && CString(s, start)
    requires var (r, neg, b, e) := Reading(s, start, radix);
      neg == (n < 0) && (n == -h ==> e == b) && (n != -h ==> Value(s[b..e], r) == Abs(n))
    ensures var (r, neg, b, e) := Reading(s, start, radix);
      var v := Wrap(Value(s[b..e], r), h);
      Wrap(if neg then -v else v, h) == if n == -h then 0 else n
  {
    hide Reading, Wrap;
    WrapSmall(0, h);
    if n != -h {
      WrapSmall(Abs(n), h);
      WrapSmall(n, h);
    }
  }
}
