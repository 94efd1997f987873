/** The ways in which a number may be written for the parsers: spaces, sign, prefix, and letters of either case. */
module NumberForms {
  import opened Base
  import opened Numbers

  /** The characters that count as digits in some radix. */
  lemma DigitChars(c: char)
    ensures 0 <= Ctoi(c) <==> '0' <= c <= '9' || 'A' <= c <= 'Z' || 'a' <= c <= 'z'
  {
  }

  /** `b` is the letter or digit `a`, in either case. */
  predicate SameLetter(a: char, b: char) { b == a || ('a' <= a <= 'z' && b as int == a as int - 32) }

  /** `ds` writes `n` in this radix, with letters of either case. */
  ghost predicate Spells(ds: seq<char>, n: nat, radix: int)
    requires Radix(radix)
  {
    |ds| == |Digits(n, radix)| && forall k :: 0 <= k < |ds| ==> SameLetter(Digits(n, radix)[k], ds[k])
  }

  lemma {:induction false} ValueSame(a: seq<char>, b: seq<char>, radix: int)
    requires |a| == |b| && forall k :: 0 <= k < |a| ==> Ctoi(a[k]) == Ctoi(b[k])
    ensures Value(a, radix) == Value(b, radix)
  {
    if a != [] { ValueSame(a[..|a| - 1], b[..|b| - 1], radix); }
  }

  lemma LetterFacts(a: char, b: char, radix: int)
    requires SameLetter(a, b) && IsDigit(a, radix)
    ensures Ctoi(b) == Ctoi(a) && !IsSpace(b) && b != NUL && b != '-' && b != '+'
    ensures b == '0' ==> a == '0'
    ensures radix <= 16 ==> b != 'x' && b != 'X'
  {
  }

  lemma SpellsFacts(ds: seq<char>, n: nat, radix: int)
    requires Radix(radix) && Spells(ds, n, radix)
    ensures ds != [] && Value(ds, radix) == n
    ensures forall k :: 0 <= k < |ds| ==>
      IsDigit(ds[k], radix) && !IsSpace(ds[k]) && ds[k] != NUL && ds[k] != '-' && ds[k] != '+'
    ensures radix <= 16 ==> forall k :: 0 <= k < |ds| ==> ds[k] != 'x' && ds[k] != 'X'
    ensures n > 0 ==> ds[0] != '0'
    ensures ds[0] == '0' ==> |ds| == 1
  {
    hide Value, Ctoi, IsSpace;
    var os := Digits(n, radix);
    DigitsFine(n, radix);
    ValueDigits(n, radix);
    forall k | 0 <= k < |ds|
      ensures Ctoi(ds[k]) == Ctoi(os[k]) && !IsSpace(ds[k]) && ds[k] != NUL && ds[k] != '-' && ds[k] != '+'
      ensures radix <= 16 ==> ds[k] != 'x' && ds[k] != 'X'
    {
      LetterFacts(os[k], ds[k], radix);
    }
    ValueSame(ds, os, radix);
    if n > 0 {
      NoLeadingZero(n, radix);
      LetterFacts(os[0], ds[0], radix);
    }
  }

  /** In radix `radix` a number may be written in radix `r` after this prefix. */
  predicate Form(radix: int, prefix: seq<char>, r: int, n: nat) {
    || ((radix == 0 || radix == 16) && r == 16 && prefix in {"0x", "0X"})
    || (radix == 0 && r == 8 && prefix == "0")
    || (radix == 0 && r == 10 && prefix == "" && n > 0)
    || (2 <= radix <= 36 && r == radix && prefix == "")
  }

  ghost predicate Blank(ws: seq<char>) {
    forall k :: 0 <= k < |ws| ==> 9 <= ws[k] as int <= 13 || ws[k] == ' '
  }

  lemma {:induction false} SpacesSkipped(s: seq<char>, p: nat, q: nat)
    requires p <= q < |s| && !IsSpace(s[q]) && forall k :: p <= k < q ==> IsSpace(s[k])
    ensures SkipSpace(s, p) == q
    decreases q - p
  {
    if p < q { SpacesSkipped(s, p + 1, q); }
  }

  /** The prefix and the digits lie at `q`, terminated. */
  ghost predicate WrittenAt(s: seq<char>, q: nat, prefix: seq<char>, ds: seq<char>) {
    var b := q + |prefix|;
    b + |ds| < |s| && s[q..b] == prefix && s[b..b + |ds|] == ds && s[b + |ds|] == NUL
  }

  /** The prefix lies at `q`, and the first digit behind it. */
  lemma PrefixReads(s: seq<char>, q: nat, prefix: seq<char>, n: nat, radix: int, r: int)
    requires Form(radix, prefix, r, n) && q + |prefix| + 1 < |s| && s[q..q + |prefix|] == prefix
    requires var c := s[q + |prefix|];
      && !IsSpace(c) && c != '-' && c != '+' && (r <= 16 ==> c != 'x' && c != 'X')
      && (n > 0 ==> c != '0') && (c == '0' ==> s[q + |prefix| + 1] == NUL)
    ensures !IsSpace(s[q]) && s[q] != '-' && s[q] != '+' && AfterPrefix(s, q, radix) == (r, q + |prefix|)
  {
    hide IsSpace;
    NotSpace();
    forall k | q <= k < q + |prefix| ensures s[k] == prefix[k - q] { assert s[k] == s[q..q + |prefix|][k - q]; }
  }

  /** Prefix and digits are read as they are meant. */
  lemma FormReads(s: seq<char>, q: nat, prefix: seq<char>, ds: seq<char>, n: nat, radix: int, r: int)
    requires Form(radix, prefix, r, n) && Spells(ds, n, r) && WrittenAt(s, q, prefix, ds)
    ensures q < |s| && !IsSpace(s[q]) && s[q] != '-' && s[q] != '+' && CString(s, q)
    ensures AfterPrefix(s, q, radix) == (r, q + |prefix|)
    ensures DigitsEnd(s, q + |prefix|, r) == q + |prefix| + |ds| && Value(ds, r) == n && ds != []
  {
    hide Value, DigitsEnd, Ctoi, Spells, IsSpace, AfterPrefix, Form;
    var b, e := q + |prefix|, q + |prefix| + |ds|;
    FormRadix(radix, prefix, r, n);
    SpellsFacts(ds, n, r);
    forall k | b <= k < e ensures s[k] == ds[k - b] { assert s[k] == s[b..e][k - b]; }
    DigitsEndAt(s, b, e, r);
    PrefixReads(s, q, prefix, n, radix, r);
    Terminated(s, q, e);
  }

  lemma FormRadix(radix: int, prefix: seq<char>, r: int, n: nat)
    requires Form(radix, prefix, r, n)
    ensures Radix(r)
  {
  }

  lemma NotSpace()
    ensures !IsSpace('0')
  {
  }

  /** strtoux reads every form of a number, to its end. */
  method ReadsForm(ws: seq<char>, prefix: seq<char>, ds: seq<char>, n: nat, radix: int, r: int, m: int)
    returns (num: int, end: nat)
    requires Blank(ws) && Form(radix, prefix, r, n) && Spells(ds, n, r) && n < m
    ensures num == n && end == |ws| + |prefix| + |ds|
  {
    hide Value, DigitsEnd, SkipSpace, AfterPrefix, Spells, CString, Form, IsSpace;
    var s := ws + prefix + ds + [NUL];
    Laid(s, ws, prefix, ds);
    FormReads(s, |ws|, prefix, ds, n, radix, r);
    BlankSpaces(s, ws);
    SpacesSkipped(s, 0, |ws|);
    Terminated(s, 0, |s| - 1);
    num, end := Strtoux(s, 0, radix, m);
    Remainder(n, m, 0, n);
    assert s[|ws| + |prefix|..|ws| + |prefix| + |ds|] == ds;
  }

  lemma BlankSpaces(s: seq<char>, ws: seq<char>)
    requires Blank(ws) && ws <= s
    ensures forall k :: 0 <= k < |ws| ==> IsSpace(s[k])
  {
  }

  lemma SignedForm(s: seq<char>, p: nat, sign: seq<char>, prefix: seq<char>, ds: seq<char>, n: nat, radix: int, r: int)
    requires Form(radix, prefix, r, n) && Spells(ds, n, r) && sign in {"", "+", "-"}
    requires p + |sign| < |s| && s[p..p + |sign|] == sign && (forall k :: 0 <= k < p ==> IsSpace(s[k]))
    requires WrittenAt(s, p + |sign|, prefix, ds)
    ensures var b := p + |sign| + |prefix|;
      && CString(s, 0) && Reading(s, 0, radix) == (r, sign == "-", b, b + |ds|)
      && b + |ds| < |s| && s[b..b + |ds|] == ds && Value(ds, r) == n && ds != []
  {
    hide Value, DigitsEnd, SkipSpace, AfterPrefix, Spells, Form, IsSpace, AfterSign;
    FormReads(s, p + |sign|, prefix, ds, n, radix, r);
    SignFacts(s, p, sign);
    SpacesSkipped(s, 0, p);
    Terminated(s, 0, p + |sign| + |prefix| + |ds|);
  }

  lemma Laid(s: seq<char>, head: seq<char>, prefix: seq<char>, ds: seq<char>)
    requires s == head + prefix + ds + [NUL]
    ensures WrittenAt(s, |head|, prefix, ds)
  {
  }

  lemma SignFacts(s: seq<char>, p: nat, sign: seq<char>)
    requires sign in {"", "+", "-"} && p + |sign| < |s| && s[p..p + |sign|] == sign
    requires var c := s[p + |sign|]; !IsSpace(c) && c != '-' && c != '+'
    ensures !IsSpace(s[p]) && AfterSign(s, p) == (sign == "-", p + |sign|)
  {
    hide IsSpace;
    SignIsNoSpace();
    if sign != "" { assert s[p] == s[p..p + |sign|][0]; }
  }

  /** strtox reads every form of a number behind every sign. */
  method ReadsSignedForm(ws: seq<char>, sign: seq<char>, prefix: seq<char>, ds: seq<char>, n: nat, radix: int, r: int,
                         h: int)
    returns (num: int, end: nat)
    requires Blank(ws) && Form(radix, prefix, r, n) && Spells(ds, n, r) && n < h && sign in {"", "+", "-"}
    ensures num == (if sign == "-" then 0 - n else n as int) && end == |ws| + |sign| + |prefix| + |ds|
  {
    hide Value, Spells, CString, Form, Wrap, Reading, Blank, WrittenAt, IsSpace;
    var s := ws + sign + prefix + ds + [NUL];
    Laid(s, ws + sign, prefix, ds);
    BlankSpaces(s, ws);
    assert s[|ws|..|ws| + |sign|] == sign;
    SignedForm(s, |ws|, sign, prefix, ds, n, radix, r);
    num, end := Strtox(s, 0, radix, h);
    WrapSmall(n, h);
    WrapSmall(0 - n, h);
  }

  lemma SignIsNoSpace()
    ensures !IsSpace('-') && !IsSpace('+')
  {
  }

  /** With radix 0 a lone zero is taken for an octal prefix without digits: the number is 0, but the end is where the
      string began. */
  method LoneZero(m: int) returns (num: int, end: nat)
    requires m > 0
    ensures num == 0 && end == 0
  {
    hide SkipSpace;
    var s := ['0', NUL];
    NotSpace();
    SpacesSkipped(s, 0, 0);
    Terminated(s, 0, 1);
    num, end := Strtoux(s, 0, 0, m);
    assert s[1..1] == [];
  }

  /** "0755" is 493 and "FF" is 255. */
  lemma Spellings()
    ensures Form(0, "0", 8, 493) && Spells("755", 493, 8)
    ensures Form(16, "", 16, 255) && Spells("FF", 255, 16)
  {
    assert Digits(7, 8) == "7" && Digits(61, 8) == Digits(7, 8) + "5" && Digits(493, 8) == Digits(61, 8) + "5";
    assert Digits(15, 16) == "f" && Digits(255, 16) == Digits(15, 16) + "f";
  }
}
