/** The run-length codec: deflate writes runs of nearly equal bytes, read_byte and inflate read them. */
module RunLength {

  type Byte = x: int | 0 <= x < 256

  const EOF := -1

  // ---------------------------------------------------------------- what the codec is for

  /** The value that the run holding the last byte of `s` carries: a byte within 1 of it joins the run. */
  function Track(s: seq<Byte>): (t: Byte)
    requires s != []
    ensures -1 <= t - s[|s| - 1] <= 1
  {
    var last := s[|s| - 1];
    if |s| == 1 then last
    else
      var t := Track(s[..|s| - 1]);
      if -2 < t - last < 2 then t else last
  }

  /** The input with every byte replaced by the value of its run. */
  function Quantised(s: seq<Byte>): (q: seq<Byte>)
    ensures |q| == |s|
  {
    if s == [] then [] else Quantised(s[..|s| - 1]) + [Track(s)]
  }

  /** No byte is moved by more than 1. */
  lemma {:induction false} QuantisedClose(s: seq<Byte>, k: nat)
    requires k < |s|
    ensures var a: int, b: int := s[k], Quantised(s)[k]; -1 <= b - a <= 1
  {
    if k < |s| - 1 { QuantisedClose(s[..|s| - 1], k); }
  }

  /** A byte joins the run before it if and only if it is within 1 of the value of that run; otherwise it begins a run
      of its own value. */
  lemma {:induction false} QuantisedRuns(s: seq<Byte>, k: nat)
    requires k < |s|
    ensures var q: seq<int>, a: int := Quantised(s), s[k];
      q[k] == if k > 0 && -1 <= q[k - 1] - a <= 1 then q[k - 1] else a
  {
    var r := s[..|s| - 1];
    if k < |s| - 1 { QuantisedRuns(r, k); } else if k > 0 { assert Quantised(r)[k - 1] == Track(r); }
  }

  /** The length of the run in which `s` ends. */
  function LastRun(s: seq<Byte>): (n: nat)
    ensures n <= |s| && (n == 0 <==> s == [])
  {
    if |s| <= 1 then |s|
    else if Track(s) == Track(s[..|s| - 1]) then LastRun(s[..|s| - 1]) + 1
    else 1
  }

  lemma Snoc(s: seq<Byte>)
    requires s != []
    ensures var r := s[..|s| - 1];
      && Quantised(s) == Quantised(r) + [Track(s)]
      && LastRun(s) == if r != [] && Track(s) == Track(r) then LastRun(r) + 1 else 1
  {
  }

  /** The last run is the longest constant end of the quantised input. */
  lemma {:induction false} LastRunLongest(s: seq<Byte>)
    requires s != []
    ensures var q, n := Quantised(s), |s| - LastRun(s);
      q[n..] == Repeat(Track(s), LastRun(s)) && (n > 0 ==> q[n - 1] != Track(s))
  {
    hide Quantised, LastRun, Track;
    Snoc(s);
    var r := s[..|s| - 1];
    var p, n := Quantised(r), LastRun(s);
    if n > 1 {
      LastRunLongest(r);
      RunGrows(p, |r| - (n - 1), Track(s), n - 1);
    } else if r != [] {
      Snoc(r);
    }
  }

  /** A constant end gets one byte longer. */
  lemma RunGrows(p: seq<Byte>, n: nat, v: Byte, count: nat)
    requires n <= |p| && p[n..] == Repeat(v, count)
    ensures (p + [v])[n..] == Repeat(v, count + 1) && (n > 0 ==> (p + [v])[n - 1] == p[n - 1])
  {
    assert (p + [v])[n..] == p[n..] + [v];
  }

  function Repeat(v: Byte, n: nat): (r: seq<Byte>)
    ensures |r| == n && forall k :: 0 <= k < n ==> r[k] == v
  {
    seq(n, _ => v)
  }

  // ---------------------------------------------------------------- runs and their bytes

  datatype Run = Run(value: Byte, count: nat)

  /** No run is empty, and none could be joined to the next. */
  ghost predicate Maximal(rs: seq<Run>) {
    && (forall k :: 0 <= k < |rs| ==> rs[k].count > 0)
    && (forall k :: 0 <= k < |rs| - 1 ==> rs[k].value != rs[k + 1].value)
  }

  function Expand(rs: seq<Run>): seq<Byte> {
    if rs == [] then [] else Repeat(rs[0].value, rs[0].count) + Expand(rs[1..])
  }

  /** A count is written in base-255 style: a 255 for every full 255, then the rest. */
  function RunBytes(r: Run): seq<Byte> {
    Repeat(255, r.count / 255) + [r.count % 255, r.value]
  }

  function Stream(rs: seq<Run>): seq<Byte> {
    if rs == [] then [] else RunBytes(rs[0]) + Stream(rs[1..])
  }

  lemma {:induction false} ExpandSnoc(rs: seq<Run>, r: Run)
    ensures Expand(rs + [r]) == Expand(rs) + Repeat(r.value, r.count)
  {
    if rs == [] {
      assert rs + [r] == [r];
      assert Expand([r]) == Repeat(r.value, r.count) + Expand([]);
    } else {
      assert (rs + [r])[1..] == rs[1..] + [r];
      ExpandSnoc(rs[1..], r);
    }
  }

  lemma {:induction false} StreamSnoc(rs: seq<Run>, r: Run)
    ensures Stream(rs + [r]) == Stream(rs) + RunBytes(r)
  {
    if rs == [] {
      assert rs + [r] == [r];
      assert Stream([r]) == RunBytes(r) + Stream([]);
    } else {
      assert (rs + [r])[1..] == rs[1..] + [r];
      StreamSnoc(rs[1..], r);
    }
  }

  lemma ExpandCons(rs: seq<Run>)
    requires rs != []
    ensures Expand(rs) == Repeat(rs[0].value, rs[0].count) + Expand(rs[1..])
  {
  }

  /** Bytes can be cut into such runs in one way only. */
  lemma {:induction false} MaximalUnique(a: seq<Run>, b: seq<Run>)
    requires Maximal(a) && Maximal(b) && Expand(a) == Expand(b)
    ensures a == b
    decreases |a|
  {
    hide Expand;
    FirstRun(a);
    FirstRun(b);
    if a != [] && b != [] {
      var x, y, s := a[0], b[0], Expand(a);
      assert s[0] == x.value == y.value;
      assert s[x.count..] == Expand(a[1..]) && s[y.count..] == Expand(b[1..]);
      MaximalUnique(a[1..], b[1..]);
      assert a == [x] + a[1..] && b == [y] + b[1..];
    }
  }

  /** The first run, and what begins behind it. */
  lemma FirstRun(rs: seq<Run>)
    requires Maximal(rs)
    ensures rs == [] <==> Expand(rs) == []
    ensures rs != [] ==>
      var s, n := Expand(rs), rs[0].count;
      && Maximal(rs[1..]) && 0 < n <= |s| && (forall k :: 0 <= k < n ==> s[k] == rs[0].value)
      && s[n..] == Expand(rs[1..]) && (n < |s| ==> s[n] != rs[0].value)
  {
    if rs != [] {
      ExpandCons(rs);
      if |rs| > 1 {
        ExpandCons(rs[1..]);
        assert Expand(rs[1..])[0] == rs[1].value;
      }
    }
  }

  // ---------------------------------------------------------------- reading runs back

  /** Where the count that begins at `o` ends; past the end of the data if it is cut off. */
  function CountEnd(d: seq<Byte>, o: nat): (e: nat)
    ensures e > o
    decreases |d| - o
  {
    if o < |d| && d[o] == 255 then CountEnd(d, o + 1) else o + 1
  }

  function Count(d: seq<Byte>, o: nat): nat
    decreases |d| - o
  {
    if o >= |d| then 0 else d[o] + if d[o] == 255 then Count(d, o + 1) else 0
  }

  /** Everything that can be read from offset `o` on; a run that is cut off ends the stream. */
  function Decoded(d: seq<Byte>, o: nat): seq<Byte>
    decreases |d| - o
  {
    var e := CountEnd(d, o);
    if e < |d| then Repeat(d[e], Count(d, o)) + Decoded(d, e + 1) else []
  }

  /** From `o` on the data consists of complete runs, none of them empty. */
  ghost predicate Neat(d: seq<Byte>, o: nat)
    decreases |d| - o
  {
    o == |d| || (o < |d| && CountEnd(d, o) < |d| && Count(d, o) > 0 && Neat(d, CountEnd(d, o) + 1))
  }

  lemma {:induction false} CountReads(d: seq<Byte>, o: nat, k: nat, last: Byte)
    requires o + k < |d| && last != 255 && d[o + k] == last && forall j :: o <= j < o + k ==> d[j] == 255
    ensures CountEnd(d, o) == o + k + 1 && Count(d, o) == 255 * k + last
    decreases k
  {
    if k > 0 { CountReads(d, o + 1, k - 1, last); }
  }

  /** Reading back one run. */
  lemma RunReads(d: seq<Byte>, o: nat, r: Run, rest: seq<Byte>)
    requires o <= |d| && d[o..] == RunBytes(r) + rest
    ensures var e := CountEnd(d, o); o < e < |d| && Count(d, o) == r.count && d[e] == r.value && d[e + 1..] == rest
  {
    hide CountEnd, Count;
    var k, bs := r.count / 255, RunBytes(r);
    assert |bs| == k + 2 && bs[k] == r.count % 255 && bs[k + 1] == r.value;
    forall j | o <= j < o + k + 2 ensures d[j] == bs[j - o] { assert d[j] == d[o..][j - o]; }
    CountReads(d, o, k, r.count % 255);
    assert d[o + k + 2..] == d[o..][k + 2..] == rest;
  }

  /** Reading the bytes of some runs, from wherever they begin, gives those runs. */
  lemma {:induction false} StreamReads(d: seq<Byte>, o: nat, rs: seq<Run>)
    requires o <= |d| && d[o..] == Stream(rs)
    ensures Decoded(d, o) == Expand(rs)
    ensures (forall i :: 0 <= i < |rs| ==> rs[i].count > 0) ==> Neat(d, o)
    decreases |rs|
  {
    hide RunBytes, Repeat, CountEnd, Count, Decoded, Neat, Stream, Expand;
    if rs == [] {
      StreamEnds(d, o);
    } else {
      StreamCons(rs);
      RunReads(d, o, rs[0], Stream(rs[1..]));
      StreamReads(d, CountEnd(d, o) + 1, rs[1..]);
      DecodedRun(d, o);
    }
  }

  lemma StreamEnds(d: seq<Byte>, o: nat)
    requires o <= |d| && d[o..] == Stream([])
    ensures Decoded(d, o) == Expand([]) && Neat(d, o)
  {
  }

  lemma StreamCons(rs: seq<Run>)
    requires rs != []
    ensures Stream(rs) == RunBytes(rs[0]) + Stream(rs[1..])
    ensures Expand(rs) == Repeat(rs[0].value, rs[0].count) + Expand(rs[1..])
  {
  }

  lemma DecodedRun(d: seq<Byte>, o: nat)
    requires CountEnd(d, o) < |d|
    ensures var e := CountEnd(d, o);
      && Decoded(d, o) == Repeat(d[e], Count(d, o)) + Decoded(d, e + 1)
      && (Count(d, o) > 0 && Neat(d, e + 1) ==> Neat(d, o))
  {
  }

  // ---------------------------------------------------------------- deflate

  /** Appends one run. */
  method PutRun(out: seq<Byte>, lengthBytes: nat, length: nat, tracking: Byte) returns (out': seq<Byte>)
    requires length < 255
    ensures out' == out + RunBytes(Run(tracking, 255 * lengthBytes + length))
  {
    out' := out;
    var i := 0;
    while i < lengthBytes
      invariant i <= lengthBytes && out' == out + Repeat(255, i)
    {
      out' := out' + [255];
      i := i + 1;
    }
    out' := out' + [length];
    out' := out' + [tracking];
    assert (255 * lengthBytes + length) / 255 == lengthBytes;
  }

  /** The encoder.  Everything comes back quantised, and the stream is used up to its end, except that a
      last run whose length is a multiple of 255 is not written. */
  method Deflate(input: seq<Byte>) returns (out: seq<Byte>)
    ensures Decoded(out, 0) == Written(input) && Neat(out, 0)
    ensures exists rs: seq<Run> :: out == Stream(rs) && Expand(rs) == Written(input) && Maximal(rs)
  {
    hide Track, Quantised, LastRun, Stream, Expand, RunBytes, Neat, Decoded;
    var lengthBytes, length, tracking := 0, 0, EOF;
    out := [];
    ghost var rs: seq<Run> := [];
    var i := 0;
    Nothing();
    while i < |input|
      invariant i <= |input| && length < 255 && (tracking == EOF <==> i == 0)
      invariant i == 0 ==> length == 0 && lengthBytes == 0
      invariant i > 0 ==> tracking == Track(input[..i])
      invariant Open(input[..i], out, rs, 255 * lengthBytes + length)
    {
      var next: int := input[i];
      i := i + 1;
      Step(input, i - 1, out, rs, 255 * lengthBytes + length);
      if tracking == EOF {
        tracking := next;
        length := 1;
        lengthBytes := 0;
        continue;
      }
      var diff := tracking - next;
      diff := if diff < 1 then -diff else diff;
      if diff < 2 {
        next := tracking;
      }
      if tracking == next {
        length := length + 1;
        if length == 255 {
          lengthBytes := lengthBytes + 1;
          length := 0;
        }
        continue;
      }
      out := PutRun(out, lengthBytes, length, tracking);
      rs := rs + [Run(tracking, 255 * lengthBytes + length)];
      tracking := next;
      length := 1;
      lengthBytes := 0;
    }
    assert input[..i] == input;
    if length != 0 {
      RunClosed(input, out, rs, 255 * lengthBytes + length);
      out := PutRun(out, lengthBytes, length, tracking);
      rs := rs + [Run(tracking, 255 * lengthBytes + length)];
    }
    assert (255 * lengthBytes + length) % 255 == length;
    Finish(out, rs);
  }

  /** The output so far is `rs`, and the input `s` so far ends in an open run of `n` bytes. */
  ghost predicate Open(s: seq<Byte>, out: seq<Byte>, rs: seq<Run>, n: nat) {
    && n == LastRun(s) && out == Stream(rs) && Expand(rs) == Quantised(s)[..|s| - n]
    && Maximal(rs) && (rs != [] && s != [] ==> rs[|rs| - 1].value != Track(s))
  }

  lemma Nothing()
    ensures Open([], [], [], 0)
  {
  }

  lemma Finish(out: seq<Byte>, rs: seq<Run>)
    requires out == Stream(rs) && Maximal(rs)
    ensures Decoded(out, 0) == Expand(rs) && Neat(out, 0)
  {
    hide Stream, Expand, Decoded, Neat;
    assert out[0..] == out;
    StreamReads(out, 0, rs);
  }

  /** What one more byte does: it begins the first run, joins the open run, or closes it. */
  lemma Step(input: seq<Byte>, i: nat, out: seq<Byte>, rs: seq<Run>, n: nat)
    requires i < |input| && Open(input[..i], out, rs, n)
    ensures i == 0 ==> Track(input[..1]) == input[0] && Open(input[..1], out, rs, 1)
    ensures i > 0 ==>
      var t := Track(input[..i]);
      if -2 < t - input[i] < 2 then Track(input[..i + 1]) == t && Open(input[..i + 1], out, rs, n + 1)
      else Track(input[..i + 1]) == input[i] && Open(input[..i + 1], out + RunBytes(Run(t, n)), rs + [Run(t, n)], 1)
  {
    hide Stream, Expand, RunBytes, Quantised, LastRun, Maximal;
    var s, s' := input[..i], input[..i + 1];
    assert s'[..|s'| - 1] == s;
    Snoc(s');
    FirstRun(rs);
    if i > 0 {
      RunClosed(s, out, rs, n);
      MaximalSnoc(rs, Run(Track(s), n));
    } else {
      assert Quantised(s)[..0] == [];
      assert Quantised(s')[..0] == [];
    }
  }

  lemma MaximalSnoc(rs: seq<Run>, r: Run)
    requires Maximal(rs) && (rs != [] ==> rs[|rs| - 1].value != r.value)
    ensures r.count > 0 ==> Maximal(rs + [r])
  {
  }

  /** What deflate keeps of its input. */
  function Written(s: seq<Byte>): seq<Byte> {
    if LastRun(s) % 255 == 0 then Quantised(s)[..|s| - LastRun(s)] else Quantised(s)
  }

  /** Writing the open run completes the quantised input. */
  lemma RunClosed(s: seq<Byte>, out: seq<Byte>, rs: seq<Run>, n: nat)
    requires s != [] && Open(s, out, rs, n)
    ensures var r := Run(Track(s), n); Expand(rs + [r]) == Quantised(s) && Stream(rs + [r]) == out + RunBytes(r)
  {
    hide Quantised, Track, LastRun, RunBytes, Expand, Stream, Repeat;
    var t, q := Track(s), Quantised(s);
    ExpandSnoc(rs, Run(t, n));
    StreamSnoc(rs, Run(t, n));
    LastRunLongest(s);
    assert q == q[..|s| - n] + q[|s| - n..];
  }

  /** The whole quantised input is written exactly when the last run's length is no multiple of 255. */
  lemma WrittenIff(s: seq<Byte>)
    ensures Written(s) == Quantised(s) <==> s == [] || LastRun(s) % 255 != 0
  {
  }

  /** 255 equal bytes are lost altogether. */
  lemma LostRun(v: Byte)
    ensures Written(Repeat(v, 255)) == []
  {
    Constant(v, 255);
  }

  lemma {:induction false} Constant(v: Byte, n: nat)
    requires n > 0
    ensures Track(Repeat(v, n)) == v && LastRun(Repeat(v, n)) == n
    decreases n
  {
    assert n > 1 ==> Repeat(v, n)[..n - 1] == Repeat(v, n - 1);
    if n > 1 { Constant(v, n - 1); }
  }

  // ---------------------------------------------------------------- read_byte

  class Reader {
    const data: seq<Byte>
    var offset: nat
    var length: nat
    var value: Byte

    constructor (data: seq<Byte>)
      ensures this.data == data && offset == 0 && Remaining() == Decoded(data, 0)
    {
      this.data := data;
      offset, length, value := 0, 0, 0;
      new;
      assert Repeat(value, 0) + Decoded(data, 0) == Decoded(data, 0);
    }

    /** What the next calls will return. */
    ghost function Remaining(): seq<Byte>
      reads this
    {
      Repeat(value, length) + Decoded(data, offset)
    }

    /** Reads a count, which goes on as long as its bytes are 255.  Reading beyond the data fails. */
    method ReadCount() returns (ok: bool)
      modifies this`offset, this`length
      ensures ok <==> CountEnd(data, old(offset)) <= |data|
      ensures ok ==> offset == CountEnd(data, old(offset)) && length == Count(data, old(offset))
      ensures !ok ==> length == 0 && Decoded(data, offset) == [] && (old(offset) == |data| ==> offset == |data|)
    {
      length := 0;
      ghost var o := offset;
      var len := 255;
      while len == 255
        invariant o <= offset && (len != 255 ==> offset <= |data|)
        invariant len == 255 ==>
          CountEnd(data, o) == CountEnd(data, offset) && Count(data, o) == length + Count(data, offset)
        invariant len != 255 ==> offset == CountEnd(data, o) && length == Count(data, o)
        decreases len == 255, |data| - offset
      {
        if offset >= |data| {
          length := 0;
          return false;
        }
        len := data[offset];
        offset := offset + 1;
        length := length + len;
      }
      ok := true;
    }

    /** The next byte of the stream, if there is one; the rest stays to be read.  A well-formed stream is
        at its end when nothing is left. */
    method ReadByte() returns (ok: bool, b: Byte)
      modifies this`offset, this`length, this`value
      ensures ok <==> old(Remaining()) != []
      ensures ok ==> [b] + Remaining() == old(Remaining())
      ensures !ok ==> Remaining() == []
      ensures old(Neat(data, offset)) ==> Neat(data, offset) && (!ok ==> offset == |data|)
    {
      while length < 1
        invariant Remaining() == old(Remaining()) && (old(Neat(data, offset)) ==> Neat(data, offset))
        decreases if length < 1 && offset <= |data| then |data| + 1 - offset else 0
      {
        ghost var o := offset;
        if offset > |data| {
          return false, 0;
        }
        ok := ReadCount();
        if !ok {
          return false, 0;
        }
        if offset >= |data| {
          length := 0;
          return false, 0;
        }
        value := data[offset];
        offset := offset + 1;
      }
      ghost var was := Remaining();
      length := length - 1;
      assert was == [value] + Remaining();
      return true, value;
    }
  }

  /** Reading until nothing is left. */
  method ReadAll(data: seq<Byte>) returns (out: seq<Byte>)
    ensures out == Decoded(data, 0)
  {
    hide Decoded, CountEnd, Count, Neat;
    var r := new Reader(data);
    out := [];
    var ok, b := r.ReadByte();
    while ok
      invariant ok ==> out + [b] + r.Remaining() == Decoded(data, 0)
      invariant !ok ==> out == Decoded(data, 0)
      decreases ok, |r.Remaining()|
    {
      out := out + [b];
      ghost var was := r.Remaining();
      ok, b := r.ReadByte();
    }
  }

  /** The round trip: what deflate wrote reads back as the quantised input, or without its last run. */
  method RoundTrip(input: seq<Byte>) returns (back: seq<Byte>)
    ensures back == Written(input)
    ensures back == Quantised(input) <==> input == [] || LastRun(input) % 255 != 0
  {
    var out := Deflate(input);
    back := ReadAll(out);
    WrittenIff(input);
  }

  // ---------------------------------------------------------------- inflate

  /** inflate reads plain (length, value) pairs. */
  method Inflate(data: seq<Byte>) returns (ok: bool, out: seq<Byte>)
    ensures ok <==> |data| % 2 == 0
    ensures ok ==> exists rs: seq<Run> :: |rs| == |data| / 2 && Pairs(data, rs) && out == Expand(rs)
  {
    out := [];
    var pos := 0;
    ghost var rs: seq<Run> := [];
    while true
      invariant pos <= |data| && pos == 2 * |rs| && out == Expand(rs) && Pairs(data, rs)
      decreases |data| - pos
    {
      if pos >= |data| {
        break;
      }
      if pos + 1 >= |data| {
        return false, out;
      }
      var length, value := data[pos], data[pos + 1];
      pos := pos + 2;
      ghost var out0 := out;
      var i := 0;
      while i < length
        invariant 0 <= i <= length && out == out0 + Repeat(value, i)
      {
        out := out + [value];
        i := i + 1;
      }
      ExpandSnoc(rs, Run(value, length));
      rs := rs + [Run(value, length)];
    }
    ok := true;
  }

  /** The first bytes of `d` are the runs `rs`, each as its count and its value. */
  ghost predicate Pairs(d: seq<Byte>, rs: seq<Run>) {
    2 * |rs| <= |d| && forall i :: 0 <= i < |rs| ==> d[2 * i] == rs[i].count && d[2 * i + 1] == rs[i].value
  }

  lemma {:induction false} ShortStream(rs: seq<Run>)
    requires forall i :: 0 <= i < |rs| ==> rs[i].count < 255
    ensures |Stream(rs)| == 2 * |rs| && Pairs(Stream(rs), rs)
  {
    if rs != [] {
      ShortStream(rs[1..]);
      var tail := Stream(rs[1..]);
      assert Stream(rs) == [rs[0].count, rs[0].value] + tail;
      forall i | 0 <= i < |rs| ensures Stream(rs)[2 * i] == rs[i].count && Stream(rs)[2 * i + 1] == rs[i].value {
        if i > 0 { assert tail[2 * (i - 1)] == rs[1..][i - 1].count && tail[2 * (i - 1) + 1] == rs[1..][i - 1].value; }
      }
    }
  }

  lemma PairsAreStream(d: seq<Byte>, rs: seq<Run>)
    requires Pairs(d, rs) && |d| == 2 * |rs| && forall i :: 0 <= i < |rs| ==> d[2 * i] != 255
    ensures d == Stream(rs)
  {
    hide Stream;
    ShortStream(rs);
    forall j | 0 <= j < |d| ensures d[j] == Stream(rs)[j] {
      var i := j / 2;
      assert j == 2 * i || j == 2 * i + 1;
      assert d[2 * i] == rs[i].count && d[2 * i + 1] == rs[i].value;
    }
  }

  /** Where no count byte is 255, so that no run reaches 255, inflate and read_byte give the same bytes. */
  method InflateAgrees(data: seq<Byte>) returns (ok: bool, plain: seq<Byte>, back: seq<Byte>)
    requires |data| % 2 == 0 && forall i :: 0 <= i < |data| / 2 ==> data[2 * i] != 255
    ensures ok && plain == back == Decoded(data, 0)
  {
    ok, plain := Inflate(data);
    ghost var rs: seq<Run> :| |rs| == |data| / 2 && Pairs(data, rs) && plain == Expand(rs);
    PairsAreStream(data, rs);
    assert data[0..] == data;
    StreamReads(data, 0, rs);
    back := ReadAll(data);
  }

  /** A lone run of 255 to 509 bytes already separates the two: inflate rejects its three bytes. */
  lemma LongRunRejected(v: Byte, n: nat)
    requires 255 <= n < 510
    ensures |Stream([Run(v, n)])| % 2 == 1 && Decoded(Stream([Run(v, n)]), 0) == Repeat(v, n)
  {
    var rs := [Run(v, n)];
    assert Stream(rs) == RunBytes(rs[0]) + Stream(rs[1..]) && rs[1..] == [];
    assert Expand(rs) == Repeat(v, n) + Expand(rs[1..]);
    StreamReads(Stream(rs), 0, rs);
  }
}
