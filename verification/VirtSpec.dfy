/** The virtual address space as a row of intervals, and as the set of its free addresses. */
module VirtSpec {
  import opened Base

  const LIMIT := 0x1_0000_0000_0000

  datatype Interval = Interval(start: nat, end: nat, taken: bool)

  /** `v` tiles [lo, hi) without gap, overlap or empty piece, and no two neighbours are both free. */
  ghost predicate Row(v: seq<Interval>, lo: nat, hi: nat) {
    && |v| > 0 && v[0].start == lo && v[|v| - 1].end == hi
    && (forall i :: 0 <= i < |v| ==> v[i].start < v[i].end)
    && (forall i :: 0 <= i < |v| - 1 ==> v[i].end == v[i + 1].start)
    && (forall i :: 0 <= i < |v| - 1 ==> v[i].taken || v[i + 1].taken)
  }

  /** The whole 48-bit space; its first interval, which virtaddr_init reserves, is taken. */
  ghost predicate Tiles(v: seq<Interval>) {
    Row(v, 0, LIMIT) && v[0].taken
  }

  ghost predicate FreeAt(v: seq<Interval>, a: nat) {
    exists i :: 0 <= i < |v| && v[i].start <= a < v[i].end && !v[i].taken
  }

  ghost predicate AllFree(v: seq<Interval>, lo: nat, len: nat) {
    forall a :: lo <= a < lo + len ==> FreeAt(v, a)
  }

  lemma RowJoin(a: seq<Interval>, b: seq<Interval>, lo: nat, mid: nat, hi: nat)
    requires Row(a, lo, mid) && Row(b, mid, hi) && (a[|a| - 1].taken || b[0].taken)
    ensures Row(a + b, lo, hi)
  {
  }

  lemma RowSplit(v: seq<Interval>, lo: nat, hi: nat, i: nat)
    requires Row(v, lo, hi) && i < |v|
    ensures i > 0 ==> Row(v[..i], lo, v[i].start)
    ensures Row(v[i..], v[i].start, hi)
  {
  }

  /** Replacing the intervals from `i` up to `j` by a row over the same addresses. */
  lemma RowReplace(v: seq<Interval>, lo: nat, hi: nat, i: nat, j: nat, w: seq<Interval>)
    requires Row(v, lo, hi) && i < j <= |v| && Row(w, v[i].start, v[j - 1].end)
    requires i > 0 ==> v[i - 1].taken || w[0].taken
    requires j < |v| ==> w[|w| - 1].taken || v[j].taken
    ensures Row(v[..i] + w + v[j..], lo, hi)
  {
    hide Row;
    RowEdges(v, lo, hi, i, j);
    if j < |v| {
      RowSplit(v, lo, hi, j);
      RowEnds(w, v[i].start, v[j].start);
      RowJoin(w, v[j..], v[i].start, v[j].start, hi);
    } else {
      assert w + v[j..] == w;
    }
    assert v[..i] + w + v[j..] == v[..i] + (w + v[j..]);
    if i > 0 {
      RowSplit(v, lo, hi, i);
      RowJoin(v[..i], w + v[j..], lo, v[i].start, hi);
    } else {
      assert v[..i] + (w + v[j..]) == w + v[j..];
    }
  }

  lemma RowEdges(v: seq<Interval>, lo: nat, hi: nat, i: nat, j: nat)
    requires Row(v, lo, hi) && i < j <= |v|
    ensures i == 0 ==> v[i].start == lo
    ensures v[j - 1].end == if j < |v| then v[j].start else hi
  {
  }

  lemma RowEnds(w: seq<Interval>, lo: nat, hi: nat)
    requires Row(w, lo, hi)
    ensures |w| > 0 && w[0].start == lo && w[|w| - 1].end == hi
  {
  }

  // ---------------------------------------------------------------- order

  lemma {:induction false} Ascending(v: seq<Interval>, i: nat, j: nat)
    requires Tiles(v) && i < j < |v|
    ensures v[i].end <= v[j].start
    decreases j - i
  {
    if i + 1 < j { Ascending(v, i, j - 1); }
  }

  /** Every address lies in some interval, and in one only. */
  lemma {:induction false} Covers(v: seq<Interval>, a: nat, n: nat) returns (i: nat)
    requires Tiles(v) && n < |v| && a < v[n].end
    ensures i <= n && v[i].start <= a < v[i].end
  {
    if v[n].start <= a { i := n; } else { i := Covers(v, a, n - 1); }
  }

  lemma OneInterval(v: seq<Interval>, i: nat, j: nat, a: nat)
    requires Tiles(v) && i < |v| && j < |v| && v[i].start <= a < v[i].end && v[j].start <= a < v[j].end
    ensures i == j
  {
    if i < j { Ascending(v, i, j); }
    if j < i { Ascending(v, j, i); }
  }

  lemma FreeMeans(v: seq<Interval>, i: nat, a: nat)
    requires Tiles(v) && i < |v| && v[i].start <= a < v[i].end
    ensures FreeAt(v, a) <==> !v[i].taken
  {
    forall j | 0 <= j < |v| && v[j].start <= a < v[j].end ensures j == i { OneInterval(v, i, j, a); }
  }

  /** A free stretch lies inside one interval, because free neighbours are always merged. */
  lemma {:induction false} OneStretch(v: seq<Interval>, lo: nat, len: nat) returns (i: nat)
    requires Tiles(v) && len > 0 && AllFree(v, lo, len)
    ensures i < |v| && !v[i].taken && v[i].start <= lo && lo + len <= v[i].end
  {
    assert FreeAt(v, lo);
    i :| 0 <= i < |v| && v[i].start <= lo < v[i].end && !v[i].taken;
    if v[i].end < lo + len {
      assert FreeAt(v, v[i].end);
      var j :| 0 <= j < |v| && v[j].start <= v[i].end < v[j].end && !v[j].taken;
      if j < i { Ascending(v, j, i); }
      assert i + 1 < |v|;
      OneInterval(v, i + 1, j, v[i].end);
      assert false;
    }
  }

  // ---------------------------------------------------------------- searching

  predicate Fits(x: Interval, len: nat) { !x.taken && x.end - x.start >= len }
  predicate Holds(x: Interval, virt: nat, len: nat) { !x.taken && x.start <= virt && virt + len <= x.end }

  function FirstFit(v: seq<Interval>, len: nat): (i: nat)
    ensures i <= |v| && (i < |v| ==> Fits(v[i], len))
    ensures forall j :: 0 <= j < i ==> !Fits(v[j], len)
  {
    if v == [] || Fits(v[0], len) then 0 else 1 + FirstFit(v[1..], len)
  }

  function FirstHolding(v: seq<Interval>, virt: nat, len: nat): (i: nat)
    ensures i <= |v| && (i < |v| ==> Holds(v[i], virt, len))
    ensures forall j :: 0 <= j < i ==> !Holds(v[j], virt, len)
  {
    if v == [] || Holds(v[0], virt, len) then 0 else 1 + FirstHolding(v[1..], virt, len)
  }

  function FirstStarting(v: seq<Interval>, virt: nat): (i: nat)
    ensures i <= |v| && (i < |v| ==> v[i].start == virt)
    ensures forall j :: 0 <= j < i ==> v[j].start != virt
  {
    if v == [] || v[0].start == virt then 0 else 1 + FirstStarting(v[1..], virt)
  }

  /** virtaddr_alloc finds the lowest address where `len` free bytes fit, or none if there is none. */
  lemma AllocLowest(v: seq<Interval>, len: nat)
    requires Tiles(v) && len > 0
    ensures var i := FirstFit(v, len);
      && (i < |v| ==> AllFree(v, v[i].start, len))
      && (i < |v| ==> forall lo: nat :: lo < v[i].start ==> !AllFree(v, lo, len))
      && (i == |v| ==> forall lo: nat :: !AllFree(v, lo, len))
  {
    var i := FirstFit(v, len);
    if i < |v| {
      forall a | v[i].start <= a < v[i].start + len ensures FreeAt(v, a) { FreeMeans(v, i, a); }
    }
    forall lo: nat | AllFree(v, lo, len) ensures i < |v| && v[i].start <= lo {
      var j := OneStretch(v, lo, len);
      assert Fits(v[j], len);
      if i < j { Ascending(v, i, j); }
    }
  }

  /** virtaddr_take finds a place exactly when every address of the range is free. */
  lemma TakeIffFree(v: seq<Interval>, virt: nat, len: nat)
    requires Tiles(v) && len > 0
    ensures FirstHolding(v, virt, len) < |v| <==> AllFree(v, virt, len)
  {
    var i := FirstHolding(v, virt, len);
    if i < |v| {
      forall a | virt <= a < virt + len ensures FreeAt(v, a) { FreeMeans(v, i, a); }
    }
    if AllFree(v, virt, len) {
      var j := OneStretch(v, virt, len);
      assert Holds(v[j], virt, len);
    }
  }

  // ---------------------------------------------------------------- taking

  function Left(x: Interval, virt: nat): seq<Interval> {
    if x.start < virt then [Interval(x.start, virt, false)] else []
  }

  function Right(x: Interval, hi: nat): seq<Interval> {
    if hi < x.end then [Interval(hi, x.end, false)] else []
  }

  /** What a free interval becomes when [virt, virt + len) is cut out of it. */
  function Pieces(x: Interval, virt: nat, len: nat): seq<Interval> {
    Left(x, virt) + [Interval(virt, virt + len, true)] + Right(x, virt + len)
  }

  /** The row after [virt, virt + len) has been cut out of the free interval `i`. */
  function Taken(v: seq<Interval>, i: nat, virt: nat, len: nat): seq<Interval>
    requires i < |v|
  {
    v[..i] + Pieces(v[i], virt, len) + v[i + 1..]
  }

  lemma TakeTiles(v: seq<Interval>, i: nat, virt: nat, len: nat)
    requires Tiles(v) && i < |v| && Holds(v[i], virt, len) && len > 0
    ensures Tiles(Taken(v, i, virt, len)) && i > 0
  {
    assert Row(Pieces(v[i], virt, len), v[i].start, v[i].end);
    assert v[i - 1].taken && (i + 1 < |v| ==> v[i + 1].taken);
    hide Row;
    RowReplace(v, 0, LIMIT, i, i + 1, Pieces(v[i], virt, len));
  }

  lemma FreeConcat(a: seq<Interval>, b: seq<Interval>, x: nat)
    ensures FreeAt(a + b, x) <==> FreeAt(a, x) || FreeAt(b, x)
  {
    var c := a + b;
    if FreeAt(a, x) {
      var i :| 0 <= i < |a| && a[i].start <= x < a[i].end && !a[i].taken;
      assert c[i] == a[i];
    }
    if FreeAt(b, x) {
      var i :| 0 <= i < |b| && b[i].start <= x < b[i].end && !b[i].taken;
      assert c[|a| + i] == b[i];
    }
  }

  lemma {:induction false} RowRange(v: seq<Interval>, lo: nat, hi: nat, i: nat)
    requires Row(v, lo, hi) && i < |v|
    ensures lo <= v[i].start && v[i].end <= hi
    decreases |v|
  {
    if |v| > 1 {
      RowSplit(v, lo, hi, 1);
      if i > 0 { RowRange(v[1..], v[1].start, hi, i - 1); } else { RowRange(v[1..], v[1].start, hi, 0); }
    }
  }

  lemma RowFreeRange(v: seq<Interval>, lo: nat, hi: nat, a: nat)
    requires Row(v, lo, hi) && FreeAt(v, a)
    ensures lo <= a < hi
  {
    var i :| 0 <= i < |v| && v[i].start <= a < v[i].end && !v[i].taken;
    RowRange(v, lo, hi, i);
  }

  lemma FreeConcat3(x: seq<Interval>, y: seq<Interval>, z: seq<Interval>, a: nat)
    ensures FreeAt(x + y + z, a) <==> FreeAt(x, a) || FreeAt(y, a) || FreeAt(z, a)
  {
    hide FreeAt;
    FreeConcat(x + y, z, a);
    FreeConcat(x, y, a);
  }

  /** Free addresses before interval `i` and from interval `j` on lie where they should. */
  lemma EdgeFrees(v: seq<Interval>, lo: nat, hi: nat, i: nat, j: nat, a: nat)
    requires Row(v, lo, hi) && i < j <= |v|
    ensures FreeAt(v[..i], a) ==> a < v[i].start
    ensures FreeAt(v[j..], a) ==> a >= v[j - 1].end
  {
    RowEdges(v, lo, hi, i, j);
    if i > 0 && FreeAt(v[..i], a) { RowSplit(v, lo, hi, i); RowFreeRange(v[..i], lo, v[i].start, a); }
    if j < |v| && FreeAt(v[j..], a) { RowSplit(v, lo, hi, j); RowFreeRange(v[j..], v[j].start, hi, a); }
  }

  /** Free addresses of a row in which the intervals from `i` up to `j` are replaced by `w`. */
  lemma ReplaceFrees(v: seq<Interval>, lo: nat, hi: nat, i: nat, j: nat, w: seq<Interval>, a: nat)
    requires Row(v, lo, hi) && i < j <= |v| && Row(w, v[i].start, v[j - 1].end)
    ensures FreeAt(v[..i] + w + v[j..], a) <==> if v[i].start <= a < v[j - 1].end then FreeAt(w, a) else FreeAt(v, a)
  {
    hide Row, FreeAt;
    var m := v[i..j];
    assert v == v[..i] + m + v[j..];
    FreeConcat3(v[..i], w, v[j..], a);
    FreeConcat3(v[..i], m, v[j..], a);
    Middle(v, lo, hi, i, j);
    EdgeFrees(v, lo, hi, i, j, a);
    if FreeAt(w, a) { RowFreeRange(w, v[i].start, v[j - 1].end, a); }
    if FreeAt(m, a) { RowFreeRange(m, v[i].start, v[j - 1].end, a); }
  }

  lemma Middle(v: seq<Interval>, lo: nat, hi: nat, i: nat, j: nat)
    requires Row(v, lo, hi) && i < j <= |v|
    ensures Row(v[i..j], v[i].start, v[j - 1].end)
  {
  }

  lemma PiecesFree(x: Interval, virt: nat, len: nat, a: nat)
    requires Holds(x, virt, len) && len > 0 && x.start <= a < x.end
    ensures Row(Pieces(x, virt, len), x.start, x.end)
    ensures FreeAt(Pieces(x, virt, len), a) <==> !(virt <= a < virt + len)
  {
    var w := Pieces(x, virt, len);
    var l := |Left(x, virt)|;
    assert w[l] == Interval(virt, virt + len, true);
    if a < virt {
      assert w[0] == Interval(x.start, virt, false);
    } else if a >= virt + len {
      assert w[l + 1] == Interval(virt + len, x.end, false);
    }
  }

  /** Taking a range makes exactly its addresses unavailable. */
  lemma TakeFrees(v: seq<Interval>, i: nat, virt: nat, len: nat, a: nat)
    requires Tiles(v) && i < |v| && Holds(v[i], virt, len) && len > 0
    ensures FreeAt(Taken(v, i, virt, len), a) <==> FreeAt(v, a) && !(virt <= a < virt + len)
  {
    if v[i].start <= a < v[i].end { FreeMeans(v, i, a); }
    PiecesFree(v[i], virt, len, if v[i].start <= a < v[i].end then a else v[i].start);
    hide Row, FreeAt;
    ReplaceFrees(v, 0, LIMIT, i, i + 1, Pieces(v[i], virt, len), a);
  }

  // ---------------------------------------------------------------- freeing

  /** Where the run of free intervals just before `i` begins. */
  function RunStart(v: seq<Interval>, i: nat): (j: nat)
    requires i < |v|
    ensures j <= i && (j > 0 ==> v[j - 1].taken)
    ensures forall m :: j <= m < i ==> !v[m].taken
  {
    if i == 0 || v[i - 1].taken then i else RunStart(v, i - 1)
  }

  /** Where the run of free intervals just after `i` ends. */
  function RunEnd(v: seq<Interval>, i: nat): (k: nat)
    requires i < |v|
    ensures i < k <= |v| && (k < |v| ==> v[k].taken)
    ensures forall m :: i < m < k ==> !v[m].taken
    decreases |v| - i
  {
    if i + 1 == |v| || v[i + 1].taken then i + 1 else RunEnd(v, i + 1)
  }

  /** The row after interval `i` has been freed and merged with its free neighbours. */
  function Freed(v: seq<Interval>, i: nat): seq<Interval>
    requires i < |v|
  {
    var j := RunStart(v, i);
    var k := RunEnd(v, i);
    v[..j] + [Interval(v[j].start, v[k - 1].end, false)] + v[k..]
  }

  lemma FreeTiles(v: seq<Interval>, i: nat)
    requires Tiles(v) && 0 < i < |v|
    ensures Tiles(Freed(v, i))
  {
    var j := RunStart(v, i);
    var k := RunEnd(v, i);
    var w := [Interval(v[j].start, v[k - 1].end, false)];
    assert j > 0;
    if j < k - 1 { Ascending(v, j, k - 1); }
    assert Row(w, v[j].start, v[k - 1].end);
    hide Row;
    RowReplace(v, 0, LIMIT, j, k, w);
  }

  lemma RunBounds(v: seq<Interval>, i: nat)
    requires Tiles(v) && i < |v|
    ensures var j := RunStart(v, i); var k := RunEnd(v, i);
      && v[j].start <= v[i].start && v[i].end <= v[k - 1].end
      && Row([Interval(v[j].start, v[k - 1].end, false)], v[j].start, v[k - 1].end)
  {
    var j := RunStart(v, i);
    var k := RunEnd(v, i);
    if j < i { Ascending(v, j, i); }
    if i < k - 1 { Ascending(v, i, k - 1); }
  }

  /** Inside the run around `i`, all but interval `i` itself was free before. */
  lemma RunFrees(v: seq<Interval>, i: nat, a: nat)
    requires Tiles(v) && i < |v| && v[RunStart(v, i)].start <= a < v[RunEnd(v, i) - 1].end
    ensures FreeAt(v, a) || v[i].start <= a < v[i].end
  {
    var j := RunStart(v, i);
    var m := Covers(v, a, RunEnd(v, i) - 1);
    if m < j { Ascending(v, m, j); }
    FreeMeans(v, m, a);
  }

  /** Freeing makes exactly the addresses of that interval available. */
  lemma FreeFrees(v: seq<Interval>, i: nat, a: nat)
    requires Tiles(v) && 0 < i < |v|
    ensures FreeAt(Freed(v, i), a) <==> FreeAt(v, a) || v[i].start <= a < v[i].end
  {
    var j := RunStart(v, i);
    var k := RunEnd(v, i);
    var w := [Interval(v[j].start, v[k - 1].end, false)];
    RunBounds(v, i);
    if v[j].start <= a < v[k - 1].end {
      RunFrees(v, i, a);
      assert w[0].start <= a < w[0].end && !w[0].taken;
      assert FreeAt(w, a);
    }
    hide Row, FreeAt;
    ReplaceFrees(v, 0, LIMIT, j, k, w, a);
  }

  // ---------------------------------------------------------------- round trips

  /** A range that was taken starts exactly one interval. */
  lemma TakenAt(v: seq<Interval>, i: nat, virt: nat, len: nat)
    requires Tiles(v) && i < |v| && Holds(v[i], virt, len) && len > 0
    ensures var n := i + |Left(v[i], virt)|;
      && FirstStarting(Taken(v, i, virt, len), virt) == n
      && n < |Taken(v, i, virt, len)| && Taken(v, i, virt, len)[n] == Interval(virt, virt + len, true)
  {
    var w := Taken(v, i, virt, len);
    var n := i + |Left(v[i], virt)|;
    TakeTiles(v, i, virt, len);
    assert w[n] == Interval(virt, virt + len, true);
    var m := FirstStarting(w, virt);
    if m < n { Ascending(w, m, n); }
  }

  lemma TakenRun(v: seq<Interval>, i: nat, virt: nat, len: nat)
    requires Tiles(v) && i < |v| && Holds(v[i], virt, len) && len > 0
    ensures var n := i + |Left(v[i], virt)|;
      var w := Taken(v, i, virt, len);
      && n < |w| && RunStart(w, n) == i && RunEnd(w, n) == i + |Pieces(v[i], virt, len)|
      && w[..i] == v[..i] && w[i + |Pieces(v[i], virt, len)|..] == v[i + 1..]
      && w[i].start == v[i].start && w[i + |Pieces(v[i], virt, len)| - 1].end == v[i].end
  {
    hide Tiles, Row, RunStart, RunEnd, Left, Pieces;
    var w, ps := Taken(v, i, virt, len), Pieces(v[i], virt, len);
    TakeTiles(v, i, virt, len);
    Neighbours(v, i);
    PiecesShape(v[i], virt, len);
    forall m | i <= m < i + |ps| ensures w[m] == ps[m - i] {}
    assert w[i - 1] == v[i - 1] && (i + 1 < |v| ==> w[i + |ps|] == v[i + 1]);
    RunIs(w, i, i + |Left(v[i], virt)|, i + |ps|);
  }

  /** The neighbours of a free interval are taken. */
  lemma Neighbours(v: seq<Interval>, i: nat)
    requires Tiles(v) && 0 < i < |v| && !v[i].taken
    ensures v[i - 1].taken && (i + 1 < |v| ==> v[i + 1].taken)
  {
  }

  /** Only the piece in the middle is taken. */
  lemma PiecesShape(x: Interval, virt: nat, len: nat)
    requires Holds(x, virt, len) && len > 0
    ensures var ps, l := Pieces(x, virt, len), |Left(x, virt)|;
      && l < |ps| && (forall m :: 0 <= m < |ps| && m != l ==> !ps[m].taken)
      && ps[0].start == x.start && ps[|ps| - 1].end == x.end
  {
  }

  /** The run around `n` is [j, k) if nothing else in it is taken and it is bounded by taken intervals. */
  lemma RunIs(w: seq<Interval>, j: nat, n: nat, k: nat)
    requires j <= n < k <= |w| && (forall m :: j <= m < k && m != n ==> !w[m].taken)
    requires (j > 0 ==> w[j - 1].taken) && (k < |w| ==> w[k].taken)
    ensures RunStart(w, n) == j && RunEnd(w, n) == k
  {
    hide RunStart, RunEnd;
  }

  /** Freeing what was taken restores the very row of intervals. */
  lemma TakeThenFree(v: seq<Interval>, i: nat, virt: nat, len: nat)
    requires Tiles(v) && i < |v| && Holds(v[i], virt, len) && len > 0
    ensures var w := Taken(v, i, virt, len);
      FirstStarting(w, virt) < |w| && Freed(w, FirstStarting(w, virt)) == v
  {
    hide Tiles, Taken, Pieces, RunStart, RunEnd, Left, FirstStarting;
    TakenAt(v, i, virt, len);
    TakenRun(v, i, virt, len);
    Rebuild(v, i);
  }

  lemma Rebuild(v: seq<Interval>, i: nat)
    requires i < |v| && !v[i].taken
    ensures v == v[..i] + [Interval(v[i].start, v[i].end, false)] + v[i + 1..]
  {
    assert v[i] == Interval(v[i].start, v[i].end, false);
  }

  /** Freeing an interval that is free already changes nothing. */
  lemma FreeTwice(v: seq<Interval>, i: nat)
    requires Tiles(v) && i < |v| && !v[i].taken
    ensures Freed(v, i) == v
  {
    assert v[i - 1].taken && (i + 1 < |v| ==> v[i + 1].taken);
    Rebuild(v, i);
  }

  // ---------------------------------------------------------------- the row is canonical

  /** The same ranges are taken. */
  ghost predicate SameTaken(v: seq<Interval>, w: seq<Interval>) {
    forall x: Interval :: x.taken ==> (x in v <==> x in w)
  }

  lemma {:induction false} RowOrder(v: seq<Interval>, lo: nat, hi: nat, i: nat, j: nat)
    requires Row(v, lo, hi) && i < j < |v|
    ensures v[i].end <= v[j].start
    decreases j - i
  {
    if i + 1 < j { RowOrder(v, lo, hi, i, j - 1); }
  }

  /** A taken interval that starts where the row starts is its first one. */
  lemma FirstTaken(v: seq<Interval>, lo: nat, hi: nat, x: Interval)
    requires Row(v, lo, hi) && x in v && x.start == lo
    ensures x == v[0]
  {
    var i :| 0 <= i < |v| && v[i] == x;
    if i > 0 { RowOrder(v, lo, hi, 0, i); }
  }

  lemma TailTaken(v: seq<Interval>, lo: nat, hi: nat, x: Interval)
    requires Row(v, lo, hi)
    ensures x in v[1..] <==> x in v && x != v[0]
  {
    if x in v[1..] {
      var i :| 0 <= i < |v[1..]| && v[1..][i] == x;
      assert v[i + 1] == x;
      RowOrder(v, lo, hi, 0, i + 1);
    }
  }

  lemma TailsSame(v: seq<Interval>, w: seq<Interval>, lo: nat, hi: nat)
    requires Row(v, lo, hi) && Row(w, lo, hi) && SameTaken(v, w) && v[0] == w[0]
    ensures SameTaken(v[1..], w[1..])
  {
    forall x: Interval ensures x.taken ==> (x in v[1..] <==> x in w[1..]) {
      TailTaken(v, lo, hi, x);
      TailTaken(w, lo, hi, x);
    }
  }

  /** Where the first free interval ends: at the next taken one, or at the end of the row. */
  lemma FreeHeadEnd(v: seq<Interval>, w: seq<Interval>, lo: nat, hi: nat)
    requires Row(v, lo, hi) && Row(w, lo, hi) && SameTaken(v, w) && !v[0].taken && !w[0].taken
    ensures w[0].end <= v[0].end
  {
    if |v| > 1 {
      assert v[1].taken && v[1] in v;
      var j :| 0 <= j < |w| && w[j] == v[1];
      RowOrder(w, lo, hi, 0, j);
    } else {
      RowRange(w, lo, hi, 0);
    }
  }

  lemma HeadsSame(v: seq<Interval>, w: seq<Interval>, lo: nat, hi: nat)
    requires Row(v, lo, hi) && Row(w, lo, hi) && SameTaken(v, w)
    ensures v[0] == w[0]
  {
    assert v[0] in v && w[0] in w;
    if v[0].taken { FirstTaken(w, lo, hi, v[0]); }
    if w[0].taken { FirstTaken(v, lo, hi, w[0]); }
    if !v[0].taken && !w[0].taken {
      FreeHeadEnd(v, w, lo, hi);
      FreeHeadEnd(w, v, lo, hi);
    }
  }

  lemma RowTail(v: seq<Interval>, lo: nat, hi: nat)
    requires Row(v, lo, hi)
    ensures |v| == 1 <==> v[0].end == hi
    ensures |v| > 1 ==> Row(v[1..], v[0].end, hi)
  {
    if |v| > 1 {
      RowSplit(v, lo, hi, 1);
      RowRange(v, lo, hi, 1);
    }
  }

  /** Two rows over the same addresses with the same ranges taken are equal, whatever sequence of
      takes and frees led to them. */
  lemma {:induction false} Canonical(v: seq<Interval>, w: seq<Interval>, lo: nat, hi: nat)
    requires Row(v, lo, hi) && Row(w, lo, hi) && SameTaken(v, w)
    ensures v == w
    decreases |v|
  {
    hide Row, SameTaken;
    RowEnds(v, lo, hi);
    RowEnds(w, lo, hi);
    HeadsSame(v, w, lo, hi);
    RowTail(v, lo, hi);
    RowTail(w, lo, hi);
    assert v == [v[0]] + v[1..] && w == [w[0]] + w[1..];
    if |v| > 1 {
      TailsSame(v, w, lo, hi);
      Canonical(v[1..], w[1..], v[0].end, hi);
    }
  }

  lemma ConcatIn(a: seq<Interval>, b: seq<Interval>, c: seq<Interval>, x: Interval)
    ensures x in a + b + c <==> x in a || x in b || x in c
  {
  }

  /** Taking adds one taken range. */
  lemma TakeAdds(v: seq<Interval>, i: nat, virt: nat, len: nat, x: Interval)
    requires i < |v| && !v[i].taken && x.taken
    ensures x in Taken(v, i, virt, len) <==> x in v || x == Interval(virt, virt + len, true)
  {
    ConcatIn(v[..i], Pieces(v[i], virt, len), v[i + 1..], x);
    assert v == v[..i] + [v[i]] + v[i + 1..];
    ConcatIn(v[..i], [v[i]], v[i + 1..], x);
    assert Interval(virt, virt + len, true) == Pieces(v[i], virt, len)[|Left(v[i], virt)|];
  }

  /** Of the run around a taken interval only that interval is taken, and it occurs nowhere else. */
  lemma RunMembers(v: seq<Interval>, i: nat, x: Interval)
    requires Tiles(v) && i < |v| && v[i].taken && x.taken
    ensures var j := RunStart(v, i); var k := RunEnd(v, i);
      (x in v[j..k] <==> x == v[i]) && v[i] !in v[..j] && v[i] !in v[k..]
  {
    hide Tiles, RunStart, RunEnd;
    var j := RunStart(v, i);
    var k := RunEnd(v, i);
    forall n | 0 <= n < |v| && n != i ensures v[n] != v[i] { Apart(v, i, n); }
    OneTaken(v, j, k, i, x);
  }

  lemma Apart(v: seq<Interval>, i: nat, n: nat)
    requires Tiles(v) && i < |v| && n < |v| && n != i
    ensures v[n] != v[i]
  {
    if n < i { Ascending(v, n, i); } else { Ascending(v, i, n); }
  }

  lemma OneTaken(v: seq<Interval>, j: nat, k: nat, i: nat, x: Interval)
    requires j <= i < k <= |v| && x.taken && forall m :: j <= m < k && m != i ==> !v[m].taken
    ensures x in v[j..k] ==> x == v[i]
    ensures v[i] in v[j..k]
  {
    assert v[j..k][i - j] == v[i];
    if x in v[j..k] {
      var m :| 0 <= m < k - j && v[j..k][m] == x;
      assert v[j + m] == x;
    }
  }

  /** Freeing a taken interval removes just that range. */
  lemma FreeRemoves(v: seq<Interval>, i: nat, x: Interval)
    requires Tiles(v) && i < |v| && v[i].taken && x.taken
    ensures x in Freed(v, i) <==> x in v && x != v[i]
  {
    hide Tiles, RunStart, RunEnd;
    RunMembers(v, i, x);
    var j := RunStart(v, i);
    var k := RunEnd(v, i);
    ConcatIn(v[..j], [Interval(v[j].start, v[k - 1].end, false)], v[k..], x);
    assert v == v[..j] + v[j..k] + v[k..];
    ConcatIn(v[..j], v[j..k], v[k..], x);
  }

  // ---------------------------------------------------------------- alignment

  ghost predicate Aligned(v: seq<Interval>) {
    forall i :: 0 <= i < |v| ==> v[i].start % PAGE == 0
  }

  lemma TakeAligned(v: seq<Interval>, i: nat, virt: nat, len: nat)
    requires Aligned(v) && i < |v| && virt % PAGE == 0 && (virt + len) % PAGE == 0
    ensures Aligned(Taken(v, i, virt, len))
  {
    var w := Taken(v, i, virt, len);
    assert Aligned(Pieces(v[i], virt, len));
    var p := Pieces(v[i], virt, len);
    forall n | 0 <= n < |w| ensures w[n].start % PAGE == 0 {
      if n < i {
        assert w[n] == v[n];
      } else if n < i + |p| {
        assert w[n] == p[n - i];
      } else {
        assert w[n] == v[n - |p| + 1];
      }
    }
  }

  /** The first fit is the interval take will find. */
  lemma FitHolds(v: seq<Interval>, len: nat)
    requires Tiles(v) && len > 0 && FirstFit(v, len) < |v|
    ensures FirstHolding(v, v[FirstFit(v, len)].start, len) == FirstFit(v, len)
    ensures FirstStarting(v, v[FirstFit(v, len)].start) == FirstFit(v, len)
  {
    var i := FirstFit(v, len);
    var virt := v[i].start;
    assert Holds(v[i], virt, len);
    var j := FirstHolding(v, virt, len);
    if j < i { Ascending(v, j, i); }
    var k := FirstStarting(v, virt);
    if k < i { Ascending(v, k, i); }
  }
}
