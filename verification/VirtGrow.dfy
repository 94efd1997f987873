/** Moving the heap-allocated nodes of the allocator to a larger array. */
module VirtGrow {
  import opened Base

  /** A node pointer: into the bootstrap nodes, the old array or the new one. */
  datatype Ref = Null | Boot(idx: nat) | Old(idx: nat) | New(idx: nat)

  datatype Node = Node(start: nat, end: nat, next: Ref, prev: Ref, isAlloc: bool, isUsed: bool)

  datatype Mem = Mem(boot: seq<Node>, olds: seq<Node>, news: seq<Node>) {
    predicate Has(r: Ref) {
      match r
      case Null => false
      case Boot(i) => i < |boot|
      case Old(i) => i < |olds|
      case New(i) => i < |news|
    }

    function Get(r: Ref): Node
      requires Has(r)
    {
      match r
      case Boot(i) => boot[i]
      case Old(i) => olds[i]
      case New(i) => news[i]
    }

    function Set(r: Ref, n: Node): Mem
      requires Has(r)
    {
      match r
      case Boot(i) => this.(boot := boot[i := n])
      case Old(i) => this.(olds := olds[i := n])
      case New(i) => this.(news := news[i := n])
    }
  }

  // ---------------------------------------------------------------- the list

  function At(ord: seq<Ref>, i: int): Ref { if 0 <= i < |ord| then ord[i] else Null }

  ghost predicate InMem(m: Mem, ord: seq<Ref>) {
    forall i :: 0 <= i < |ord| ==> m.Has(ord[i])
  }

  ghost predicate Knot(m: Mem, ord: seq<Ref>, i: nat)
    requires InMem(m, ord) && i < |ord|
  {
    m.Get(ord[i]).prev == At(ord, i - 1) && m.Get(ord[i]).next == At(ord, i + 1)
  }

  ghost predicate Strung(m: Mem, ord: seq<Ref>) {
    && InMem(m, ord) && NoDup(ord)
    && forall i: nat {:trigger Knot(m, ord, i)} :: i < |ord| ==> Knot(m, ord, i)
  }

  /** Both lists carry the same intervals in the same order. */
  ghost predicate SameSpans(m: Mem, ord: seq<Ref>, m': Mem, ord': seq<Ref>)
    requires InMem(m, ord) && InMem(m', ord')
  {
    && |ord| == |ord'|
    && forall i :: 0 <= i < |ord| ==> SameSpan(m.Get(ord[i]), m'.Get(ord'[i]))
  }

  predicate SameSpan(a: Node, b: Node) {
    a.start == b.start && a.end == b.end && a.isAlloc == b.isAlloc && a.isUsed == b.isUsed
  }

  // ---------------------------------------------------------------- moving one node

  /** Node `x` is copied to `y`, and its neighbours are told. */
  function Moved(m: Mem, x: Ref, y: Ref): Mem
    requires m.Has(x) && m.Has(y)
    requires m.Get(x).prev.Null? || m.Has(m.Get(x).prev)
    requires m.Get(x).next.Null? || m.Has(m.Get(x).next)
  {
    var n := m.Get(x);
    var m1 := m.Set(y, n);
    var m2 := if n.prev.Null? then m1 else m1.Set(n.prev, m1.Get(n.prev).(next := y));
    if n.next.Null? then m2 else m2.Set(n.next, m2.Get(n.next).(prev := y))
  }

  lemma NeighboursKnown(m: Mem, ord: seq<Ref>, p: nat)
    requires Strung(m, ord) && p < |ord|
    ensures m.Get(ord[p]).prev == At(ord, p - 1) && m.Get(ord[p]).next == At(ord, p + 1)
    ensures p > 0 ==> m.Has(ord[p - 1])
    ensures p + 1 < |ord| ==> m.Has(ord[p + 1])
    ensures m.Get(ord[p]).prev.Null? <==> p == 0
    ensures m.Get(ord[p]).next.Null? <==> p + 1 == |ord|
  {
    assert Knot(m, ord, p);
  }

  lemma GetSet(m: Mem, r: Ref, n: Node, x: Ref)
    requires m.Has(r)
    ensures m.Set(r, n).Has(x) <==> m.Has(x)
    ensures m.Has(x) ==> m.Set(r, n).Get(x) == if x == r then n else m.Get(x)
  {
  }

  /** What any node looks like after `x` has moved to `y`. */
  lemma MovedAt(m: Mem, x: Ref, y: Ref, r: Ref)
    requires m.Has(x) && m.Has(y) && x != y
    requires m.Get(x).prev.Null? || (m.Has(m.Get(x).prev) && m.Get(x).prev != y)
    requires m.Get(x).next.Null? || (m.Has(m.Get(x).next) && m.Get(x).next != y)
    ensures var m' := Moved(m, x, y); var n := m.Get(x);
      && (m.Has(r) <==> m'.Has(r))
      && (m.Has(r) && r != y ==>
          && SameSpan(m.Get(r), m'.Get(r))
          && m'.Get(r).next == (if r == n.prev then y else m.Get(r).next)
          && m'.Get(r).prev == (if r == n.next then y else m.Get(r).prev))
      && (r == y ==> m'.Get(r) == n)
  {
    assert m.Has(r) ==> !r.Null?;
    hide Mem.Has, Mem.Get, Mem.Set;
    var n := m.Get(x);
    var m1 := m.Set(y, n);
    GetSet(m, y, n, r);
    if !n.prev.Null? { GetSet(m, y, n, n.prev); }
    if !n.next.Null? { GetSet(m, y, n, n.next); }
    var m2 := m1;
    if !n.prev.Null? {
      m2 := m1.Set(n.prev, m1.Get(n.prev).(next := y));
      GetSet(m1, n.prev, m1.Get(n.prev).(next := y), r);
      if !n.next.Null? { GetSet(m1, n.prev, m1.Get(n.prev).(next := y), n.next); }
    }
    if !n.next.Null? {
      GetSet(m2, n.next, m2.Get(n.next).(prev := y), r);
    }
  }

  lemma MovedStrung(m: Mem, ord: seq<Ref>, p: nat, y: Ref)
    requires Strung(m, ord) && p < |ord| && m.Has(y) && y !in ord
    ensures m.Get(ord[p]).prev.Null? || m.Has(m.Get(ord[p]).prev)
    ensures m.Get(ord[p]).next.Null? || m.Has(m.Get(ord[p]).next)
    ensures Strung(Moved(m, ord[p], y), ord[p := y])
    ensures SameSpans(m, ord, Moved(m, ord[p], y), ord[p := y])
  {
    NeighboursKnown(m, ord, p);
    var m' := Moved(m, ord[p], y);
    var o' := ord[p := y];
    assert NoDup(o') && (forall q :: 0 <= q < |ord| ==> ord[q] in ord);
    forall q | 0 <= q < |ord| ensures m'.Has(o'[q]) && SameSpan(m.Get(ord[q]), m'.Get(o'[q])) {
      MovedAt(m, ord[p], y, o'[q]);
    }
    forall q: nat | q < |o'| ensures Knot(m', o', q) {
      hide Moved;
      MovedAt(m, ord[p], y, o'[q]);
      assert Knot(m, ord, q);
    }
  }

  // ---------------------------------------------------------------- moving all

  /** How many of the first `i` nodes are in use. */
  function Rank(ns: seq<Node>, i: nat): (r: nat)
    requires i <= |ns|
    ensures r <= i
  {
    if i == 0 then 0 else Rank(ns, i - 1) + if ns[i - 1].isUsed then 1 else 0
  }

  lemma {:induction false} RankMonotone(ns: seq<Node>, i: nat, j: nat)
    requires i <= j <= |ns|
    ensures Rank(ns, i) <= Rank(ns, j)
    ensures i < j && ns[i].isUsed ==> Rank(ns, i) < Rank(ns, j)
    decreases j - i
  {
    if i < j { RankMonotone(ns, i, j - 1); }
  }

  /** Every place below the count is the rank of some used node. */
  lemma {:induction false} RankOnto(ns: seq<Node>, n: nat, k: nat) returns (i: nat)
    requires n <= |ns| && k < Rank(ns, n)
    ensures i < n && ns[i].isUsed && Rank(ns, i) == k
  {
    if k == Rank(ns, n - 1) { i := n - 1; } else { i := RankOnto(ns, n - 1, k); }
  }

  /** Where a pointer leads once the first `i` old nodes have moved. */
  function Relocated(ns: seq<Node>, i: nat, r: Ref): Ref
    requires i <= |ns|
  {
    if r.Old? && r.idx < i then New(Rank(ns, r.idx)) else r
  }

  ghost function Route(ns: seq<Node>, i: nat, ord: seq<Ref>): (o: seq<Ref>)
    requires i <= |ns|
    ensures |o| == |ord|
  {
    seq(|ord|, p requires 0 <= p < |ord| => Relocated(ns, i, ord[p]))
  }

  /** The list before the move: bootstrap and old nodes in any interleaving; an old node is marked
      used exactly when it is in the list. */
  ghost predicate Before(m: Mem, ord: seq<Ref>) {
    && Strung(m, ord)
    && (forall p :: 0 <= p < |ord| ==> ord[p].Boot? || ord[p].Old?)
    && (forall i :: 0 <= i < |m.olds| ==> (m.olds[i].isUsed <==> Old(i) in ord))
  }

  lemma NextPlaceFree(ns: seq<Node>, i: nat, ord: seq<Ref>)
    requires i < |ns|
    requires forall p :: 0 <= p < |ord| ==>
      ord[p].Boot? || (ord[p].Old? && ord[p].idx < |ns| && ns[ord[p].idx].isUsed)
    ensures New(Rank(ns, i)) !in Route(ns, i, ord)
  {
    forall p | 0 <= p < |ord| ensures Route(ns, i, ord)[p] != New(Rank(ns, i)) {
      if ord[p].Old? && ord[p].idx < i { RankMonotone(ns, ord[p].idx, i); }
    }
  }

  lemma RouteStep(ns: seq<Node>, i: nat, ord: seq<Ref>, p: nat)
    requires i < |ns| && NoDup(ord) && p < |ord| && ord[p] == Old(i)
    ensures Route(ns, i, ord)[p] == Old(i)
    ensures Route(ns, i + 1, ord) == Route(ns, i, ord)[p := New(Rank(ns, i))]
  {
  }

  lemma RouteSkip(ns: seq<Node>, i: nat, ord: seq<Ref>)
    requires i < |ns| && Old(i) !in ord
    ensures Route(ns, i + 1, ord) == Route(ns, i, ord)
  {
    forall p | 0 <= p < |ord| ensures ord[p] != Old(i) { assert ord[p] in ord; }
  }

  /** The bootstrap nodes, the old heap array and the new one. */
  class Arenas {
    const boot: array<Node>
    const olds: array<Node>
    const news: array<Node>

    ghost predicate Apart() { boot != olds && boot != news && olds != news }

    ghost function View(): Mem
      reads boot, olds, news
    {
      Mem(boot[..], olds[..], news[..])
    }

    method SetNext(r: Ref, x: Ref)
      requires Apart() && View().Has(r)
      modifies boot, olds, news
      ensures View() == old(View()).Set(r, old(View()).Get(r).(next := x))
    {
      match r
      case Boot(i) => boot[i] := boot[i].(next := x);
      case Old(i) => olds[i] := olds[i].(next := x);
      case New(i) => news[i] := news[i].(next := x);
    }

    method SetPrev(r: Ref, x: Ref)
      requires Apart() && View().Has(r)
      modifies boot, olds, news
      ensures View() == old(View()).Set(r, old(View()).Get(r).(prev := x))
    {
      match r
      case Boot(i) => boot[i] := boot[i].(prev := x);
      case Old(i) => olds[i] := olds[i].(prev := x);
      case New(i) => news[i] := news[i].(prev := x);
    }

    /** One turn of the copying loop. */
    method MoveNode(i: nat, idx: nat, ghost cur: seq<Ref>, ghost p: nat)
      requires Apart() && Strung(View(), cur) && i < olds.Length && idx < news.Length
      requires p < |cur| && cur[p] == Old(i) && New(idx) !in cur
      modifies boot, olds, news
      ensures Strung(View(), cur[p := New(idx)]) && SameSpans(old(View()), cur, View(), cur[p := New(idx)])
      ensures KeptMarks(old(View()), View(), New(idx))
      ensures news[idx] == old(olds[i])
    {
      ghost var m := View();
      MovedStrung(m, cur, p, New(idx));
      NeighboursKnown(m, cur, p);
      assert forall q :: 0 <= q < |cur| ==> cur[q] in cur;
      MovedMarks(m, Old(i), New(idx));
      hide Strung, SameSpans, KeptMarks;
      news[idx] := olds[i];
      assert View() == m.Set(New(idx), m.Get(Old(i)));
      GetSet(m, New(idx), m.Get(Old(i)), New(idx));
      var n := news[idx];
      if n.prev != Null {
        GetSet(m, New(idx), n, n.prev);
        SetNext(n.prev, New(idx));
      }
      ghost var m2 := View();
      if n.next != Null {
        GetSet(m, New(idx), n, n.next);
        if n.prev != Null {
          GetSet(m.Set(New(idx), n), n.prev, m.Set(New(idx), n).Get(n.prev).(next := New(idx)), n.next);
        }
        SetPrev(n.next, New(idx));
      }
      assert View() == Moved(m, Old(i), New(idx));
      MovedAt(m, Old(i), New(idx), New(idx));
    }

    /** The invariant of the copying loop after `i` old nodes. */
    ghost predicate Progress(m0: Mem, ord: seq<Ref>, i: nat, idx: nat)
      reads boot, olds, news
    {
      var m, ns := View(), m0.olds;
      && |m.olds| == |ns| && i <= |ns| && idx == Rank(ns, i)
      && Strung(m, Route(ns, i, ord)) && InMem(m0, ord) && SameSpans(m0, ord, m, Route(ns, i, ord))
      && (forall j :: 0 <= j < |ns| ==> m.olds[j].isUsed == ns[j].isUsed)
      && idx <= |m.news| && (forall k :: 0 <= k < idx ==> m.news[k].isUsed)
    }

    method MoveNext(i: nat, idx: nat, ghost m0: Mem, ghost ord: seq<Ref>)
      requires Apart() && Before(m0, ord) && i < olds.Length == |m0.olds| && idx < news.Length
      requires Progress(m0, ord, i, idx) && olds[i].isUsed
      modifies boot, olds, news
      ensures Progress(m0, ord, i + 1, idx + 1)
    {
      hide Strung, Before, Route, KeptMarks, SameSpans;
      ghost var ns, m := m0.olds, View();
      ghost var cur := Route(ns, i, ord);
      ghost var p := OldPlace(m0, ord, i);
      RouteStep(ns, i, ord, p);
      PlacesFree(m0, ord, i);
      MoveNode(i, idx, cur, p);
      MarksKept(m, View(), idx);
      StrungInMem(m, cur);
      StrungInMem(View(), cur[p := New(idx)]);
      SpansTrans(m0, ord, m, cur, View(), cur[p := New(idx)]);
    }

    /** Compacts the used old nodes into the new array.  The list keeps its intervals and their
        order, no link leads into the old array, and in the new array exactly the list's nodes are
        marked used. */
    method UpdateNodePtrs(ghost ord: seq<Ref>)
      requires Apart() && Before(View(), ord) && Rank(olds[..], olds.Length) <= news.Length
      modifies boot, olds, news
      ensures var ord' := Route(old(olds[..]), olds.Length, ord);
        && Strung(View(), ord') && SameSpans(old(View()), ord, View(), ord')
        && (forall p :: 0 <= p < |ord'| ==> ord'[p].Boot? || ord'[p].New?)
        && (forall k :: 0 <= k < news.Length ==> (news[k].isUsed <==> New(k) in ord'))
    {
      hide Strung, Before, SameSpans, Route, Rank;
      ghost var m0 := View();
      var idx := Compact(ord);
      ghost var m1 := View();
      ClearRest(idx);
      StrungInMem(m1, Route(m0.olds, |m0.olds|, ord));
      Finished(m0, ord, m1, View());
    }

    /** The copying loop. */
    method Compact(ghost ord: seq<Ref>) returns (idx: nat)
      requires Apart() && Before(View(), ord) && Rank(olds[..], olds.Length) <= news.Length
      modifies boot, olds, news
      ensures Progress(old(View()), ord, olds.Length, idx)
    {
      hide Strung, Before, SameSpans, Route;
      ghost var m0, ns := View(), olds[..];
      RouteStart(m0, ord);
      idx := 0;
      var i := 0;
      while i < olds.Length
        invariant 0 <= i <= olds.Length && Progress(m0, ord, i, idx)
      {
        RankMonotone(ns, i + 1, |ns|);
        if olds[i].isUsed {
          MoveNext(i, idx, m0, ord);
          idx := idx + 1;
        } else {
          UnusedSkip(m0, ord, i);
        }
        i := i + 1;
      }
    }

    /** The nodes that are left over are marked unused. */
    method ClearRest(idx: nat)
      requires Apart() && idx <= news.Length
      modifies news
      ensures forall j :: 0 <= j < idx ==> news[j] == old(news[j])
      ensures forall j :: idx <= j < news.Length ==> !news[j].isUsed
    {
      var k := idx;
      while k < news.Length
        invariant idx <= k <= news.Length
        invariant forall j :: 0 <= j < idx ==> news[j] == old(news[j])
        invariant forall j :: idx <= j < k ==> !news[j].isUsed
      {
        news[k] := news[k].(isUsed := false);
        k := k + 1;
      }
    }
  }

  lemma RouteStart(m: Mem, ord: seq<Ref>)
    requires Before(m, ord)
    ensures Route(m.olds, 0, ord) == ord && Strung(m, ord) && SameSpans(m, ord, m, ord)
  {
  }

  lemma OldPlace(m: Mem, ord: seq<Ref>, i: nat) returns (p: nat)
    requires Before(m, ord) && i < |m.olds| && m.olds[i].isUsed
    ensures p < |ord| && ord[p] == Old(i)
    ensures NoDup(ord)
  {
    assert Old(i) in ord;
    p :| 0 <= p < |ord| && ord[p] == Old(i);
  }

  lemma PlacesFree(m: Mem, ord: seq<Ref>, i: nat)
    requires Before(m, ord) && i < |m.olds|
    ensures New(Rank(m.olds, i)) !in Route(m.olds, i, ord)
  {
    forall p | 0 <= p < |ord|
      ensures ord[p].Boot? || (ord[p].Old? && ord[p].idx < |m.olds| && m.olds[ord[p].idx].isUsed)
    {
      assert ord[p] in ord && m.Has(ord[p]);
    }
    NextPlaceFree(m.olds, i, ord);
  }

  lemma MarksKept(m: Mem, m': Mem, idx: nat)
    requires KeptMarks(m, m', New(idx)) && idx < |m.news|
    ensures |m'.olds| == |m.olds| && |m'.news| == |m.news|
    ensures forall j :: 0 <= j < |m.olds| ==> m'.olds[j].isUsed == m.olds[j].isUsed
    ensures forall k :: 0 <= k < idx ==> m'.news[k].isUsed == m.news[k].isUsed
  {
    SizesKept(m, m', New(idx));
    forall j | 0 <= j < |m.olds|
      ensures m'.olds[j].isUsed == m.olds[j].isUsed
    {
      assert m.Has(Old(j)) && m'.Get(Old(j)).isUsed == m.Get(Old(j)).isUsed;
    }
    forall k | 0 <= k < idx
      ensures m'.news[k].isUsed == m.news[k].isUsed
    {
      assert m.Has(New(k)) && m'.Get(New(k)).isUsed == m.Get(New(k)).isUsed;
    }
  }

  lemma SizesKept(m: Mem, m': Mem, y: Ref)
    requires KeptMarks(m, m', y)
    ensures |m'.olds| == |m.olds| && |m'.news| == |m.news|
  {
    assert !m.Has(Old(|m.olds|)) && !m'.Has(Old(|m'.olds|)) && !m.Has(New(|m.news|)) && !m'.Has(New(|m'.news|));
    assert !m'.Has(Old(|m.olds|)) && !m.Has(Old(|m'.olds|)) && !m'.Has(New(|m.news|)) && !m.Has(New(|m'.news|));
  }

  lemma SpansTrans(a: Mem, oa: seq<Ref>, b: Mem, ob: seq<Ref>, c: Mem, oc: seq<Ref>)
    requires InMem(a, oa) && InMem(b, ob) && InMem(c, oc) && SameSpans(a, oa, b, ob) && SameSpans(b, ob, c, oc)
    ensures SameSpans(a, oa, c, oc)
  {
  }

  lemma UnusedSkip(m: Mem, ord: seq<Ref>, i: nat)
    requires Before(m, ord) && i < |m.olds| && !m.olds[i].isUsed
    ensures Route(m.olds, i + 1, ord) == Route(m.olds, i, ord)
  {
    RouteSkip(m.olds, i, ord);
  }

  /** Clearing the marks of the rest of the new array touches no node of the list. */
  lemma StrungInMem(m: Mem, ord: seq<Ref>)
    requires Strung(m, ord)
    ensures InMem(m, ord)
  {
  }

  lemma Finished(m0: Mem, ord: seq<Ref>, m1: Mem, m2: Mem)
    requires Before(m0, ord) && InMem(m1, Route(m0.olds, |m0.olds|, ord))
    requires Strung(m1, Route(m0.olds, |m0.olds|, ord)) && SameSpans(m0, ord, m1, Route(m0.olds, |m0.olds|, ord))
    requires m2.boot == m1.boot && m2.olds == m1.olds && |m2.news| == |m1.news| && Rank(m0.olds, |m0.olds|) <= |m2.news|
    requires forall k :: 0 <= k < Rank(m0.olds, |m0.olds|) ==> m2.news[k] == m1.news[k] && m1.news[k].isUsed
    requires forall k :: Rank(m0.olds, |m0.olds|) <= k < |m2.news| ==> !m2.news[k].isUsed
    ensures var ord' := Route(m0.olds, |m0.olds|, ord);
      && Strung(m2, ord') && SameSpans(m0, ord, m2, ord')
      && (forall p :: 0 <= p < |ord'| ==> ord'[p].Boot? || ord'[p].New?)
      && (forall k :: 0 <= k < |m2.news| ==> (m2.news[k].isUsed <==> New(k) in ord'))
  {
    var ns := m0.olds;
    var ord' := Route(ns, |ns|, ord);
    var n := Rank(ns, |ns|);
    forall p | 0 <= p < |ord'|
      ensures ord'[p].Boot? || (ord'[p].New? && ord'[p].idx < n)
      ensures m2.Has(ord'[p]) && m2.Get(ord'[p]) == m1.Get(ord'[p])
    {
      assert m0.Has(ord[p]) && ord[p] in ord && m1.Has(ord'[p]);
      if ord[p].Old? { RankMonotone(ns, ord[p].idx, |ns|); }
    }
    forall p: nat | p < |ord'| ensures Knot(m2, ord', p) { assert Knot(m1, ord', p); }
    forall k | 0 <= k < |m2.news| ensures m2.news[k].isUsed <==> New(k) in ord' {
      if k < n {
        var i := RankOnto(ns, |ns|, k);
        assert Old(i) in ord;
        var p :| 0 <= p < |ord| && ord[p] == Old(i);
        assert ord'[p] == New(k);
      }
    }
  }

  /** Only the node `y` may have another use mark. */
  ghost predicate KeptMarks(m: Mem, m': Mem, y: Ref) {
    && (forall r: Ref :: m.Has(r) <==> m'.Has(r))
    && (forall r: Ref :: m.Has(r) && r != y ==> m'.Get(r).isUsed == m.Get(r).isUsed)
  }

  lemma MovedMarks(m: Mem, x: Ref, y: Ref)
    requires m.Has(x) && m.Has(y) && x != y
    requires m.Get(x).prev.Null? || (m.Has(m.Get(x).prev) && m.Get(x).prev != y)
    requires m.Get(x).next.Null? || (m.Has(m.Get(x).next) && m.Get(x).next != y)
    ensures KeptMarks(m, Moved(m, x, y), y)
  {
    forall r: Ref
      ensures m.Has(r) <==> Moved(m, x, y).Has(r)
      ensures m.Has(r) && r != y ==> Moved(m, x, y).Get(r).isUsed == m.Get(r).isUsed
    {
      MovedAt(m, x, y, r);
    }
  }
}
