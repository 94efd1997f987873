/** The doubly linked list of intervals inside a pool of nodes. */
module VirtList {
  import opened Base
  import opened VirtSpec

  const NULL: int := -1

  /** Pointers are pool indices: the bootstrap nodes first, then the heap-allocated ones. */
  datatype Node = Node(start: nat, end: nat, next: int, prev: int, isAlloc: bool, isUsed: bool)

  function At(ord: seq<nat>, i: int): int { if 0 <= i < |ord| then ord[i] else NULL }

  ghost predicate InPool(ns: seq<Node>, ord: seq<nat>) {
    forall i :: 0 <= i < |ord| ==> ord[i] < |ns|
  }

  ghost predicate Knot(ns: seq<Node>, ord: seq<nat>, i: nat)
    requires InPool(ns, ord) && i < |ord|
  {
    ns[ord[i]].prev == At(ord, i - 1) && ns[ord[i]].next == At(ord, i + 1)
  }

  /** `next` runs through the nodes in the order `ord`, and `prev` inverts it. */
  ghost predicate Strung(ns: seq<Node>, ord: seq<nat>) {
    && InPool(ns, ord) && NoDup(ord)
    && forall i: nat {:trigger Knot(ns, ord, i)} :: i < |ord| ==> Knot(ns, ord, i)
  }

  /** A pool node is marked used exactly when it is in the list. */
  ghost predicate UsedIs(ns: seq<Node>, ord: seq<nat>) {
    forall x :: 0 <= x < |ns| ==> (ns[x].isUsed <==> x in ord)
  }

  function Span(n: Node): Interval { Interval(n.start, n.end, n.isAlloc) }

  ghost function Spans(ns: seq<Node>, ord: seq<nat>): (v: seq<Interval>)
    ensures |v| == |ord|
  {
    seq(|ord|, i requires 0 <= i < |ord| => if ord[i] < |ns| then Span(ns[ord[i]]) else Interval(0, 0, false))
  }

  function Spliced(ord: seq<nat>, i: nat, x: nat): seq<nat>
    requires i <= |ord|
  {
    ord[..i] + [x] + ord[i..]
  }

  /** The pool after node `x` has been linked in at position `i`, carrying interval `v`. */
  function LinkedIn(ns: seq<Node>, ord: seq<nat>, i: nat, x: nat, v: Interval): (r: seq<Node>)
    requires i <= |ord| && x < |ns|
    requires i > 0 ==> ord[i - 1] < |ns|
    requires i < |ord| ==> ord[i] < |ns|
    ensures |r| == |ns|
  {
    var n0 := ns[x := Node(v.start, v.end, At(ord, i), At(ord, i - 1), v.taken, true)];
    var n1 := if i > 0 then n0[ord[i - 1] := n0[ord[i - 1]].(next := x)] else n0;
    if i < |ord| then n1[ord[i] := n1[ord[i]].(prev := x)] else n1
  }

  lemma LinkFields(ns: seq<Node>, ord: seq<nat>, i: nat, x: nat, v: Interval, m: nat)
    requires InPool(ns, ord) && NoDup(ord) && i <= |ord| && x < |ns| && x !in ord && m < |ord|
    ensures var n' := LinkedIn(ns, ord, i, x, v);
      && n'[ord[m]].prev == (if m == i then x else ns[ord[m]].prev)
      && n'[ord[m]].next == (if m + 1 == i then x else ns[ord[m]].next)
      && n'[x].prev == At(ord, i - 1) && n'[x].next == At(ord, i)
  {
    assert ord[m] in ord;
  }

  lemma SplicedNoDup(ord: seq<nat>, i: nat, x: nat)
    requires NoDup(ord) && i <= |ord| && x !in ord
    ensures NoDup(Spliced(ord, i, x))
  {
  }

  lemma SplicedAt(ord: seq<nat>, i: nat, x: nat, j: int)
    requires i <= |ord|
    ensures At(Spliced(ord, i, x), j) == if j < i then At(ord, j) else if j == i then x else At(ord, j - 1)
  {
  }

  lemma LinkOld(ns: seq<Node>, ord: seq<nat>, i: nat, x: nat, v: Interval, m: nat)
    requires Strung(ns, ord) && i <= |ord| && x < |ns| && x !in ord && m < |ord|
    ensures var n := LinkedIn(ns, ord, i, x, v)[ord[m]];
      var j := if m < i then m else m + 1;
      n.prev == At(Spliced(ord, i, x), j - 1) && n.next == At(Spliced(ord, i, x), j + 1)
  {
    var j := if m < i then m else m + 1;
    assert Knot(ns, ord, m);
    SplicedAt(ord, i, x, j - 1);
    SplicedAt(ord, i, x, j + 1);
    LinkFields(ns, ord, i, x, v, m);
    hide Spliced, LinkedIn, NoDup;
  }

  lemma LinkNew(ns: seq<Node>, ord: seq<nat>, i: nat, x: nat, v: Interval)
    requires Strung(ns, ord) && i <= |ord| && x < |ns| && x !in ord
    ensures var n := LinkedIn(ns, ord, i, x, v)[x];
      n.prev == At(Spliced(ord, i, x), i - 1) && n.next == At(Spliced(ord, i, x), i + 1)
  {
    SplicedAt(ord, i, x, i - 1);
    SplicedAt(ord, i, x, i + 1);
    if |ord| > 0 { LinkFields(ns, ord, i, x, v, 0); }
  }

  lemma LinkStrung(ns: seq<Node>, ord: seq<nat>, i: nat, x: nat, v: Interval)
    requires Strung(ns, ord) && i <= |ord| && x < |ns| && x !in ord
    ensures Strung(LinkedIn(ns, ord, i, x, v), Spliced(ord, i, x))
  {
    var n' := LinkedIn(ns, ord, i, x, v);
    var o' := Spliced(ord, i, x);
    assert InPool(n', o');
    SplicedNoDup(ord, i, x);
    hide LinkedIn, NoDup, At;
    forall j: nat | j < |o'| ensures Knot(n', o', j) {
      if j == i { LinkNew(ns, ord, i, x, v); } else { LinkOld(ns, ord, i, x, v, if j < i then j else j - 1); }
    }
  }

  lemma LinkSpans(ns: seq<Node>, ord: seq<nat>, i: nat, x: nat, v: Interval)
    requires InPool(ns, ord) && i <= |ord| && x < |ns| && x !in ord
    ensures InPool(LinkedIn(ns, ord, i, x, v), Spliced(ord, i, x))
    ensures Spans(LinkedIn(ns, ord, i, x, v), Spliced(ord, i, x)) == Spans(ns, ord)[..i] + [v] + Spans(ns, ord)[i..]
  {
    hide LinkedIn;
    var n', o' := LinkedIn(ns, ord, i, x, v), Spliced(ord, i, x);
    var u, w := Spans(ns, ord), Spans(n', o');
    var e := u[..i] + [v] + u[i..];
    forall j | 0 <= j < |o'| ensures o'[j] < |n'| && w[j] == e[j] {
      assert e[j] == if j < i then u[j] else if j == i then v else u[j - 1];
      assert j != i ==> o'[j] == ord[if j < i then j else j - 1] && o'[j] in ord;
      LinkSpan(ns, ord, i, x, v, o'[j]);
    }
  }

  lemma LinkSpan(ns: seq<Node>, ord: seq<nat>, i: nat, x: nat, v: Interval, y: nat)
    requires InPool(ns, ord) && i <= |ord| && x < |ns| && x !in ord && y < |ns|
    ensures Span(LinkedIn(ns, ord, i, x, v)[y]) == if y == x then v else Span(ns[y])
  {
  }

  lemma LinkUsed(ns: seq<Node>, ord: seq<nat>, i: nat, x: nat, v: Interval)
    requires InPool(ns, ord) && i <= |ord| && x < |ns|
    requires forall y :: 0 <= y < |ns| && y != x ==> (ns[y].isUsed <==> y in ord)
    ensures UsedIs(LinkedIn(ns, ord, i, x, v), Spliced(ord, i, x))
  {
    var o' := Spliced(ord, i, x);
    assert o'[i] == x;
    forall y | y in ord ensures y in o' {
      var j :| 0 <= j < |ord| && ord[j] == y;
      assert o'[if j < i then j else j + 1] == y;
    }
  }

  function Without(ord: seq<nat>, i: nat): seq<nat>
    requires i < |ord|
  {
    ord[..i] + ord[i + 1..]
  }

  /** The pool after the node at position `i` has been taken out of the list. */
  function Unlinked(ns: seq<Node>, ord: seq<nat>, i: nat): (r: seq<Node>)
    requires i < |ord| && ord[i] < |ns|
    requires i > 0 ==> ord[i - 1] < |ns|
    requires i + 1 < |ord| ==> ord[i + 1] < |ns|
    ensures |r| == |ns|
  {
    var n0 := if i > 0 then ns[ord[i - 1] := ns[ord[i - 1]].(next := At(ord, i + 1))] else ns;
    var n1 := if i + 1 < |ord| then n0[ord[i + 1] := n0[ord[i + 1]].(prev := At(ord, i - 1))] else n0;
    n1[ord[i] := n1[ord[i]].(isUsed := false)]
  }

  lemma UnlinkFields(ns: seq<Node>, ord: seq<nat>, i: nat, m: nat)
    requires InPool(ns, ord) && NoDup(ord) && i < |ord| && m < |ord| && m != i
    ensures var n' := Unlinked(ns, ord, i);
      && n'[ord[m]].prev == (if m == i + 1 then At(ord, i - 1) else ns[ord[m]].prev)
      && n'[ord[m]].next == (if m + 1 == i then At(ord, i + 1) else ns[ord[m]].next)
  {
  }

  lemma UnlinkStrung(ns: seq<Node>, ord: seq<nat>, i: nat)
    requires Strung(ns, ord) && i < |ord|
    ensures Strung(Unlinked(ns, ord, i), Without(ord, i))
  {
    var n' := Unlinked(ns, ord, i);
    var o' := Without(ord, i);
    hide Unlinked;
    forall j: nat | j < |o'| ensures Knot(n', o', j) {
      var m := if j < i then j else j + 1;
      assert Knot(ns, ord, m);
      UnlinkFields(ns, ord, i, m);
    }
  }

  lemma UnlinkSpans(ns: seq<Node>, ord: seq<nat>, i: nat)
    requires InPool(ns, ord) && NoDup(ord) && i < |ord|
    ensures InPool(Unlinked(ns, ord, i), Without(ord, i))
    ensures Spans(Unlinked(ns, ord, i), Without(ord, i)) == Spans(ns, ord)[..i] + Spans(ns, ord)[i + 1..]
  {
    hide Unlinked;
    var n', o' := Unlinked(ns, ord, i), Without(ord, i);
    var v, w := Spans(ns, ord), Spans(n', o');
    forall j | 0 <= j < |o'| ensures o'[j] < |n'| && w[j] == v[if j < i then j else j + 1] {
      assert o'[j] == ord[if j < i then j else j + 1];
      UnlinkSpan(ns, ord, i, o'[j]);
    }
  }

  lemma UnlinkSpan(ns: seq<Node>, ord: seq<nat>, i: nat, x: nat)
    requires InPool(ns, ord) && i < |ord| && x < |ns| && x != ord[i]
    ensures |Unlinked(ns, ord, i)| == |ns| && Span(Unlinked(ns, ord, i)[x]) == Span(ns[x])
  {
  }

  lemma WithoutMembers(ord: seq<nat>, i: nat, y: nat)
    requires NoDup(ord) && i < |ord|
    ensures y in Without(ord, i) <==> y in ord && y != ord[i]
  {
    var o' := Without(ord, i);
    if y in ord && y != ord[i] {
      var j :| 0 <= j < |ord| && ord[j] == y;
      assert o'[if j < i then j else j - 1] == y;
    }
    if y in o' {
      var j :| 0 <= j < |o'| && o'[j] == y;
      assert ord[if j < i then j else j + 1] == y;
    }
  }

  lemma UnlinkUsed(ns: seq<Node>, ord: seq<nat>, i: nat)
    requires InPool(ns, ord) && NoDup(ord) && UsedIs(ns, ord) && i < |ord|
    ensures UsedIs(Unlinked(ns, ord, i), Without(ord, i))
  {
    var n' := Unlinked(ns, ord, i);
    var o' := Without(ord, i);
    forall y | 0 <= y < |n'| ensures n'[y].isUsed <==> y in o' { WithoutMembers(ord, i, y); }
  }

  /** Changing the interval of the node at position `i` in place. */
  lemma Resized(ns: seq<Node>, ord: seq<nat>, i: nat, n: Node)
    requires Strung(ns, ord) && UsedIs(ns, ord) && i < |ord|
    requires n.next == ns[ord[i]].next && n.prev == ns[ord[i]].prev && n.isUsed
    ensures Strung(ns[ord[i] := n], ord) && UsedIs(ns[ord[i] := n], ord)
    ensures Spans(ns[ord[i] := n], ord) == Spans(ns, ord)[i := Span(n)]
  {
    assert ord[i] in ord;
    var n' := ns[ord[i] := n];
    forall j: nat | j < |ord| ensures Knot(n', ord, j) { assert Knot(ns, ord, j); }
  }

  lemma {:induction false} Pigeonhole(ord: seq<nat>, n: nat)
    requires NoDup(ord) && forall x :: 0 <= x < n ==> x in ord
    ensures |ord| >= n
  {
    if n > 0 {
      assert n - 1 in ord;
      var i :| 0 <= i < |ord| && ord[i] == n - 1;
      var o' := Without(ord, i);
      forall x | 0 <= x < n - 1 ensures x in o' {
        assert x in ord;
        var j :| 0 <= j < |ord| && ord[j] == x;
        assert o'[if j < i then j else j - 1] == x;
      }
      Pigeonhole(o', n - 1);
    }
  }

  /** While the list is shorter than the pool, some node is free. */
  lemma FreeNodeExists(ns: seq<Node>, ord: seq<nat>)
    requires Strung(ns, ord) && UsedIs(ns, ord) && |ord| < |ns|
    ensures exists x :: 0 <= x < |ns| && !ns[x].isUsed
  {
    if forall x :: 0 <= x < |ns| ==> ns[x].isUsed {
      forall x | 0 <= x < |ns| ensures x in ord { assert ns[x].isUsed; }
      Pigeonhole(ord, |ns|);
      assert false;
    }
  }
}
