/** Queues threaded through the `next` fields: which links represent which sequences. */
module ProcLinks {
  import opened Base
  import opened ProcSpec
  import opened ProcQueueLaws
  import opened ProcRuns

  type Links = n: seq<Ptr> | |n| == 256 witness seq(256, i => -1)
  datatype QueueHead = QueueHead(head: Ptr, tail: Ptr, order: Order)
  type Heads = h: seq<QueueHead> | |h| == 27 witness seq(27, i => QueueHead(-1, -1, Fifo))

  /** Following `next` from the head visits exactly `xs`, and the tail is the last of them. */
  ghost predicate Chain(nx: Links, h: QueueHead, xs: seq<Slot>) {
    && NoDup(xs)
    && (xs == [] ==> h.head == NULL && h.tail == NULL)
    && (xs != [] ==> h.head == xs[0] && h.tail == xs[|xs| - 1] && nx[xs[|xs| - 1]] == NULL)
    && forall i :: 0 <= i < |xs| - 1 ==> nx[xs[i]] == xs[i + 1]
  }

  lemma ChainLink(nx: Links, h: QueueHead, xs: seq<Slot>, i: nat)
    requires Chain(nx, h, xs) && i < |xs|
    ensures nx[xs[i]] == if i + 1 < |xs| then xs[i + 1] else NULL
  {
  }

  ghost predicate Chains(nx: Links, hs: Heads, q: Queues) {
    forall k: Qid :: Chain(nx, hs[k], q[k])
  }

  /** A process outside every queue, or at the end of one, has a NULL link. */
  ghost predicate Unlinked(nx: Links, q: Queues) {
    forall p: Slot :: nx[p] != NULL ==> Linked(q, p)
  }

  ghost predicate Loose(q: Queues, p: Slot) {
    forall k: Qid :: p !in q[k]
  }

  lemma LinkedHasNext(nx: Links, hs: Heads, q: Queues, p: Slot)
    requires Chains(nx, hs, q) && Linked(q, p)
    ensures nx[p] != NULL
  {
    var k: Qid, i: nat :| i + 1 < |q[k]| && q[k][i] == p;
    assert Chain(nx, hs[k], q[k]);
    assert nx[q[k][i]] == q[k][i + 1];
  }

  /** The links after `p` has been put before position `i` of queue `k`. */
  function SplicedLinks(nx: Links, xs: seq<Slot>, i: nat, p: Slot): Links
    requires i <= |xs|
  {
    var n1 := if i < |xs| then nx[p := xs[i]] else nx;
    if i > 0 then n1[xs[i - 1] := p] else n1
  }

  function SplicedHead(h: QueueHead, xs: seq<Slot>, i: nat, p: Slot): QueueHead
    requires i <= |xs|
  {
    QueueHead(if i == 0 then p else h.head, if i == |xs| then p else h.tail, h.order)
  }

  lemma SpliceChain(nx: Links, h: QueueHead, xs: seq<Slot>, i: nat, p: Slot)
    requires Chain(nx, h, xs) && i <= |xs| && p !in xs && nx[p] == NULL
    ensures Chain(SplicedLinks(nx, xs, i, p), SplicedHead(h, xs, i, p), Splice(xs, i, p))
  {
    SpliceMembers(xs, i, p);
    SpliceLast(nx, h, xs, i, p);
    forall j | 0 <= j < |xs| ensures SplicedLinks(nx, xs, i, p)[Splice(xs, i, p)[j]] == Splice(xs, i, p)[j + 1] {
      SpliceLink(nx, h, xs, i, p, j);
    }
    hide SplicedLinks;
  }

  lemma SpliceLink(nx: Links, h: QueueHead, xs: seq<Slot>, i: nat, p: Slot, j: nat)
    requires Chain(nx, h, xs) && i <= |xs| && p !in xs && j < |xs|
    ensures |Splice(xs, i, p)| == |xs| + 1 && SplicedLinks(nx, xs, i, p)[Splice(xs, i, p)[j]] == Splice(xs, i, p)[j + 1]
  {
    var ys := Splice(xs, i, p);
    assert (j < i ==> ys[j] == xs[j]) && (j > i ==> ys[j] == xs[j - 1]);
  }

  lemma SpliceLast(nx: Links, h: QueueHead, xs: seq<Slot>, i: nat, p: Slot)
    requires Chain(nx, h, xs) && i <= |xs| && p !in xs && nx[p] == NULL
    ensures |Splice(xs, i, p)| == |xs| + 1 && SplicedLinks(nx, xs, i, p)[Splice(xs, i, p)[|xs|]] == NULL
    ensures SplicedHead(h, xs, i, p).head == Splice(xs, i, p)[0]
    ensures SplicedHead(h, xs, i, p).tail == Splice(xs, i, p)[|xs|]
  {
  }

  /** Links of `p` and of members of queue `k` change; a chain without them stays, and one that
      ends in `p` stays if `p` keeps its NULL link. */
  lemma OtherChain(nx: Links, h: QueueHead, ys: seq<Slot>, xs: seq<Slot>, i: nat, p: Slot)
    requires Chain(nx, h, ys) && i <= |xs| && nx[p] == NULL
    requires forall x :: x in ys ==> x !in xs
    requires i < |xs| ==> p !in ys
    ensures Chain(SplicedLinks(nx, xs, i, p), h, ys)
  {
    forall j | 0 <= j < |ys| ensures ys[j] in ys {}
  }

  lemma SpliceChains(nx: Links, hs: Heads, q: Queues, k: Qid, i: nat, p: Slot)
    requires Chains(nx, hs, q) && Disjoint(q) && i <= |q[k]| && p !in q[k] && nx[p] == NULL
    requires i < |q[k]| ==> Loose(q, p)
    ensures Chains(SplicedLinks(nx, q[k], i, p), hs[k := SplicedHead(hs[k], q[k], i, p)], q[k := Splice(q[k], i, p)])
  {
    hide Chain, SplicedLinks, SplicedHead, Splice;
    assert Chain(nx, hs[k], q[k]);
    SpliceChain(nx, hs[k], q[k], i, p);
    forall j: Qid | j != k ensures Chain(SplicedLinks(nx, q[k], i, p), hs[j], q[j]) {
      assert Chain(nx, hs[j], q[j]);
      OtherChain(nx, hs[j], q[j], q[k], i, p);
    }
  }

  lemma SpliceDisjoint(q: Queues, k: Qid, i: nat, p: Slot)
    requires Disjoint(q) && i <= |q[k]| && Loose(q, p)
    ensures Disjoint(q[k := Splice(q[k], i, p)])
  {
    SpliceMembers(q[k], i, p);
  }

  lemma SpliceUnlinked(nx: Links, q: Queues, k: Qid, i: nat, p: Slot)
    requires Unlinked(nx, q) && i <= |q[k]|
    ensures Unlinked(SplicedLinks(nx, q[k], i, p), q[k := Splice(q[k], i, p)])
  {
    var q' := q[k := Splice(q[k], i, p)];
    var nx' := SplicedLinks(nx, q[k], i, p);
    forall x: Slot | nx'[x] != NULL ensures Linked(q', x) {
      if i > 0 && x == q[k][i - 1] {
        assert i - 1 + 1 < |q'[k]| && q'[k][i - 1] == x;
      } else if x == p && i < |q[k]| {
        assert q'[k][i] == x;
      } else {
        assert Linked(q, x);
        var j: Qid, n: nat :| n + 1 < |q[j]| && q[j][n] == x;
        assert q'[j][if j == k && n >= i then n + 1 else n] == x;
      }
    }
  }

  // ---------------------------------------------------------------- removal

  /** The links after the member at position `i` of queue `k` has been taken out. */
  function CutLinks(nx: Links, xs: seq<Slot>, i: nat): Links
    requires i < |xs|
  {
    (if i > 0 then nx[xs[i - 1] := nx[xs[i]]] else nx)[xs[i] := NULL]
  }

  function CutHead(nx: Links, h: QueueHead, xs: seq<Slot>, i: nat): QueueHead
    requires i < |xs|
  {
    QueueHead(if i == 0 then nx[xs[i]] else h.head,
              if nx[xs[i]] != NULL then h.tail else if i > 0 then xs[i - 1] else NULL, h.order)
  }

  function Cut(xs: seq<Slot>, i: nat): seq<Slot>
    requires i < |xs|
  {
    xs[..i] + xs[i + 1..]
  }

  lemma CutChain(nx: Links, h: QueueHead, xs: seq<Slot>, i: nat)
    requires Chain(nx, h, xs) && i < |xs|
    ensures Chain(CutLinks(nx, xs, i), CutHead(nx, h, xs, i), Cut(xs, i))
  {
    if i + 1 < |xs| { assert nx[xs[i]] == xs[i + 1]; }
  }

  lemma CutChains(nx: Links, hs: Heads, q: Queues, k: Qid, i: nat)
    requires Chains(nx, hs, q) && Disjoint(q) && i < |q[k]|
    ensures Chains(CutLinks(nx, q[k], i), hs[k := CutHead(nx, hs[k], q[k], i)], q[k := Cut(q[k], i)])
  {
    assert Chain(nx, hs[k], q[k]);
    CutChain(nx, hs[k], q[k], i);
    var nx' := CutLinks(nx, q[k], i);
    forall j: Qid | j != k ensures Chain(nx', hs[j], q[j]) {
      assert Chain(nx, hs[j], q[j]);
      forall n | 0 <= n < |q[j]| ensures nx'[q[j][n]] == nx[q[j][n]] {
        assert q[j][n] in q[j];
        assert q[k][i] in q[k];
        if i > 0 { assert q[k][i - 1] in q[k]; }
      }
    }
  }

  lemma CutDisjoint(nx: Links, hs: Heads, q: Queues, k: Qid, i: nat)
    requires Chains(nx, hs, q) && Disjoint(q) && i < |q[k]|
    ensures Disjoint(q[k := Cut(q[k], i)]) && Loose(q[k := Cut(q[k], i)], q[k][i])
  {
    assert NoDup(q[k]) by { assert Chain(nx, hs[k], q[k]); }
    assert q[k][i] in q[k];
    DropMembers(q[k], i);
  }

  lemma CutUnlinked(nx: Links, hs: Heads, q: Queues, k: Qid, i: nat)
    requires Chains(nx, hs, q) && Unlinked(nx, q) && i < |q[k]|
    ensures Unlinked(CutLinks(nx, q[k], i), q[k := Cut(q[k], i)])
  {
    assert Chain(nx, hs[k], q[k]);
    var q' := q[k := Cut(q[k], i)];
    var nx' := CutLinks(nx, q[k], i);
    forall x: Slot | nx'[x] != NULL ensures Linked(q', x) {
      if i > 0 && x == q[k][i - 1] {
        assert q'[k][i - 1] == x && i < |q'[k]|;
      } else {
        assert Linked(q, x);
        var j: Qid, n: nat :| n + 1 < |q[j]| && q[j][n] == x;
        assert q'[j][if j == k && n >= i then n - 1 else n] == x;
      }
    }
  }
}
