/** The virtual address allocator: a doubly linked list of intervals in a node pool, split by take
    and merged by free, all in place. */
module VirtAlloc {
  import opened Base
  import opened VirtSpec
  import opened VirtList

  const BOOTSTRAP_NODES := 256

  /** The length of an interval in pages: an int, divided toward zero. */
  function PagesOf(x: Interval): int {
    var n := ToInt(x.end - x.start);
    if n >= 0 then n / PAGE else -((-n) / PAGE)
  }

  /** virtaddr_init rounds the end of the kernel image up to whole pages, and passes these bytes as the number
      of pages to take. */
  function InitPages(kernelEnd: nat): nat { (kernelEnd + PAGE - 1) / PAGE * PAGE }

  /** Their length in bytes fits an int if and only if the image ends at 508 KiB at the latest, so never for an
      image that is linked at 1 MiB. */
  lemma InitOverflows(kernelEnd: nat)
    ensures InitPages(kernelEnd) * PAGE < I31 <==> kernelEnd <= 0x7_f000
    ensures kernelEnd >= 0x10_0000 ==> InitPages(kernelEnd) * PAGE >= U32
  {
    var p := (kernelEnd + PAGE - 1) / PAGE;
    assert kernelEnd <= p * PAGE < kernelEnd + PAGE;
    assert p * PAGE * PAGE < I31 <==> p <= 0x7f;
  }

  /** The number of pages is right if and only if the length is below 2^31. */
  lemma PagesExact(x: Interval)
    requires x.start <= x.end
    ensures PagesOf(x) == (x.end - x.start) / PAGE <==> x.end - x.start < I31
  {
    ToIntExact(x.end - x.start);
  }

  /** A length of 2^32 bytes counts as no pages, and all but the first page of the address space as -1, the
      code for an address that was never given out. */
  lemma PagesLost(a: nat, taken: bool)
    ensures PagesOf(Interval(a, a + 0x1_0000_0000, taken)) == 0
    ensures PagesOf(Interval(PAGE, LIMIT, taken)) == -1
  {
  }

  class VirtCtx {
    const nodes: array<Node>
    var startNode: int
    var usedNodeCount: nat
    ghost var ord: seq<nat>

    /** The list is well linked, the used marks and the counter agree with it. */
    ghost predicate Linked()
      reads this, nodes
    {
      && InPool(nodes[..], ord) && Strung(nodes[..], ord) && UsedIs(nodes[..], ord)
      && |ord| > 0 && startNode == ord[0] && usedNodeCount == |ord| - 1
    }

    ghost function Intervals(): seq<Interval>
      reads this, nodes
    {
      Spans(nodes[..], ord)
    }

    /** Linked, tiling the address space, with the reserved bootstrap node still at the head. */
    ghost predicate Valid()
      reads this, nodes
    {
      Linked() && ord[0] == 0 && Tiles(Intervals())
    }

    /** virtaddr_init, reserving `nPages` pages from address 0 on. */
    constructor (nPages: nat)
      requires 1 <= nPages && nPages * PAGE < I31
      ensures Valid() && fresh(nodes) && nodes.Length == BOOTSTRAP_NODES && usedNodeCount == 1
      ensures Intervals() == [Interval(0, nPages * PAGE, true), Interval(nPages * PAGE, LIMIT, false)]
    {
      nodes := new Node[256](i =>
        if i == 0 then Node(0, LIMIT, -1, -1, false, true) else Node(0, 0, 0, 0, false, false));
      startNode := 0;
      usedNodeCount := 0;
      ord := [0];
      new;
      assert Knot(nodes[..], ord, 0);
      ghost var v := [Interval(0, LIMIT, false)];
      assert Intervals() == v;
      assert Holds(v[0], 0, nPages * PAGE);
      var status := Take(0, nPages);
      assert Taken(v, 0, 0, nPages * PAGE) == [Interval(0, nPages * PAGE, true), Interval(nPages * PAGE, LIMIT, false)];
    }

    /** A free node of the pool, marked used; the pool is large enough not to grow. */
    method GetNode() returns (x: nat)
      requires Linked() && usedNodeCount + 16 < nodes.Length
      modifies this`usedNodeCount, nodes
      ensures x < nodes.Length && x !in ord && usedNodeCount == old(usedNodeCount) + 1
      ensures nodes[..] == old(nodes[..])[x := old(nodes[x]).(isUsed := true)]
    {
      FreeNodeExists(nodes[..], ord);
      assert exists y :: 0 <= y < |nodes[..]| && !nodes[..][y].isUsed;
      x := 0;
      while nodes[x].isUsed
        invariant x < nodes.Length
        invariant forall y :: 0 <= y < x ==> nodes[..][y].isUsed
        decreases nodes.Length - x
      {
        assert nodes[..][x].isUsed;
        x := x + 1;
      }
      assert nodes[..][x] == nodes[x];
      nodes[x] := nodes[x].(isUsed := true);
      usedNodeCount := usedNodeCount + 1;
    }

    /** A new free interval [start, virt) in front of the node at position `i`. */
    method SplitLeft(node: nat, virt: nat, ghost i: nat)
      requires Linked() && usedNodeCount + 16 < nodes.Length
      requires 0 < i < |ord| && ord[i] == node
      modifies this`usedNodeCount, this`ord, nodes
      ensures Linked() && usedNodeCount == old(usedNodeCount) + 1
      ensures ord == Spliced(old(ord), i, ord[i]) && ord[i + 1] == node
      ensures Intervals()
           == old(Intervals())[..i] + [Interval(old(nodes[node].start), virt, false)] + old(Intervals())[i..]
    {
      hide Strung, UsedIs, LinkedIn, Spans;
      ghost var n0, o := nodes[..], ord;
      KnotAt(n0, o, i);
      StrungNoDup(n0, o);
      var left := GetNode();
      ghost var n1, v := nodes[..], Interval(nodes[node].start, virt, false);
      UsedButOne(n0, o, left);
      LinkBefore(node, left, virt, o, i);
      ord := Spliced(o, i, left);
      LinkStrung(n1, o, i, left, v);
      LinkSpans(n1, o, i, left, v);
      LinkUsed(n1, o, i, left, v);
    }

    /** The links of a new node in front of the node at position `i`. */
    method LinkBefore(node: nat, left: nat, virt: nat, ghost o: seq<nat>, ghost i: nat)
      requires InPool(nodes[..], o) && NoDup(o) && i < |o| && o[i] == node && left < nodes.Length && left !in o
      requires nodes[node].prev == At(o, i - 1)
      modifies nodes
      ensures nodes[..] == LinkedIn(old(nodes[..]), o, i, left, Interval(old(nodes[node].start), virt, false))
    {
      nodes[left] := Node(nodes[node].start, virt, node, nodes[node].prev, false, true);
      if nodes[node].prev != NULL {
        nodes[nodes[node].prev] := nodes[nodes[node].prev].(next := left);
      }
      nodes[node] := nodes[node].(prev := left);
    }

    /** A new free interval [hi, end) behind the node at position `i`. */
    method SplitRight(node: nat, hi: nat, ghost i: nat)
      requires Linked() && usedNodeCount + 16 < nodes.Length
      requires i < |ord| && ord[i] == node
      modifies this`usedNodeCount, this`ord, nodes
      ensures Linked() && usedNodeCount == old(usedNodeCount) + 1
      ensures |ord| > i + 1 && ord == Spliced(old(ord), i + 1, ord[i + 1]) && ord[i] == node
      ensures Intervals()
           == old(Intervals())[..i + 1] + [Interval(hi, old(nodes[node].end), false)] + old(Intervals())[i + 1..]
    {
      hide Strung, UsedIs, LinkedIn, Spans;
      ghost var n0, o := nodes[..], ord;
      KnotAt(n0, o, i);
      StrungNoDup(n0, o);
      var right := GetNode();
      ghost var n1, v := nodes[..], Interval(hi, nodes[node].end, false);
      UsedButOne(n0, o, right);
      LinkBehind(node, right, hi, o, i);
      ord := Spliced(o, i + 1, right);
      LinkStrung(n1, o, i + 1, right, v);
      LinkSpans(n1, o, i + 1, right, v);
      LinkUsed(n1, o, i + 1, right, v);
    }

    /** The links of a new node behind the node at position `i`. */
    method LinkBehind(node: nat, right: nat, hi: nat, ghost o: seq<nat>, ghost i: nat)
      requires InPool(nodes[..], o) && NoDup(o) && i < |o| && o[i] == node && right < nodes.Length && right !in o
      requires nodes[node].next == At(o, i + 1)
      modifies nodes
      ensures nodes[..] == LinkedIn(old(nodes[..]), o, i + 1, right, Interval(hi, old(nodes[node].end), false))
    {
      nodes[right] := Node(hi, nodes[node].end, nodes[node].next, node, false, true);
      if nodes[node].next != NULL {
        nodes[nodes[node].next] := nodes[nodes[node].next].(prev := right);
      }
      nodes[node] := nodes[node].(next := right);
    }

    /** The search loop of take: the first free node that holds the whole range. */
    method FindHolding(virt: nat, len: nat) returns (node: int, ghost i: nat)
      requires Linked()
      ensures i == FirstHolding(Intervals(), virt, len) && node == At(ord, i)
    {
      node, i := startNode, 0;
      ghost var v := Intervals();
      while node != NULL && !(!nodes[node].isAlloc && nodes[node].start <= virt && virt + len <= nodes[node].end)
        invariant i <= |ord| && node == At(ord, i)
        invariant forall j :: 0 <= j < i ==> !Holds(v[j], virt, len)
        decreases |ord| - i
      {
        KnotAt(nodes[..], ord, i);
        assert v[i] == Span(nodes[node]);
        node := nodes[node].next;
        i := i + 1;
      }
      if node != NULL { assert v[i] == Span(nodes[node]); }
    }

    method Take(virt: nat, nPages: int) returns (r: int)
      requires Linked() && usedNodeCount + 17 < nodes.Length
      requires nPages * PAGE < I31 && virt + nPages * PAGE < U64
      requires nPages >= 1 && FirstHolding(Intervals(), virt, nPages * PAGE) == 0 ==> virt <= Intervals()[0].start
      modifies this`usedNodeCount, this`ord, nodes
      ensures Linked() && ord[0] == old(ord)[0]
      ensures nPages < 1 ==> r == 0 && Intervals() == old(Intervals())
      ensures nPages >= 1 ==>
        var v, len := old(Intervals()), nPages * PAGE;
        var i := FirstHolding(v, virt, len);
        if i < |v| then r == 0 && Intervals() == Taken(v, i, virt, len) else r == 1 && Intervals() == v
      ensures old(Valid()) ==> Valid()
    {
      if nPages < 1 {
        return 0;
      }
      var len := nPages * PAGE;
      ghost var v := Intervals();
      var node, i := FindHolding(virt, len);
      if node == NULL {
        return 1;
      }
      assert v[i] == Span(nodes[node]);
      if Tiles(v) { TakeTiles(v, i, virt, len); }
      hide Strung, UsedIs, Spans, Tiles, Taken;
      CutOut(node, virt, len, i);
      r := 0;
    }

    /** Give the node at position `k` a new interval. */
    method Resize(node: nat, x: Interval, ghost k: nat)
      requires Linked() && k < |ord| && ord[k] == node
      modifies nodes
      ensures Linked() && Intervals() == old(Intervals())[k := x]
    {
      ghost var n0 := nodes[..];
      assert ord[k] in ord && n0[ord[k]].isUsed;
      nodes[node] := nodes[node].(start := x.start, end := x.end, isAlloc := x.taken);
      assert nodes[..] == n0[ord[k] := nodes[node]];
      Resized(n0, ord, k, nodes[node]);
    }

    method TrimLeft(node: nat, virt: nat, ghost i: nat) returns (ghost k: nat)
      requires Linked() && usedNodeCount + 16 < nodes.Length && i < |ord| && ord[i] == node
      requires i == 0 ==> virt <= Intervals()[0].start
      modifies this`usedNodeCount, this`ord, nodes
      ensures Linked() && ord[0] == old(ord)[0] && usedNodeCount <= old(usedNodeCount) + 1
      ensures var v := old(Intervals());
        && k == i + |Left(v[i], virt)| && k < |ord| && ord[k] == node
        && Intervals() == v[..i] + Left(v[i], virt) + v[i..] && Intervals()[k] == v[i]
    {
      hide Strung, UsedIs, Spans;
      SpanAt(nodes[..], ord, i);
      k := i;
      if nodes[node].start < virt {
        SplitLeft(node, virt, i);
        k := i + 1;
      }
    }

    method TrimRight(node: nat, hi: nat, ghost k: nat)
      requires Linked() && usedNodeCount + 16 < nodes.Length && k < |ord| && ord[k] == node
      modifies this`usedNodeCount, this`ord, nodes
      ensures Linked() && ord[0] == old(ord)[0] && k < |ord| && ord[k] == node
      ensures var v := old(Intervals());
        Intervals() == v[..k + 1] + Right(v[k], hi) + v[k + 1..]
    {
      hide Strung, UsedIs, Spans;
      SpanAt(nodes[..], ord, k);
      if nodes[node].end > hi {
        SplitRight(node, hi, k);
      }
    }

    /** Split the surplus off on either side, then mark the node taken. */
    method CutOut(node: nat, virt: nat, len: nat, ghost i: nat)
      requires Linked() && usedNodeCount + 17 < nodes.Length && i < |ord| && ord[i] == node
      requires Holds(Intervals()[i], virt, len) && len > 0 && (i == 0 ==> virt <= Intervals()[0].start)
      modifies this`usedNodeCount, this`ord, nodes
      ensures Linked() && ord[0] == old(ord)[0]
      ensures Intervals() == Taken(old(Intervals()), i, virt, len)
    {
      hide Strung, UsedIs, Spans, Taken;
      ghost var v := Intervals();
      ghost var k := TrimLeft(node, virt, i);
      ghost var v1 := Intervals();
      TrimRight(node, virt + len, k);
      ghost var v2 := Intervals();
      Resize(node, Interval(virt, virt + len, true), k);
      Assemble(v, i, virt, len, v1, k, v2);
    }

    // -------------------------------------------------------------- free

    /** As `Linked`, but the start pointer may lag behind. */
    ghost predicate Woven()
      reads this, nodes
    {
      && InPool(nodes[..], ord) && Strung(nodes[..], ord) && UsedIs(nodes[..], ord)
      && |ord| > 0 && usedNodeCount == |ord| - 1
    }

    /** One turn of merge_back: the node at position `i` swallows its predecessor. */
    method AbsorbPrev(node: nat, prev: nat, ghost i: nat) returns (prev': int)
      requires Woven() && 0 < i < |ord| && ord[i] == node && ord[i - 1] == prev
      modifies this`usedNodeCount, this`ord, nodes
      ensures Woven() && i - 1 < |ord| && ord[i - 1] == node && prev' == At(ord, i - 2)
      ensures i > 1 ==> ord[0] == old(ord)[0]
      ensures Intervals() == AbsorbedPrev(old(Intervals()), i)
    {
      hide Strung, UsedIs, Spans, Unlinked;
      ghost var n0, o := nodes[..], ord;
      KnotAt(n0, o, i);
      KnotAt(n0, o, i - 1);
      StrungNoDup(n0, o);
      AbsorbPrevFacts(n0, o, i);
      prev' := LinkPast(node, prev, o, i);
      usedNodeCount := usedNodeCount - 1;
      ord := Without(o, i - 1);
    }

    /** The links without the predecessor of the node at position `i`, which takes over its start. */
    method LinkPast(node: nat, prev: nat, ghost o: seq<nat>, ghost i: nat) returns (prev': int)
      requires InPool(nodes[..], o) && NoDup(o) && 0 < i < |o| && o[i] == node && o[i - 1] == prev
      requires nodes[prev].prev == At(o, i - 2) && nodes[prev].next == node
      modifies nodes
      ensures nodes[..]
           == Unlinked(old(nodes[..])[node := old(nodes[node]).(start := old(nodes[prev]).start)], o, i - 1)
      ensures prev' == At(o, i - 2)
    {
      nodes[node] := nodes[node].(start := nodes[prev].start, prev := nodes[prev].prev);
      if nodes[node].prev != NULL {
        nodes[nodes[node].prev] := nodes[nodes[node].prev].(next := node);
      }
      nodes[prev] := nodes[prev].(isUsed := false);
      prev' := nodes[prev].prev;
    }

    /** One turn of merge_forward: the node at position `i` swallows its successor. */
    method AbsorbNext(node: nat, next: nat, ghost i: nat) returns (next': int)
      requires Woven() && i + 1 < |ord| && ord[i] == node && ord[i + 1] == next
      modifies this`usedNodeCount, this`ord, nodes
      ensures Woven() && i < |ord| && ord[i] == node && next' == At(ord, i + 1)
      ensures ord[0] == old(ord)[0]
      ensures Intervals() == AbsorbedNext(old(Intervals()), i)
    {
      hide Strung, UsedIs, Spans, Unlinked;
      ghost var n0, o := nodes[..], ord;
      KnotAt(n0, o, i);
      KnotAt(n0, o, i + 1);
      StrungNoDup(n0, o);
      AbsorbNextFacts(n0, o, i);
      next' := LinkOver(node, next, o, i);
      usedNodeCount := usedNodeCount - 1;
      ord := Without(o, i + 1);
    }

    /** The links without the successor of the node at position `i`, which takes over its end. */
    method LinkOver(node: nat, next: nat, ghost o: seq<nat>, ghost i: nat) returns (next': int)
      requires InPool(nodes[..], o) && NoDup(o) && i + 1 < |o| && o[i] == node && o[i + 1] == next
      requires nodes[next].next == At(o, i + 2) && nodes[next].prev == node
      modifies nodes
      ensures nodes[..] == Unlinked(old(nodes[..])[node := old(nodes[node]).(end := old(nodes[next]).end)], o, i + 1)
      ensures next' == At(o, i + 2)
    {
      nodes[node] := nodes[node].(end := nodes[next].end, next := nodes[next].next);
      if nodes[node].next != NULL {
        nodes[nodes[node].next] := nodes[nodes[node].next].(prev := node);
      }
      nodes[next] := nodes[next].(isUsed := false);
      next' := nodes[next].next;
    }

    method LinksOf(node: nat, ghost i: nat) returns (prev: int, next: int)
      requires Woven() && i < |ord| && ord[i] == node
      ensures prev == At(ord, i - 1) && next == At(ord, i + 1)
    {
      KnotAt(nodes[..], ord, i);
      prev, next := nodes[node].prev, nodes[node].next;
    }

    method IsFree(x: nat, ghost k: nat) returns (b: bool)
      requires Woven() && k < |ord| && ord[k] == x
      ensures b == !Intervals()[k].taken
    {
      SpanAt(nodes[..], ord, k);
      b := !nodes[x].isAlloc;
    }

    /** Free predecessors are swallowed one after the other. */
    method MergeBack(node: nat, ghost i: nat) returns (ghost k: nat)
      requires Linked() && i < |ord| && ord[i] == node
      modifies this, nodes
      ensures Linked() && k < |ord| && ord[k] == node && (k > 0 ==> ord[0] == old(ord)[0])
      ensures (Intervals(), k) == MergedBack(old(Intervals()), i)
    {
      hide Linked, Woven, Strung, UsedIs, Spans, InPool, AbsorbedPrev;
      LinkedWoven();
      ghost var v, head := Intervals(), ord[0];
      var prev, _ := LinksOf(node, i);
      k := i;
      while prev != NULL
        invariant Woven() && k < |ord| && ord[k] == node && prev == At(ord, k - 1)
        invariant MergedBack(v, i) == MergedBack(Intervals(), k)
        invariant startNode == head && (k > 0 ==> ord[0] == head)
        decreases k
      {
        var free := IsFree(prev, k - 1);
        if !free {
          break;
        }
        prev := AbsorbPrev(node, prev, k);
        k := k - 1;
      }
      SetStart(node, k);
    }

    lemma LinkedWoven()
      requires Linked()
      ensures Woven() && |ord| > 0 && startNode == ord[0]
    {
    }

    method SetStart(node: nat, ghost k: nat)
      requires Woven() && k < |ord| && ord[k] == node && (k > 0 ==> startNode == ord[0])
      modifies this`startNode
      ensures Linked()
    {
      var prev, _ := LinksOf(node, k);
      if prev == NULL {
        startNode := node;
      }
    }

    /** Free successors are swallowed one after the other. */
    method MergeForward(node: nat, ghost i: nat)
      requires Linked() && i < |ord| && ord[i] == node
      modifies this`usedNodeCount, this`ord, nodes
      ensures Linked() && ord[0] == old(ord)[0]
      ensures Intervals() == MergedForward(old(Intervals()), i)
    {
      hide Strung, UsedIs, Spans, InPool, AbsorbedNext;
      assert Woven();
      ghost var v, head := Intervals(), ord[0];
      var _, next := LinksOf(node, i);
      while next != NULL
        invariant Woven() && i < |ord| && ord[i] == node && next == At(ord, i + 1)
        invariant MergedForward(v, i) == MergedForward(Intervals(), i)
        invariant ord[0] == head
        decreases |ord|
      {
        var free := IsFree(next, i + 1);
        if !free {
          break;
        }
        next := AbsorbNext(node, next, i);
      }
    }

    method FindStart(virt: nat) returns (node: int, ghost i: nat)
      requires Linked()
      ensures i == FirstStarting(Intervals(), virt) && node == At(ord, i)
    {
      node, i := startNode, 0;
      ghost var v := Intervals();
      while node != NULL && nodes[node].start != virt
        invariant i <= |ord| && node == At(ord, i)
        invariant forall j :: 0 <= j < i ==> v[j].start != virt
        decreases |ord| - i
      {
        KnotAt(nodes[..], ord, i);
        assert v[i] == Span(nodes[node]);
        node := nodes[node].next;
        i := i + 1;
      }
      if node != NULL { assert v[i] == Span(nodes[node]); }
    }

    /** Clear the mark of the node at position `i` and merge both ways. */
    method Release(node: nat, ghost i: nat)
      requires Linked() && i < |ord| && ord[i] == node
      modifies this, nodes
      ensures Linked() && Intervals() == Freed(old(Intervals()), i)
      ensures RunStart(old(Intervals()), i) > 0 ==> ord[0] == old(ord)[0]
    {
      hide Strung, UsedIs, Spans, Freed, MergedBack, MergedForward, RunStart;
      SpanAt(nodes[..], ord, i);
      ghost var v := Intervals();
      Resize(node, Interval(nodes[node].start, nodes[node].end, false), i);
      FreedIs(v, i);
      ghost var k := MergeBack(node, i);
      MergeForward(node, k);
    }

    /** Frees the interval that starts at `virt`, taken or not, and merges it with its free
        neighbours; the result is its length in pages, cut to an int. */
    method Free(virt: nat) returns (r: int)
      requires Valid()
      modifies this, nodes
      ensures Valid()
      ensures var v := old(Intervals()); var i := FirstStarting(v, virt);
        if virt == 0 || virt % PAGE != 0 || i == |v|
        then r == -1 && Intervals() == v
        else r == PagesOf(v[i]) && Intervals() == Freed(v, i)
    {
      if virt == 0 || virt % PAGE != 0 {
        return -1;
      }
      ghost var v := Intervals();
      var node, i := FindStart(virt);
      if node == NULL {
        return -1;
      }
      SpanAt(nodes[..], ord, i);
      RunAboveHead(v, i);
      FreeTiles(v, i);
      hide Strung, UsedIs, Spans, Freed, RunStart, Tiles;
      r := PagesOf(Interval(nodes[node].start, nodes[node].end, nodes[node].isAlloc));
      Release(node, i);
    }

    /** Taking a range and freeing it returns the pages taken, and the intervals are what they were. */
    method TakeFree(virt: nat, nPages: nat) returns (status: int, pages: int)
      requires Valid() && usedNodeCount + 17 < nodes.Length
      requires 1 <= nPages && nPages * PAGE < I31 && virt % PAGE == 0 && virt + nPages * PAGE < U64
      modifies this, nodes
      ensures Valid() && Intervals() == old(Intervals())
      ensures status == 0 <==> AllFree(old(Intervals()), virt, nPages * PAGE)
      ensures status == 0 ==> pages == nPages
    {
      hide Linked, Strung, UsedIs, Spans, Tiles, Taken, Freed, FirstStarting, FirstHolding, AllFree, PagesOf;
      ghost var v, len := Intervals(), nPages * PAGE;
      TakeIffFree(v, virt, len);
      Undone(v, virt, len);
      status := TakeValid(virt, nPages);
      pages := 0;
      if status == 0 {
        PagesTaken(v, virt, nPages);
        pages := Free(virt);
      }
    }

    // -------------------------------------------------------------- alloc and its callers

    /** The lowest start of a free interval of at least `nPages` pages; 0 is NULL. */
    method Alloc(nPages: int) returns (r: nat)
      requires Valid() && nPages * PAGE < I31
      ensures nPages < 1 ==> r == 0
      ensures nPages >= 1 ==>
        var v := Intervals();
        var i := FirstFit(v, nPages * PAGE);
        if i < |v| then r == v[i].start && r > 0 else r == 0
    {
      if nPages < 1 {
        return 0;
      }
      var len := nPages * PAGE;
      var node := startNode;
      ghost var v, i: nat := Intervals(), 0;
      while node != NULL
        invariant i <= |ord| && node == At(ord, i)
        invariant forall j :: 0 <= j < i ==> !Fits(v[j], len)
        decreases |ord| - i
      {
        KnotAt(nodes[..], ord, i);
        assert v[i] == Span(nodes[node]);
        if !nodes[node].isAlloc && nodes[node].end - nodes[node].start >= len {
          FreeNotFirst(v, i);
          return nodes[node].start;
        }
        node := nodes[node].next;
        i := i + 1;
      }
      r := 0;
    }

    /** The address side of mem_alloc_pages_at; `mapped` says whether physical pages were found and
        mapped.  A failed mapping gives the range back exactly when the address is page aligned.  With no
        pages at all nothing is taken, but a failure still frees the interval that starts there. */
    method MemAllocPagesAt(count: nat, virt: nat, mapped: bool) returns (r: nat)
      requires Valid() && usedNodeCount + 17 < nodes.Length
      requires count * PAGE < I31 && virt + count * PAGE < U64
      modifies this, nodes
      ensures Valid()
      ensures count == 0 ==>
        var v := old(Intervals()); var i := FirstStarting(v, virt);
        && r == (if mapped then virt else 0)
        && Intervals() == if mapped || virt == 0 || virt % PAGE != 0 || i == |v| then v else Freed(v, i)
      ensures count > 0 ==>
        var v, len := old(Intervals()), count * PAGE; var i := FirstHolding(v, virt, len);
        && (i < |v| && mapped ==> r == virt && Intervals() == Taken(v, i, virt, len))
        && (i == |v| || !mapped ==> r == 0)
        && (i == |v| ==> Intervals() == v)
        && (i < |v| && !mapped ==> (Intervals() == v <==> virt % PAGE == 0))
    {
      hide Strung, UsedIs, Spans, Tiles, Taken, Freed, FirstStarting, FirstHolding, Linked;
      ghost var v, len := Intervals(), count * PAGE;
      if count > 0 { Undone(v, virt, len); }
      var status := TakeValid(virt, count);
      if status != 0 {
        return 0;
      }
      if mapped {
        return virt;
      }
      var pages := Free(virt);
      r := 0;
    }

    /** The address side of mem_alloc_pages.  When mapping fails the range is freed twice, and the
        intervals are still what they were. */
    method MemAllocPages(count: nat, mapped: bool) returns (r: nat)
      requires Valid() && Aligned(Intervals()) && usedNodeCount + 17 < nodes.Length && count * PAGE < I31
      modifies this, nodes
      ensures Valid() && Aligned(Intervals())
      ensures var v, len := old(Intervals()), count * PAGE; var i := FirstFit(v, len);
        if count > 0 && i < |v| && mapped
        then r == v[i].start && Intervals() == Taken(v, i, r, len)
        else r == 0 && Intervals() == v
    {
      hide Linked, Strung, UsedIs, Spans, Tiles, Taken, Freed, FirstStarting, FirstHolding, FirstFit, Aligned;
      ghost var v, len := Intervals(), count * PAGE;
      var virt := Alloc(count);
      if virt == 0 {
        return 0;
      }
      AllocFacts(v, count);
      r := MemAllocPagesAt(count, virt, mapped);
      if r == 0 {
        var pages := Free(virt);
      }
    }

    method TakeValid(virt: nat, count: nat) returns (status: int)
      requires Valid() && usedNodeCount + 17 < nodes.Length
      requires count * PAGE < I31 && virt + count * PAGE < U64
      modifies this`usedNodeCount, this`ord, nodes
      ensures Valid()
      ensures count == 0 ==> status == 0 && Intervals() == old(Intervals())
      ensures count > 0 ==> var v, len := old(Intervals()), count * PAGE; var i := FirstHolding(v, virt, len);
        if i < |v| then status == 0 && Intervals() == Taken(v, i, virt, len) else status == 1 && Intervals() == v
    {
      hide Strung, UsedIs, Spans, Tiles, Taken;
      ghost var v := Intervals();
      if count > 0 && FirstHolding(v, virt, count * PAGE) < |v| {
        FreeNotFirst(v, FirstHolding(v, virt, count * PAGE));
      }
      status := Take(virt, count);
    }
  }

  lemma PagesTaken(v: seq<Interval>, virt: nat, n: nat)
    requires Tiles(v) && n > 0 && n * PAGE < I31 && FirstHolding(v, virt, n * PAGE) < |v|
    ensures var w := Taken(v, FirstHolding(v, virt, n * PAGE), virt, n * PAGE);
      var i := FirstStarting(w, virt);
      i < |w| && PagesOf(w[i]) == n
  {
    hide FirstStarting, PagesOf, Taken, Tiles;
    TakenAt(v, FirstHolding(v, virt, n * PAGE), virt, n * PAGE);
    PagesExact(Interval(virt, virt + n * PAGE, true));
  }

  /** What taking a range and freeing its start does. */
  lemma Undone(v: seq<Interval>, virt: nat, len: nat)
    requires Tiles(v) && len > 0
    ensures var i := FirstHolding(v, virt, len);
      i < |v| ==>
        var w := Taken(v, i, virt, len);
        virt > 0 && w != v && FirstStarting(w, virt) < |w| && Freed(w, FirstStarting(w, virt)) == v
  {
    var i := FirstHolding(v, virt, len);
    if i < |v| { TakeThenFree(v, i, virt, len); HoldsAbove(v, i, virt, len); TakeChanges(v, i, virt, len); }
  }

  lemma FreeNotFirst(v: seq<Interval>, i: nat)
    requires Tiles(v) && i < |v| && !v[i].taken
    ensures i > 0 && v[i].start > 0
  {
    Ascending(v, 0, i);
  }

  lemma FitRange(v: seq<Interval>, i: nat, len: nat)
    requires Tiles(v) && i < |v| && Fits(v[i], len)
    ensures v[i].start + len <= LIMIT && v[i].start > 0
  {
    FreeNotFirst(v, i);
    RowRange(v, 0, LIMIT, i);
  }

  lemma AllocFacts(v: seq<Interval>, count: nat)
    requires Tiles(v) && Aligned(v) && count > 0 && FirstFit(v, count * PAGE) < |v|
    ensures var len := count * PAGE; var i := FirstFit(v, len); var virt := v[i].start;
      && FirstHolding(v, virt, len) == i && FirstStarting(v, virt) == i && Freed(v, i) == v
      && virt % PAGE == 0 && 0 < virt && virt + len <= LIMIT
      && Aligned(Taken(v, i, virt, len))
  {
    hide Tiles, Freed, Taken, FirstHolding, FirstStarting, FirstFit;
    var len := count * PAGE;
    var i := FirstFit(v, len);
    FitHolds(v, len);
    FitRange(v, i, len);
    FreeTwice(v, i);
    assert v[i].start % PAGE == 0;
    TakeAligned(v, i, v[i].start, len);
  }

  lemma HoldsAbove(v: seq<Interval>, i: nat, virt: nat, len: nat)
    requires Tiles(v) && i < |v| && Holds(v[i], virt, len)
    ensures virt > 0
  {
    FreeNotFirst(v, i);
  }

  lemma TakeChanges(v: seq<Interval>, i: nat, virt: nat, len: nat)
    requires Tiles(v) && i < |v| && Holds(v[i], virt, len) && len > 0
    ensures Taken(v, i, virt, len) != v
  {
    FreeMeans(v, i, virt);
    TakeFrees(v, i, virt, len, virt);
  }

  /** Freeing never reaches the reserved head. */
  lemma RunAboveHead(v: seq<Interval>, i: nat)
    requires Tiles(v) && i < |v| && v[i].start != 0
    ensures i > 0 && RunStart(v, i) > 0
  {
  }

  function AbsorbedPrev(v: seq<Interval>, i: nat): (r: seq<Interval>)
    requires 0 < i < |v|
    ensures |r| == |v| - 1
  {
    v[..i - 1] + [Interval(v[i - 1].start, v[i].end, v[i].taken)] + v[i + 1..]
  }

  function AbsorbedNext(v: seq<Interval>, i: nat): (r: seq<Interval>)
    requires i + 1 < |v|
    ensures |r| == |v| - 1
  {
    v[..i] + [Interval(v[i].start, v[i + 1].end, v[i].taken)] + v[i + 2..]
  }

  /** The row once interval `i` has swallowed the free ones before it, and where it is then. */
  function MergedBack(v: seq<Interval>, i: nat): (seq<Interval>, nat)
    requires i < |v|
    decreases i
  {
    if i == 0 || v[i - 1].taken then (v, i) else MergedBack(AbsorbedPrev(v, i), i - 1)
  }

  function MergedForward(v: seq<Interval>, i: nat): seq<Interval>
    requires i < |v|
    decreases |v|
  {
    if i + 1 == |v| || v[i + 1].taken then v else MergedForward(AbsorbedNext(v, i), i)
  }

  /** The row after the intervals from `k` up to `i` have become one. */
  function BackRow(v: seq<Interval>, k: nat, i: nat): (r: seq<Interval>)
    requires k <= i < |v|
    ensures |r| == |v| - (i - k)
  {
    v[..k] + [Interval(v[k].start, v[i].end, v[i].taken)] + v[i + 1..]
  }

  function ForwardRow(v: seq<Interval>, i: nat, k: nat): (r: seq<Interval>)
    requires i < k <= |v|
    ensures |r| == |v| - (k - i - 1)
  {
    v[..i] + [Interval(v[i].start, v[k - 1].end, v[i].taken)] + v[k..]
  }

  lemma AbsorbedPrevAt(v: seq<Interval>, i: nat, j: nat)
    requires 0 < i < |v| && j < i
    ensures var w := AbsorbedPrev(v, i);
      && w[..j] == v[..j] && w[..i - 1] == v[..i - 1] && w[i..] == v[i + 1..]
      && w[j].start == v[j].start && w[i - 1].end == v[i].end && w[i - 1].taken == v[i].taken
  {
  }

  lemma AbsorbedNextAt(v: seq<Interval>, i: nat, k: nat)
    requires i + 1 < k <= |v|
    ensures var w := AbsorbedNext(v, i);
      && w[..i] == v[..i] && w[i + 1..] == v[i + 2..] && w[k - 1..] == v[k..]
      && w[i].start == v[i].start && w[i].taken == v[i].taken && w[k - 2].end == v[k - 1].end
  {
  }

  lemma Whole(v: seq<Interval>, i: nat)
    requires i < |v|
    ensures v[..i] + [Interval(v[i].start, v[i].end, v[i].taken)] + v[i + 1..] == v
  {
    assert v[i] == Interval(v[i].start, v[i].end, v[i].taken);
  }

  lemma {:induction false} MergedBackIs(v: seq<Interval>, i: nat)
    requires i < |v|
    ensures MergedBack(v, i) == (BackRow(v, RunStart(v, i), i), RunStart(v, i))
    decreases i
  {
    if i == 0 || v[i - 1].taken {
      Whole(v, i);
    } else {
      var w := AbsorbedPrev(v, i);
      var j := RunStart(v, i - 1);
      AbsorbedPrevAt(v, i, j);
      SameRunStart(v, w, i - 1);
      hide AbsorbedPrev;
      MergedBackIs(w, i - 1);
    }
  }

  lemma {:induction false} MergedForwardIs(v: seq<Interval>, i: nat)
    requires i < |v|
    ensures MergedForward(v, i) == ForwardRow(v, i, RunEnd(v, i))
    decreases |v|
  {
    if i + 1 == |v| || v[i + 1].taken {
      Whole(v, i);
    } else {
      ForwardOnce(v, i);
      hide AbsorbedNext, ForwardRow;
      MergedForwardIs(AbsorbedNext(v, i), i);
    }
  }

  lemma ForwardOnce(v: seq<Interval>, i: nat)
    requires i + 1 < |v| && !v[i + 1].taken
    ensures var w := AbsorbedNext(v, i);
      ForwardRow(w, i, RunEnd(w, i)) == ForwardRow(v, i, RunEnd(v, i))
  {
    var w := AbsorbedNext(v, i);
    var k := RunEnd(v, i + 1);
    assert RunEnd(v, i) == k;
    hide RunEnd;
    AbsorbedNextAt(v, i, k);
    SameRunEnd(v, i + 1, w, i);
    hide AbsorbedNext;
  }

  lemma {:induction false} SameRunStart(v: seq<Interval>, w: seq<Interval>, i: nat)
    requires i < |v| && i < |w| && v[..i] == w[..i]
    ensures RunStart(v, i) == RunStart(w, i)
  {
    if i > 0 {
      assert v[i - 1] == v[..i][i - 1] && w[i - 1] == w[..i][i - 1];
      assert v[..i - 1] == v[..i][..i - 1] && w[..i - 1] == w[..i][..i - 1];
      if !v[i - 1].taken { SameRunStart(v, w, i - 1); }
    }
  }

  lemma {:induction false} SameRunEnd(v: seq<Interval>, i: nat, w: seq<Interval>, j: nat)
    requires i < |v| && j < |w| && v[i + 1..] == w[j + 1..]
    ensures RunEnd(v, i) - i == RunEnd(w, j) - j
    decreases |v| - i
  {
    assert |v| - i == |w| - j;
    if i + 1 < |v| {
      assert v[i + 1] == v[i + 1..][0] && w[j + 1] == w[j + 1..][0];
      assert v[i + 2..] == v[i + 1..][1..] && w[j + 2..] == w[j + 1..][1..];
      if !v[i + 1].taken { SameRunEnd(v, i + 1, w, j + 1); }
    }
  }

  lemma BackThenForward(v: seq<Interval>, j: nat, i: nat, k: nat)
    requires j <= i < k <= |v|
    ensures var b := BackRow(Cleared(v, i), j, i);
      && j < |b| && b[j + 1..] == v[i + 1..]
      && ForwardRow(b, j, k - (i - j)) == v[..j] + [Interval(v[j].start, v[k - 1].end, false)] + v[k..]
  {
    var w := Cleared(v, i);
    var b := BackRow(w, j, i);
    var k' := k - (i - j);
    assert b[..j] == v[..j] && b[k'..] == v[k..];
    assert b[j] == Interval(v[j].start, v[i].end, false) && b[k' - 1].end == v[k - 1].end;
  }

  function Cleared(v: seq<Interval>, i: nat): (w: seq<Interval>)
    requires i < |v|
    ensures |w| == |v|
  {
    v[i := Interval(v[i].start, v[i].end, false)]
  }

  lemma ForwardRun(v: seq<Interval>, i: nat, b: seq<Interval>, j: nat)
    requires j <= i < |v| && j < |b| && b[j + 1..] == v[i + 1..]
    ensures MergedForward(b, j) == ForwardRow(b, j, RunEnd(v, i) - (i - j))
  {
    SameRunEnd(v, i, b, j);
    MergedForwardIs(b, j);
  }

  lemma ClearedRunStart(v: seq<Interval>, i: nat)
    requires i < |v|
    ensures RunStart(Cleared(v, i), i) == RunStart(v, i)
  {
    hide RunStart;
    assert Cleared(v, i)[..i] == v[..i];
    SameRunStart(v, Cleared(v, i), i);
  }

  /** Clearing the mark and merging both ways is freeing. */
  lemma FreedIs(v: seq<Interval>, i: nat)
    requires i < |v|
    ensures var (b, j) := MergedBack(Cleared(v, i), i);
      j == RunStart(v, i) && j < |b| && MergedForward(b, j) == Freed(v, i)
  {
    hide MergedBack, MergedForward, RunStart, RunEnd, BackRow, ForwardRow, Cleared;
    ClearedRunStart(v, i);
    MergedBackIs(Cleared(v, i), i);
    var j := RunStart(v, i);
    BackThenForward(v, j, i, RunEnd(v, i));
    ForwardRun(v, i, BackRow(Cleared(v, i), j, i), j);
  }

  /** Node `i` changes its interval and node `j` is taken out. */
  lemma ResizedUnlinked(ns: seq<Node>, ord: seq<nat>, i: nat, j: nat, n: Node)
    requires InPool(ns, ord) && Strung(ns, ord) && UsedIs(ns, ord) && i < |ord| && j < |ord|
    requires n.next == ns[ord[i]].next && n.prev == ns[ord[i]].prev && n.isUsed
    ensures var n1, v := ns[ord[i] := n], Spans(ns, ord)[i := Span(n)];
      var n2, o2 := Unlinked(n1, ord, j), Without(ord, j);
      InPool(n2, o2) && Strung(n2, o2) && UsedIs(n2, o2) && Spans(n2, o2) == v[..j] + v[j + 1..]
  {
    hide Strung, UsedIs, Spans, Unlinked, Without, Span;
    var n1 := ns[ord[i] := n];
    Resized(ns, ord, i, n);
    StrungNoDup(n1, ord);
    UnlinkStrung(n1, ord, j);
    UnlinkSpans(n1, ord, j);
    UnlinkUsed(n1, ord, j);
  }

  lemma AbsorbPrevFacts(ns: seq<Node>, ord: seq<nat>, i: nat)
    requires InPool(ns, ord) && Strung(ns, ord) && UsedIs(ns, ord) && 0 < i < |ord|
    ensures var n1 := ns[ord[i] := ns[ord[i]].(start := ns[ord[i - 1]].start)];
      var n2, o2, v := Unlinked(n1, ord, i - 1), Without(ord, i - 1), Spans(ns, ord);
      && InPool(n2, o2) && Strung(n2, o2) && UsedIs(n2, o2)
      && Spans(n2, o2) == AbsorbedPrev(v, i)
  {
    hide Strung, UsedIs, Spans, Unlinked, Without;
    Marked(ns, ord, i);
    SpanAt(ns, ord, i);
    SpanAt(ns, ord, i - 1);
    var n := ns[ord[i]].(start := ns[ord[i - 1]].start);
    ResizedUnlinked(ns, ord, i, i - 1, n);
    ReplaceThenDrop(Spans(ns, ord), i, i - 1, Span(n));
  }

  lemma ReplaceThenDrop(v: seq<Interval>, i: nat, j: nat, x: Interval)
    requires i < |v| && j < |v| && i != j
    ensures j == i - 1 ==> v[i := x][..j] + v[i := x][j + 1..] == v[..j] + [x] + v[i + 1..]
    ensures j == i + 1 ==> v[i := x][..j] + v[i := x][j + 1..] == v[..i] + [x] + v[j + 1..]
  {
  }

  lemma AbsorbNextFacts(ns: seq<Node>, ord: seq<nat>, i: nat)
    requires InPool(ns, ord) && Strung(ns, ord) && UsedIs(ns, ord) && i + 1 < |ord|
    ensures var n1 := ns[ord[i] := ns[ord[i]].(end := ns[ord[i + 1]].end)];
      var n2, o2, v := Unlinked(n1, ord, i + 1), Without(ord, i + 1), Spans(ns, ord);
      && InPool(n2, o2) && Strung(n2, o2) && UsedIs(n2, o2)
      && Spans(n2, o2) == AbsorbedNext(v, i)
  {
    hide Strung, UsedIs, Spans, Unlinked, Without;
    Marked(ns, ord, i);
    SpanAt(ns, ord, i);
    SpanAt(ns, ord, i + 1);
    var n := ns[ord[i]].(end := ns[ord[i + 1]].end);
    ResizedUnlinked(ns, ord, i, i + 1, n);
    ReplaceThenDrop(Spans(ns, ord), i, i + 1, Span(n));
  }

  lemma Marked(ns: seq<Node>, ord: seq<nat>, i: nat)
    requires UsedIs(ns, ord) && InPool(ns, ord) && i < |ord|
    ensures ns[ord[i]].isUsed
  {
    assert ord[i] in ord;
  }

  lemma SpanAt(ns: seq<Node>, ord: seq<nat>, i: nat)
    requires Strung(ns, ord) && i < |ord|
    ensures Spans(ns, ord)[i] == Span(ns[ord[i]])
  {
  }

  /** The three local changes add up to cutting the range out. */
  lemma Assemble(v: seq<Interval>, i: nat, virt: nat, len: nat, v1: seq<Interval>, k: nat, v2: seq<Interval>)
    requires i < |v| && k == i + |Left(v[i], virt)|
    requires v1 == v[..i] + Left(v[i], virt) + v[i..]
    requires v2 == v1[..k + 1] + Right(v[i], virt + len) + v1[k + 1..]
    ensures k < |v2| && v2[k := Interval(virt, virt + len, true)] == Taken(v, i, virt, len)
  {
    assert v1[..k + 1] == v[..i] + Left(v[i], virt) + [v[i]];
    assert v1[k + 1..] == v[i + 1..];
    assert v2[k := Interval(virt, virt + len, true)]
        == v[..i] + Left(v[i], virt) + [Interval(virt, virt + len, true)] + Right(v[i], virt + len) + v[i + 1..];
  }

  lemma StrungNoDup(ns: seq<Node>, ord: seq<nat>)
    requires Strung(ns, ord)
    ensures NoDup(ord)
  {
  }

  lemma KnotAt(ns: seq<Node>, ord: seq<nat>, i: nat)
    requires Strung(ns, ord) && i < |ord|
    ensures ns[ord[i]].prev == At(ord, i - 1) && ns[ord[i]].next == At(ord, i + 1)
    ensures i > 0 ==> ord[i - 1] != ord[i]
    ensures i + 1 < |ord| ==> ord[i + 1] != ord[i]
  {
    assert Knot(ns, ord, i);
  }

  /** The pool once a free node has been marked used but is not yet in the list. */
  lemma UsedButOne(ns: seq<Node>, ord: seq<nat>, x: nat)
    requires Strung(ns, ord) && UsedIs(ns, ord) && x < |ns| && x !in ord
    ensures var n' := ns[x := ns[x].(isUsed := true)];
      && Strung(n', ord) && Spans(n', ord) == Spans(ns, ord)
      && (forall y :: 0 <= y < |n'| && y != x ==> (n'[y].isUsed <==> y in ord))
  {
    var n' := ns[x := ns[x].(isUsed := true)];
    forall j: nat | j < |ord| ensures n'[ord[j]] == ns[ord[j]] { assert ord[j] in ord; }
    forall j: nat | j < |ord| ensures Knot(n', ord, j) { assert Knot(ns, ord, j); }
  }

  // ---------------------------------------------------------------- where it goes wrong

  /** In a fresh context whose first page is reserved, freeing the free rest reports an error. */
  method FreeRest() returns (c: VirtCtx, r: int)
    ensures r == -1 && c.Valid() && c.Intervals() == [Interval(0, PAGE, true), Interval(PAGE, LIMIT, false)]
  {
    c := new VirtCtx(1);
    ghost var v := c.Intervals();
    assert FirstStarting(v, PAGE) == 1 by { assert v[1..][0].start == PAGE; }
    FreeTwice(v, 1);
    PagesLost(0, false);
    r := c.Free(PAGE);
  }

  /** In the same context, a page at an unaligned address that cannot be mapped stays taken. */
  method UnalignedStays() returns (c: VirtCtx, r: nat)
    ensures r == 0 && c.Valid() && c.Intervals() != [Interval(0, PAGE, true), Interval(PAGE, LIMIT, false)]
  {
    c := new VirtCtx(1);
    ghost var v := c.Intervals();
    assert Holds(v[1], PAGE + 1, PAGE);
    r := c.MemAllocPagesAt(1, PAGE + 1, false);
  }

  /** And failing to map no pages at all frees a page that somebody else has taken. */
  method NothingFrees() returns (c: VirtCtx, r: nat)
    ensures r == 0 && c.Valid() && c.Intervals() == [Interval(0, PAGE, true), Interval(PAGE, LIMIT, false)]
  {
    c := new VirtCtx(1);
    ghost var v := c.Intervals();
    assert Holds(v[1], PAGE, PAGE);
    assert FirstHolding(v, PAGE, PAGE) == 1 by { assert v[1..][0] == v[1]; }
    TakeThenFree(v, 1, PAGE, PAGE);
    var status := c.TakeValid(PAGE, 1);
    r := c.MemAllocPagesAt(0, PAGE, false);
  }
}
