/** Laws of the queue operations, and of moving processes between queues. */
module ProcQueueLaws {
  import opened Base
  import opened ProcSpec

  // ---------------------------------------------------------------- one queue

  lemma {:induction false} RankSplits(o: Order, t: Table, xs: seq<Slot>, key: nat)
    requires Sorted(o, t, xs)
    ensures forall i :: 0 <= i < Rank(o, t, xs, key) ==> Key(o, t[xs[i]]) <= key
    ensures forall i :: Rank(o, t, xs, key) <= i < |xs| ==> Key(o, t[xs[i]]) > key
  {
    if xs != [] && Key(o, t[xs[0]]) <= key {
      RankSplits(o, t, xs[1..], key);
      forall i | 0 < i < |xs| ensures xs[i] == xs[1..][i - 1] {}
    }
  }

  /** Insertion keeps a queue sorted and is stable: the newcomer goes after every member whose key
      is not above its own, before every other, and nobody else changes place. */
  lemma InsertSorted(o: Order, t: Table, xs: seq<Slot>, p: Slot)
    requires Sorted(o, t, xs)
    ensures Sorted(o, t, Inserted(o, t, xs, p))
    ensures exists i ::
              && 0 <= i <= |xs|
              && Inserted(o, t, xs, p) == xs[..i] + [p] + xs[i..]
              && (forall j :: 0 <= j < i ==> Key(o, t[xs[j]]) <= Key(o, t[p]))
              && (forall j :: i <= j < |xs| ==> Key(o, t[xs[j]]) > Key(o, t[p]))
  {
    RankSplits(o, t, xs, Key(o, t[p]));
  }

  lemma {:induction false} FifoAppends(t: Table, xs: seq<Slot>, p: Slot)
    ensures Rank(Fifo, t, xs, 0) == |xs|
    ensures Inserted(Fifo, t, xs, p) == xs + [p]
  {
    if xs != [] { FifoAppends(t, xs[1..], p); }
  }

  lemma {:induction false} RankPut(o: Order, t: Table, t': Table, xs: seq<Slot>, key: nat)
    requires forall p: Slot :: Key(o, t[p]) == Key(o, t'[p])
    ensures Rank(o, t, xs, key) == Rank(o, t', xs, key)
  {
    if xs != [] { RankPut(o, t, t', xs[1..], key); }
  }

  lemma SpliceMembers(xs: seq<Slot>, i: nat, p: Slot)
    requires i <= |xs|
    ensures forall x: Slot :: x in Splice(xs, i, p) <==> x in xs || x == p
    ensures NoDup(xs) && p !in xs ==> NoDup(Splice(xs, i, p))
  {
    var ys := Splice(xs, i, p);
    forall x: Slot | x in xs ensures x in ys {
      var j :| 0 <= j < |xs| && xs[j] == x;
      assert ys[if j < i then j else j + 1] == x;
    }
    assert ys[i] == p;
  }

  lemma DropMembers(xs: seq<Slot>, i: nat)
    requires NoDup(xs) && i < |xs|
    ensures forall x: Slot :: x in xs[..i] + xs[i + 1..] <==> x in xs && x != xs[i]
  {
    var ys := xs[..i] + xs[i + 1..];
    forall x: Slot | x in xs && x != xs[i] ensures x in ys {
      var j :| 0 <= j < |xs| && xs[j] == x;
      assert ys[if j < i then j else j - 1] == x;
    }
    forall x: Slot | x in ys ensures x in xs && x != xs[i] {
      var j :| 0 <= j < |ys| && ys[j] == x;
      assert xs[if j < i then j else j + 1] == x;
    }
  }

  lemma RemoveMembers(xs: seq<Slot>, p: Slot)
    requires NoDup(xs) && p in xs
    ensures forall x: Slot :: x in Removed(xs, p) <==> x in xs && x != p
    ensures NoDup(Removed(xs, p))
    ensures |Removed(xs, p)| == |xs| - 1
    ensures exists i :: 0 <= i < |xs| && xs[i] == p && Removed(xs, p) == xs[..i] + xs[i + 1..]
  {
    DropMembers(xs, IndexOf(xs, p));
    assert xs[IndexOf(xs, p)] == p;
  }

  lemma RemoveSorted(o: Order, t: Table, xs: seq<Slot>, p: Slot)
    requires Sorted(o, t, xs)
    ensures Sorted(o, t, Removed(xs, p))
  {
  }

  lemma RemoveFirst(xs: seq<Slot>)
    requires xs != []
    ensures Removed(xs, xs[0]) == xs[1..]
  {
  }

  // ---------------------------------------------------------------- all queues

  /** Every process outside `f` is in the queue its state names and in no other; those in `f` are
      between two queues, hence in none. */
  ghost predicate Placed(t: Table, q: Queues, f: set<Slot>) {
    forall p: Slot, k: Qid :: p in q[k] <==> p !in f && Home(t[p]) == k
  }

  ghost predicate NoDups(q: Queues) {
    forall k: Qid :: NoDup(q[k])
  }

  ghost predicate AllSorted(t: Table, q: Queues) {
    forall k: Qid :: Sorted(OrderOf(k), t, q[k])
  }

  ghost predicate Filed(t: Table, q: Queues, f: set<Slot>) {
    Placed(t, q, f) && NoDups(q) && AllSorted(t, q)
  }

  ghost predicate SameFile(a: Pcb, b: Pcb) {
    Home(a) == Home(b) && a.pid == b.pid && a.priority == b.priority && a.wakeup == b.wakeup
  }

  /** Changing fields that neither the place nor the order depends on, or any field of a process
      that is in no queue, disturbs no queue. */
  lemma Refile(t: Table, t': Table, q: Queues, f: set<Slot>)
    requires Filed(t, q, f)
    requires forall p: Slot :: p !in f ==> SameFile(t[p], t'[p])
    ensures Filed(t', q, f)
  {
    forall k: Qid ensures Sorted(OrderOf(k), t', q[k]) {
      forall i | 0 <= i < |q[k]| ensures SameFile(t[q[k][i]], t'[q[k][i]]) {
        assert q[k][i] in q[k];
      }
    }
  }

  lemma Float(t: Table, q: Queues, f: set<Slot>, p: Slot)
    requires Home(t[p]) == NULL
    ensures Filed(t, q, f) <==> Filed(t, q, f + {p})
  {
  }

  lemma NotLinked(t: Table, q: Queues, f: set<Slot>, p: Slot)
    requires Placed(t, q, f) && p in f
    ensures !Linked(q, p)
  {
    forall k: Qid, i: nat | i + 1 < |q[k]| ensures q[k][i] != p {
      assert q[k][i] in q[k];
    }
  }

  lemma EnqueueFiles(s: Sys, k: Qid, p: Slot, f: set<Slot>)
    requires Filed(s.t, s.q, f) && p in f && Home(s.t[p]) == k
    ensures Enqueue(s, k, p) == Ok(s.(q := s.q[k := Inserted(OrderOf(k), s.t, s.q[k], p)]))
    ensures Filed(s.t, Enqueue(s, k, p).value.q, f - {p})
  {
    NotLinked(s.t, s.q, f, p);
    SpliceMembers(s.q[k], Rank(OrderOf(k), s.t, s.q[k], Key(OrderOf(k), s.t[p])), p);
    InsertSorted(OrderOf(k), s.t, s.q[k], p);
    assert p !in s.q[k];
  }

  lemma UnqueueFloats(t: Table, q: Queues, k: Qid, p: Slot, f: set<Slot>)
    requires Filed(t, q, f) && p in q[k]
    ensures Filed(t, q[k := Removed(q[k], p)], f + {p})
  {
    assert NoDup(q[k]) && Sorted(OrderOf(k), t, q[k]);
    RemoveMembers(q[k], p);
    RemoveSorted(OrderOf(k), t, q[k], p);
  }

  lemma ScheduleFiles(s: Sys, p: Slot, f: set<Slot>)
    requires Filed(s.t, s.q, f) && p in f
    requires !s.t[p].state.Unused? && !s.t[p].state.Zombie?
    ensures var t' := s.t[p := s.t[p].(state := Ready, syscall := 0)];
      var q' := s.q[READY := Inserted(Prio, t', s.q[READY], p)];
      Schedule(s, p) == Ok(s.(t := t', q := q', log := s.log + [Arrive(p, s.t[p].priority)]))
      && Filed(t', q', f - {p})
  {
    var s1 := s.Put(p, s.t[p].(state := Ready, syscall := 0));
    Refile(s.t, s1.t, s.q, f);
    EnqueueFiles(s1, READY, p, f);
  }

  lemma FreeFiles(s: Sys, p: Slot, f: set<Slot>)
    requires Filed(s.t, s.q, f) && p in f
    ensures var t' := s.t[p := s.t[p].(state := Unused)];
      var q' := s.q[FREE := s.q[FREE] + [p]];
      Free(s, p) == Ok(s.(t := t', q := q')) && Filed(t', q', f - {p})
  {
    var s1 := s.Put(p, s.t[p].(state := Unused));
    Refile(s.t, s1.t, s.q, f);
    EnqueueFiles(s1, FREE, p, f);
    FifoAppends(s1.t, s1.q[FREE], p);
  }
}
