/** The process module itself: the table, the links and the queue heads, changed in place.  Each
    method computes the function of the same purpose in ProcSpec on the abstract state. */
module ProcKernel {
  import opened Base
  import opened ProcSpec
  import opened ProcQueueLaws
  import opened ProcInv
  import opened ProcSteps
  import opened ProcForkKill
  import opened ProcRuns
  import opened ProcLinks

  const SUCCESS := 0
  const E_BAD_PARAM := -2
  const E_NOT_FOUND := -6
  const E_EMPTY_QUEUE := -100

  /** `next` is the queue linkage field of the process table, kept as an array of its own. */
  class Kernel {
    const ptable: array<Pcb>
    const next: array<Ptr>
    const queues: array<QueueHead>
    var current: Ptr
    var init: Slot
    var nextPid: nat
    var ticks: nat
    ghost var lists: Queues
    ghost var log: seq<Sched>

    ghost predicate Shape() {
      ptable.Length == 256 && next.Length == 256 && queues.Length == 27
    }

    ghost function Abs(): Sys
      requires Shape()
      reads this, ptable
    {
      Sys(ptable[..], lists, current, init, nextPid, ticks, log)
    }

    /** The links represent the sequences in `lists`. */
    ghost predicate Threaded()
      reads this, next, queues
    {
      Shape() && Chains(next[..], queues[..], lists) && Unlinked(next[..], lists)
    }

    ghost predicate Linkage()
      reads this, next, queues
    {
      Threaded() && Orders(queues[..]) == seq(27, k requires 0 <= k < 27 => OrderOf(k))
    }

    ghost predicate Valid()
      reads this, next, queues
    {
      Linkage() && Disjoint(lists)
    }

    lemma OrderFixed(k: Qid)
      requires Linkage()
      ensures queues[k].order == OrderOf(k)
    {
      assert Orders(queues[..])[k] == OrderOf(k);
    }

    // -------------------------------------------------------------- queues

    /** find_prev_wakeup, find_prev_priority and find_prev_pid: the last member of the queue, from
        the front, before the first whose key is above that of `p`. */
    method FindPrev(k: Qid, p: Slot) returns (prev: Ptr)
      requires Threaded()
      ensures var o := queues[k].order;
        var r := Rank(o, ptable[..], lists[k], Key(o, ptable[p]));
        prev == if r == 0 then NULL else lists[k][r - 1]
    {
      var o := queues[k].order;
      var curr := queues[k].head;
      prev := NULL;
      ghost var xs := lists[k];
      ghost var i: nat := 0;
      assert Chain(next[..], queues[..][k], xs);
      while curr != NULL && Key(o, ptable[curr]) <= Key(o, ptable[p])
        invariant i <= |xs|
        invariant prev == if i == 0 then NULL else xs[i - 1]
        invariant curr == if i < |xs| then xs[i] else NULL
        invariant Rank(o, ptable[..], xs, Key(o, ptable[p])) == i + Rank(o, ptable[..], xs[i..], Key(o, ptable[p]))
        decreases |xs| - i
      {
        assert xs[i..][1..] == xs[i + 1..];
        ChainLink(next[..], queues[..][k], xs, i);
        prev := curr;
        curr := next[curr];
        i := i + 1;
      }
    }

    /** A PCB that is refused, is in no queue, or belongs at the end of a queue it is not in. */
    ghost predicate Fits(k: Qid, p: Slot)
      requires Shape()
      reads this, ptable, queues
    {
      var o, xs := queues[k].order, lists[k];
      Linked(lists, p) || Loose(lists, p) || (p !in xs && Rank(o, ptable[..], xs, Key(o, ptable[p])) == |xs|)
    }

    /** For any of the four orders: a PCB whose link is set is refused and nothing changes; otherwise
        it goes to its place in the order of the queue.  The links then represent the queues again, with
        no other queue changed, if the PCB was in no queue.  A PCB that ends another queue has no link
        either: at the end of this queue the two come to share it, anywhere else the other queue runs on
        into this one. */
    method QueueInsert(k: Qid, p: Slot) returns (status: int)
      requires Threaded() && Disjoint(lists)
      modifies this`lists, next, queues
      ensures Orders(queues[..]) == Orders(old(queues[..]))
      ensures status == if Linked(old(lists), p) then E_BAD_PARAM else SUCCESS
      ensures status == SUCCESS ==>
        var o, xs := old(queues[k]).order, old(lists)[k];
        var i := Rank(o, ptable[..], xs, Key(o, ptable[p]));
        && next[..] == SplicedLinks(old(next[..]), xs, i, p)
        && queues[..] == old(queues[..])[k := SplicedHead(old(queues[k]), xs, i, p)]
      ensures old(Fits(k, p)) ==> Threaded() && (old(Loose(lists, p)) ==> Disjoint(lists))
      ensures status == SUCCESS ==>
        lists == old(lists)[k := Inserted(old(queues[k]).order, ptable[..], old(lists)[k], p)]
      ensures status != SUCCESS ==> lists == old(lists) && next[..] == old(next[..]) && queues[..] == old(queues[..])
    {
      hide Linked, Chains, Unlinked, Disjoint, SplicedLinks, Splice, Rank;
      ghost var nx: Links, hs: Heads, q := next[..], queues[..], lists;
      LinkedIff(nx, hs, q, p);
      if next[p] != NULL {
        return E_BAD_PARAM;
      }
      ghost var xs := q[k];
      ghost var o := queues[k].order;
      ghost var i := Rank(o, ptable[..], xs, Key(o, ptable[p]));
      LinkIn(k, p);
      lists := q[k := Splice(xs, i, p)];
      if p !in xs && (i < |xs| ==> Loose(q, p)) {
        InsertFacts(nx, hs, q, k, i, p);
      }
      return SUCCESS;
    }

    /** The links and the queue's head and tail with `p` in its place. */
    method LinkIn(k: Qid, p: Slot)
      requires Threaded() && next[p] == NULL
      modifies next, queues
      ensures var o, xs := old(queues[k]).order, lists[k];
        var i := Rank(o, ptable[..], xs, Key(o, ptable[p]));
        && next[..] == SplicedLinks(old(next[..]), xs, i, p)
        && queues[..] == old(queues[..])[k := SplicedHead(old(queues[k]), xs, i, p)]
    {
      hide Chains, Unlinked;
      ghost var nx: Links, hs: Heads, xs := next[..], queues[..], lists[k];
      ghost var i := Rank(queues[k].order, ptable[..], xs, Key(queues[k].order, ptable[p]));
      ChainOf(nx, hs, lists, k);
      if queues[k].head == NULL {
        queues[k] := queues[k].(head := p, tail := p);
      } else {
        var prev: Ptr;
        if queues[k].order.Fifo? {
          FifoAppends(ptable[..], xs, p);
          prev := queues[k].tail;
        } else {
          prev := FindPrev(k, p);
        }
        if prev == NULL {
          next[p] := queues[k].head;
          queues[k] := queues[k].(head := p);
        } else if next[prev] == NULL {
          ChainLink(nx, hs[k], xs, i - 1);
          next[prev] := p;
          queues[k] := queues[k].(tail := p);
        } else {
          ChainLink(nx, hs[k], xs, i - 1);
          next[p] := next[prev];
          next[prev] := p;
        }
      }
      assert next[..] == SplicedLinks(nx, xs, i, p);
      assert queues[..] == hs[k := SplicedHead(hs[k], xs, i, p)];
    }

    method QueuePop(k: Qid) returns (status: int, p: Ptr)
      requires Threaded() && Disjoint(lists)
      modifies this`lists, next, queues
      ensures Threaded() && Disjoint(lists) && Orders(queues[..]) == Orders(old(queues[..]))
      ensures status == if old(lists)[k] == [] then E_EMPTY_QUEUE else SUCCESS
      ensures status == SUCCESS ==>
        p == old(lists)[k][0] && lists == old(lists)[k := old(lists)[k][1..]] && Loose(lists, p)
      ensures status != SUCCESS ==>
        p == NULL && lists == old(lists) && next[..] == old(next[..]) && queues[..] == old(queues[..])
    {
      hide Chains, Unlinked, Disjoint, Linked;
      ghost var nx: Links, hs: Heads, q := next[..], queues[..], lists;
      ChainOf(nx, hs, q, k);
      if queues[k].head == NULL {
        return E_EMPTY_QUEUE, NULL;
      }
      p := queues[k].head;
      ChainLink(nx, hs[k], q[k], 0);
      queues[k] := queues[k].(head := next[p]);
      next[p] := NULL;
      if queues[k].head == NULL {
        queues[k] := queues[k].(tail := NULL);
      }
      lists := q[k := q[k][1..]];
      assert q[k][1..] == Cut(q[k], 0);
      assert next[..] == CutLinks(nx, q[k], 0);
      assert queues[..] == hs[k := CutHead(nx, hs[k], q[k], 0)];
      CutFacts(nx, hs, q, k, 0);
      status := SUCCESS;
    }

    /** The search loop of the removal: `p` and its predecessor, or NULL if the queue lacks `p`. */
    method FindLink(k: Qid, p: Slot) returns (prev: Ptr, curr: Ptr)
      requires Threaded() && Disjoint(lists) && lists[k] != []
      ensures curr == if p in lists[k] then p else NULL
      ensures p in lists[k] ==> var i := IndexOf(lists[k], p); prev == if i == 0 then NULL else lists[k][i - 1]
    {
      ghost var xs := lists[k];
      ghost var i: nat := 0;
      assert Chain(next[..], queues[..][k], xs);
      prev, curr := NULL, queues[k].head;
      while curr != NULL && curr != p
        invariant i <= |xs|
        invariant prev == if i == 0 then NULL else xs[i - 1]
        invariant curr == if i < |xs| then xs[i] else NULL
        invariant p !in xs[..i]
        decreases |xs| - i
      {
        ChainLink(next[..], queues[..][k], xs, i);
        assert xs[..i + 1] == xs[..i] + [xs[i]];
        prev := curr;
        curr := next[curr];
        i := i + 1;
      }
      if curr == NULL {
        assert xs[..i] == xs;
      } else {
        FirstAt(xs, p, i);
      }
    }

    /** Deletes exactly the named PCB, or reports that it is not there and changes nothing. */
    method QueueRemove(k: Qid, p: Slot) returns (status: int)
      requires Threaded() && Disjoint(lists)
      modifies this`lists, next, queues
      ensures Threaded() && Disjoint(lists) && Orders(queues[..]) == Orders(old(queues[..]))
      ensures status == if old(lists)[k] == [] then E_EMPTY_QUEUE
                        else if p in old(lists)[k] then SUCCESS
                        else E_NOT_FOUND
      ensures status == SUCCESS ==> lists == old(lists)[k := Removed(old(lists)[k], p)] && Loose(lists, p)
      ensures LooseKept(old(lists), lists, p)
      ensures status != SUCCESS ==> lists == old(lists) && next[..] == old(next[..]) && queues[..] == old(queues[..])
    {
      hide Chains, Unlinked, Disjoint, Linked;
      ghost var nx: Links, hs: Heads, q := next[..], queues[..], lists;
      ghost var xs := q[k];
      ChainOf(nx, hs, q, k);
      if queues[k].head == NULL {
        return E_EMPTY_QUEUE;
      }
      var prev, curr := FindLink(k, p);
      if curr == NULL {
        return E_NOT_FOUND;
      }
      ghost var i := IndexOf(xs, p);
      ChainLink(nx, hs[k], xs, i);
      LinkOut(k, prev, curr, xs, i);
      lists := q[k := Cut(xs, i)];
      CutFacts(nx, hs, q, k, i);
      assert LooseKept(q, lists, p);
      status := SUCCESS;
    }

    /** The links and the queue's head and tail without member `i`. */
    method LinkOut(k: Qid, prev: Ptr, curr: Slot, ghost xs: seq<Slot>, ghost i: nat)
      requires Shape() && Chain(next[..], queues[k], xs) && i < |xs| && curr == xs[i]
      requires prev == if i == 0 then NULL else xs[i - 1]
      modifies next, queues
      ensures next[..] == CutLinks(old(next[..]), xs, i)
      ensures queues[..] == old(queues[..])[k := CutHead(old(next[..]), old(queues[k]), xs, i)]
    {
      ChainLink(next[..], queues[k], xs, i);
      if prev != NULL {
        next[prev] := next[curr];
      } else {
        queues[k] := queues[k].(head := next[curr]);
      }
      if next[curr] == NULL {
        queues[k] := queues[k].(tail := prev);
      }
      next[curr] := NULL;
    }

    // -------------------------------------------------------------- processes

    method PcbFree(p: Slot) returns (ok: bool)
      requires Valid() && p !in lists[FREE]
      modifies this`lists, ptable, next, queues
      ensures Linkage() && (old(Loose(lists, p)) ==> Valid())
      ensures ok == Free(old(Abs()), p).Ok?
      ensures ok ==> Abs() == Free(old(Abs()), p).value && LooseKept(old(lists), lists, p)
    {
      hide Chains, Unlinked, Disjoint, SplicedLinks, SplicedHead, Rank, Loose;
      ghost var q := lists;
      ptable[p] := ptable[p].(state := Unused);
      OrderFixed(FREE);
      FifoAppends(ptable[..], lists[FREE], p);
      var status := QueueInsert(FREE, p);
      ok := status == SUCCESS;
      if ok { LooseInserted(q, FREE, p, ptable[..], OrderOf(FREE)); }
    }

    /** The first free entry, with the next pid, or NULL. */
    method PcbAlloc() returns (p: Ptr)
      requires Valid()
      modifies this`lists, this`nextPid, ptable, next, queues
      ensures Valid() && (p == NULL <==> old(lists)[FREE] == [])
      ensures p == NULL ==> Abs() == old(Abs())
      ensures p != NULL ==>
        var s := old(Abs());
        && p == s.q[FREE][0] && Loose(lists, p)
        && Abs() == s.Put(p, s.t[p].(pid := s.nextPid, state := New))
                     .(q := s.q[FREE := s.q[FREE][1..]], nextPid := (s.nextPid + 1) % PID_MOD)
    {
      hide Chains, Unlinked, Disjoint, Loose;
      var status;
      status, p := QueuePop(FREE);
      if status != SUCCESS {
        return NULL;
      }
      ptable[p] := ptable[p].(pid := nextPid, state := New);
      nextPid := (nextPid + 1) % PID_MOD;
    }

    method PcbSchedule(p: Slot) returns (ok: bool)
      requires Valid() && Loose(lists, p)
      modifies this`lists, this`log, ptable, next, queues
      ensures Valid()
      ensures ok == Schedule(old(Abs()), p).Ok?
      ensures ok ==> Abs() == Schedule(old(Abs()), p).value && LooseKept(old(lists), lists, p)
    {
      ghost var q := lists;
      if ptable[p].state.Unused? || ptable[p].state.Zombie? {
        return false;
      }
      LooseNotLinked(lists, p);
      ghost var prio := ptable[p].priority;
      ptable[p] := ptable[p].(state := Ready, syscall := 0);
      OrderFixed(READY);
      var status := QueueInsert(READY, p);
      log := log + [Arrive(p, prio)];
      ok := status == SUCCESS;
      LooseInserted(q, READY, p, ptable[..], OrderOf(READY));
    }

    /** One pass of the dispatcher's loop. */
    method PcbDispatch() returns (ok: bool)
      requires Valid()
      modifies this`lists, this`log, this`current, ptable, next, queues
      ensures Valid()
      ensures ok == Dispatch(old(Abs())).Ok?
      ensures ok ==> Abs() == Dispatch(old(Abs())).value
    {
      if current != NULL {
        return false;
      }
      var status, p := QueuePop(READY);
      if status == SUCCESS {
        current := p;
        ptable[p] := ptable[p].(state := Running, ticks := TICKS_PER_PROCESS, syscall := 0);
        log := log + [Run(p)];
      }
      ok := true;
    }

    /** The reparenting loop: the victim's children go to init; the last zombie among them. */
    method Reparent(v: Slot) returns (z: Ptr)
      requires Shape()
      modifies ptable
      ensures ptable[..] == Reparented(old(ptable[..]), v, init)
      ensures z == LastZombie(old(ptable[..]), v, 256)
    {
      ghost var t: Table := ptable[..];
      z := NULL;
      var i := 0;
      while i < 256
        invariant 0 <= i <= 256
        invariant z == LastZombie(t, v, i)
        invariant forall j :: 0 <= j < i ==> ptable[j] == Reparented(t, v, init)[j]
        invariant forall j :: i <= j < 256 ==> ptable[j] == t[j]
      {
        if !ptable[i].state.Unused? && ptable[i].parent == v {
          ptable[i] := ptable[i].(parent := init);
          if ptable[i].state.Zombie? {
            z := i;
          }
        }
        i := i + 1;
      }
    }

    /** init's pending waitpid collects the zombie `z`; `v` is the process dying meanwhile. */
    method AdoptZombie(z: Slot, ghost v: Slot) returns (ok: bool)
      requires Valid() && Loose(lists, v)
      modifies this`lists, this`log, ptable, next, queues
      ensures ok == Adopt(old(Abs()), z).Ok?
      ensures ok ==> Valid() && Abs() == Adopt(old(Abs()), z).value && Loose(lists, v)
    {
      hide Chains, Unlinked, Disjoint, Loose, Schedule, Free;
      ghost var s := Abs();
      LooseApart(lists, v);
      var status := QueueRemove(ZOMBIE, z);
      if status != SUCCESS {
        return false;
      }
      LooseApart(lists, z);
      status := QueueRemove(WAITING, init);
      if status != SUCCESS {
        return false;
      }
      assert Abs() == s.Unqueue(ZOMBIE, z).Unqueue(WAITING, init);
      if Accepts(ptable[init], ptable[z]) {
        ptable[init] := Collected(ptable[init], ptable[z]);
        ok := PcbSchedule(init);
        if !ok {
          return;
        }
      }
      LooseOut(lists, z);
      ok := PcbFree(z);
    }

    method BuryVictim(parent: Slot, v: Slot) returns (ok: bool)
      requires Valid() && Loose(lists, v)
      modifies this`lists, this`log, ptable, next, queues
      ensures ok == Bury(old(Abs()), parent, v).Ok?
      ensures ok ==> Valid() && Abs() == Bury(old(Abs()), parent, v).value
    {
      hide Chains, Unlinked, Disjoint, Loose, Schedule, Free;
      ghost var s := Abs();
      LooseApart(lists, v);
      var status;
      if ptable[parent].syscall == SYS_waitpid && Accepts(ptable[parent], ptable[v]) {
        ptable[parent] := Collected(ptable[parent], ptable[v]);
        status := QueueRemove(WAITING, parent);
        if status != SUCCESS {
          return false;
        }
        assert Abs() == s.Put(parent, Collected(s.t[parent], s.t[v])).Unqueue(WAITING, parent);
        ok := PcbSchedule(parent);
        if !ok {
          return;
        }
        LooseOut(lists, v);
        ok := PcbFree(v);
      } else {
        LooseNotLinked(lists, v);
        ptable[v] := ptable[v].(state := Zombie);
        OrderFixed(ZOMBIE);
        status := QueueInsert(ZOMBIE, v);
        ok := status == SUCCESS;
      }
    }

    method PcbZombify(v: Slot) returns (ok: bool)
      requires Valid() && Loose(lists, v)
      modifies this`lists, this`log, ptable, next, queues
      ensures ok == Zombify(old(Abs()), v).Ok?
      ensures ok ==> Valid() && Abs() == Zombify(old(Abs()), v).value
    {
      hide Adopt, Bury, Chains, Unlinked, Disjoint, Loose;
      if ptable[v].pid == 1 || ptable[v].parent == NULL {
        return false;
      }
      var parent: Slot := ptable[v].parent;
      var z := Reparent(v);
      if z != NULL && ptable[init].syscall == SYS_waitpid {
        ok := AdoptZombie(z, v);
        if !ok {
          return;
        }
      }
      ok := BuryVictim(parent, v);
    }

    // -------------------------------------------------------------- the timer

    method QueuePeek(k: Qid) returns (p: Ptr)
      requires Valid()
      ensures p == if lists[k] == [] then NULL else lists[k][0]
    {
      assert Chain(next[..], queues[..][k], lists[k]);
      p := queues[k].head;
    }

    /** The waking loop: one sleeper after the other, until the first is not due. */
    method Wake() returns (ok: bool)
      requires Valid()
      modifies this`lists, this`log, ptable, next, queues
      ensures ok == WakeSleepers(old(Abs())).Ok?
      ensures ok ==> Valid() && Abs() == WakeSleepers(old(Abs())).value
    {
      hide Chains, Unlinked, Disjoint, Loose, Schedule, WakeSleepers, Removed;
      ghost var s0 := Abs();
      while true
        invariant Valid()
        invariant WakeSleepers(s0) == WakeSleepers(Abs())
        decreases |lists[SLEEPING]|
      {
        ghost var s := Abs();
        var p := QueuePeek(SLEEPING);
        if p == NULL || ptable[p].wakeup >= ticks {
          WakeNone(s);
          return true;
        }
        RemoveFirst(lists[SLEEPING]);
        WakeOne(s, next[..], queues[..]);
        var status := QueueRemove(SLEEPING, p);
        ghost var s1 := Abs();
        assert s1 == s.(q := s.q[SLEEPING := s.q[SLEEPING][1..]]);
        ok := PcbSchedule(p);
        if !ok {
          return;
        }
        ScheduleSleepers(s1, p);
      }
    }

    /** The timer interrupt. */
    method TimerTick() returns (ok: bool)
      requires Valid() && Inv(Abs())
      modifies this, ptable, next, queues
      ensures ok == OnTick(old(Abs())).Ok?
      ensures ok ==> Valid() && Abs() == OnTick(old(Abs())).value
    {
      hide Inv, Chains, Unlinked, Disjoint, WakeSleepers, ChargeTick;
      ghost var s := Abs();
      ticks := (ticks + 1) % U64;
      ClockKeeps(s, ticks);
      WakeKeeps(Abs());
      ok := Wake();
      if current != NULL { RunnerLoose(Abs()); }
      ok := Charge();
    }

    method Charge() returns (ok: bool)
      requires Valid() && (current != NULL ==> Loose(lists, current))
      modifies this, ptable, next, queues
      ensures ok == ChargeTick(old(Abs())).Ok?
      ensures ok ==> Valid() && Abs() == ChargeTick(old(Abs())).value
    {
      hide Chains, Unlinked, Disjoint, Loose, Schedule, Dispatch;
      if current != NULL {
        ptable[current] := ptable[current].(ticks := Decrement(ptable[current].ticks));
        if ptable[current].ticks < 1 {
          ok := PcbSchedule(current);
          if !ok {
            return;
          }
          current := NULL;
          ok := PcbDispatch();
          return;
        }
      }
      ok := true;
    }

    // -------------------------------------------------------------- system calls

    method SysExit(c: Slot, code: nat) returns (ok: bool)
      requires Valid() && Mid(Abs(), c, {c})
      modifies this, ptable, next, queues
      ensures ok == DoExit(old(Abs()), c, code).Ok?
      ensures ok ==> Valid() && Abs() == DoExit(old(Abs()), c, code).value
    {
      hide Mid, Chains, Unlinked, Disjoint, Loose, Zombify, Dispatch;
      MidLoose(Abs(), c, {c}, c);
      ptable[c] := ptable[c].(exitStatus := code % 256);
      ok := PcbZombify(c);
      if !ok {
        return;
      }
      ok := PcbDispatch();
    }

    /** Back in the handler after a call that returns. */
    method SysReturn(c: Slot, r: int)
      requires Linkage()
      modifies this`current, ptable
      ensures Abs() == Return(old(Abs()), c, r)
    {
      if r != 0 {
        ptable[c] := ptable[c].(ret := r);
      }
      ptable[c] := ptable[c].(syscall := 0);
      current := c;
    }

    method FindZombieChild(c: Slot, want: nat) returns (z: Ptr)
      requires Shape()
      ensures z == FirstMatch(ptable[..], c, want, 0)
    {
      var i := 0;
      while i < 256
        invariant 0 <= i <= 256
        invariant FirstMatch(ptable[..], c, want, 0) == FirstMatch(ptable[..], c, want, i)
      {
        if ptable[i].state.Zombie? && ptable[i].parent == c && (want == 0 || want == ptable[i].pid) {
          return i;
        }
        i := i + 1;
      }
      return NULL;
    }

    method SysWaitpid(c: Slot, pid: nat) returns (ok: bool)
      requires Valid() && Mid(Abs(), c, {c}) && Caller(Abs(), c)
      modifies this, ptable, next, queues
      ensures ok == DoWaitpid(old(Abs()), c, pid).Ok?
      ensures ok ==> Abs() == DoWaitpid(old(Abs()), c, pid).value
      ensures ok && FirstMatch(old(ptable[..]), c, pid % PID_MOD, 0) == NULL ==> Valid()
    {
      hide Mid, Chains, Unlinked, Disjoint, Loose, Free, Dispatch, Inserted;
      ghost var s := Abs();
      var z := FindZombieChild(c, pid % PID_MOD);
      if z != NULL {
        if ptable[c].arg2 == 0 {
          return false;
        }
        ZombieNotFree(s, c, {c}, z);
        ptable[c] := ptable[c].(status := ptable[z].exitStatus);
        ok := PcbFree(z);
        if ok {
          assert ptable[z].pid == s.t[z].pid by { FreePid(s.Put(c, s.t[c].(status := s.t[z].exitStatus)), z); }
          SysReturn(c, ptable[z].pid);
        }
      } else {
        MidLoose(s, c, {c}, c);
        LooseNotLinked(lists, c);
        ptable[c] := ptable[c].(state := Blocked);
        OrderFixed(WAITING);
        var status := QueueInsert(WAITING, c);
        ok := PcbDispatch();
      }
    }

    /** fork, with user_clone and pcb_alloc. */
    method SysFork(c: Slot, cloned: bool) returns (ok: bool)
      requires Valid() && Mid(Abs(), c, {c})
      modifies this, ptable, next, queues
      ensures ok == DoFork(old(Abs()), c, cloned).Ok?
      ensures ok ==> Valid() && Abs() == DoFork(old(Abs()), c, cloned).value
    {
      hide Chains, Unlinked, Disjoint, Schedule, Filed, Mid, Loose;
      ghost var s := Abs();
      MidLoose(s, c, {c}, c);
      LooseOut(s.q, c);
      var ch := PcbAlloc();
      if ch == NULL {
        SysReturn(c, -1);
        return true;
      }
      ptable[ch] := ptable[ch].(arg1 := ptable[c].arg1, arg2 := ptable[c].arg2, ret := ptable[c].ret);
      assert Abs() == Alloced(s, c, ch);
      if !cloned {
        SysReturn(c, -1);
        return true;
      }
      ptable[ch] := ptable[ch].(parent := c, state := Ready, priority := ptable[c].priority, ticks := 0);
      ptable[ch] := ptable[ch].(ret := 0);
      ptable[c] := ptable[c].(ret := ptable[ch].pid);
      assert Abs() == Born(s, c, ch);
      ok := PcbSchedule(ch);
      if ok {
        SysReturn(c, 0);
      }
    }

    method SysSetprio(c: Slot, prio: nat)
      requires Linkage()
      modifies this`current, ptable
      ensures Abs() == DoSetprio(old(Abs()), c, prio)
    {
      ptable[c] := ptable[c].(ret := ptable[c].priority);
      ptable[c] := ptable[c].(priority := prio % 0x1_0000_0000);
      SysReturn(c, 0);
    }

    method SysSleep(c: Slot, ms: nat) returns (ok: bool)
      requires Valid() && Mid(Abs(), c, {c})
      modifies this, ptable, next, queues
      ensures ok == DoSleep(old(Abs()), c, ms).Ok?
      ensures ok ==> Valid() && Abs() == DoSleep(old(Abs()), c, ms).value
    {
      hide Mid, Chains, Unlinked, Disjoint, Loose, Schedule, Dispatch, Inserted, Linked;
      ghost var s := Abs();
      MidLoose(s, c, {c}, c);
      LooseNotLinked(lists, c);
      if ms == 0 {
        ptable[c] := ptable[c].(ret := 0);
        ok := PcbSchedule(c);
        if ok {
          ok := PcbDispatch();
        }
        return;
      }
      ptable[c] := ptable[c].(wakeup := (ticks + ms) % U64);
      OrderFixed(SLEEPING);
      var status := QueueInsert(SLEEPING, c);
      ptable[c] := ptable[c].(state := Blocked);
      ok := PcbDispatch();
    }

    /** exec; `loaded` says whether the program was found and loaded into the caller's PCB, which is put back
        as it was otherwise. */
    method SysExec(c: Slot, loaded: bool, argc: nat) returns (ok: bool)
      requires Valid() && Mid(Abs(), c, {c})
      modifies this, ptable, next, queues
      ensures ok == DoExec(old(Abs()), c, loaded, argc).Ok?
      ensures ok ==> Valid() && Abs() == DoExec(old(Abs()), c, loaded, argc).value
    {
      hide Mid, Chains, Unlinked, Disjoint, Loose, Schedule, Dispatch;
      if !loaded {
        SysReturn(c, 1);
        return true;
      }
      MidLoose(Abs(), c, {c}, c);
      ptable[c] := ptable[c].(arg1 := argc, arg2 := 0, ret := 0);
      ok := PcbSchedule(c);
      if ok {
        ok := PcbDispatch();
      }
    }

    method PcbFindPid(pid: nat) returns (p: Ptr)
      requires Shape()
      ensures p == Lookup(ptable[..], pid)
    {
      if pid < 1 {
        return NULL;
      }
      var i := 0;
      while i < 256
        invariant 0 <= i <= 256
        invariant FindPid(ptable[..], pid, 0) == FindPid(ptable[..], pid, i)
      {
        if ptable[i].pid == pid && !ptable[i].state.Unused? {
          return i;
        }
        i := i + 1;
      }
      return NULL;
    }

    /** The walk up the parent links; it ends because pids fall on the way. */
    method IsOwned(v: Slot, pid: nat) returns (b: bool)
      requires Shape() && Family(ptable[..], init, nextPid) && Live(ptable[v])
      ensures b == Owned(ptable[..], pid, v)
    {
      var parent: Ptr := v;
      while parent != NULL
        invariant parent != NULL ==> Live(ptable[parent])
        invariant Owned(ptable[..], pid, v) <==> parent != NULL && Owned(ptable[..], pid, parent)
        decreases if parent == NULL then 0 else 1 + ptable[parent].pid
      {
        OwnedStep(ptable[..], pid, parent);
        if ptable[parent].pid == pid {
          return true;
        }
        assert parent != init ==> ParentOk(ptable[..], parent);
        parent := ptable[parent].parent;
      }
      return false;
    }

    method FellVictim(c: Slot, v: Slot, k: Qid) returns (ok: bool)
      requires Valid() && v in lists[k]
      modifies this, ptable, next, queues
      ensures ok == Fell(old(Abs()), c, v, k).Ok?
      ensures ok ==> Valid() && Abs() == Fell(old(Abs()), c, v, k).value
    {
      hide Chains, Unlinked, Disjoint, Loose, Zombify, Removed;
      ptable[v] := ptable[v].(exitStatus := 1);
      var status := QueueRemove(k, v);
      if k == READY { log := log + [Withdraw(v)]; }
      ok := PcbZombify(v);
      if ok {
        SysReturn(c, 0);
      }
    }

    method SysKill(c: Slot, pid: nat) returns (ok: bool)
      requires Valid() && Mid(Abs(), c, {c}) && Caller(Abs(), c) && ptable[c].syscall == SYS_kill
      modifies this, ptable, next, queues
      ensures ok == DoKill(old(Abs()), c, pid).Ok?
      ensures ok ==> Valid() && Abs() == DoKill(old(Abs()), c, pid).value
    {
      hide Owned, Mid, Family, Chains, Unlinked, Disjoint, Fell, DoExit;
      ghost var s := Abs();
      RunnerBack(s, c);
      MidFamily(s, c, {});
      var v := PcbFindPid(pid % PID_MOD);
      if v == NULL {
        SysReturn(c, 1);
        return true;
      }
      var owned := IsOwned(v, ptable[c].pid);
      if !owned {
        SysReturn(c, 1);
        return true;
      }
      KillState(s, c, v);
      match ptable[v].state
      case Zombie => SysReturn(c, 0); ok := true;
      case Ready => ok := FellVictim(c, v, READY);
      case Blocked => ok := FellVictim(c, v, WAIT + ptable[v].syscall);
      case Running => ok := SysExit(c, 1);
    }

    /** One system call of the running process.  A safe call completes, keeps the invariant and
        leaves the links in order. */
    method SyscallHandler(call: Call) returns (ok: bool)
      requires Valid() && Inv(Abs()) && current != NULL && call.Valid()
      modifies this, ptable, next, queues
      ensures ok == DoCall(old(Abs()), call).Ok?
      ensures ok ==> Abs() == DoCall(old(Abs()), call).value
      ensures Safe(old(Abs()), Do(call)) ==> ok && Inv(Abs()) && Valid()
    {
      hide Inv, Mid, Safe, Chains, Unlinked, Disjoint;
      hide DoExit, DoWaitpid, DoFork, DoKill, DoSleep, DoExec, DoSetprio, Return;
      ghost var s := Abs();
      var c: Slot := current;
      ptable[c] := ptable[c].(ret := 0, syscall := call.Number(), arg1 := call.Arg1(), arg2 := call.Arg2());
      current := NULL;
      assert Abs() == Enter(s, call);
      EnterKeeps(s, call);
      CallExact(s, call);
      match call {
        case Exit(code) => ok := SysExit(c, code);
        case BadNumber(_) => ok := SysExit(c, 1);
        case Waitpid(pid, _) =>
          WaitSafe(s, call, pid);
          ok := SysWaitpid(c, pid);
        case Fork(cloned) => ok := SysFork(c, cloned);
        case Setprio(prio) =>
          SysSetprio(c, prio);
          ok := true;
        case Kill(pid) => ok := SysKill(c, pid);
        case Sleep(ms) => ok := SysSleep(c, ms);
        case Exec(loaded, argc) => ok := SysExec(c, loaded, argc);
        case Other(_, r) =>
          SysReturn(c, r);
          ok := true;
      }
    }

    /** Zeroed storage and reset queues. */
    constructor ()
      ensures Valid() && fresh(ptable) && fresh(next) && fresh(queues)
      ensures Abs() == Reset(0)
    {
      ptable := new Pcb[256](i => BLANK);
      next := new Ptr[256](i => -1);
      queues := new QueueHead[27](k => QueueHead(-1, -1, if k == FREE then Fifo else if k == READY then Prio else Pid));
      current, init, nextPid, ticks := NULL, 0, 1, 0;
      lists := EmptyBut([]);
      log := [];
      new;
      EmptyLinkage(next[..], queues[..], lists);
      assert Counted(0, 0) == [];
      assert ptable[..] == seq(256, j => BLANK);
    }

    /** pcb_init: every entry of the table goes to the free list. */
    method PcbInit()
      requires Valid() && Abs() == Reset(0)
      modifies this, ptable, next, queues
      ensures Valid() && Abs() == Reset(256)
    {
      hide Chains, Unlinked, Disjoint, Free;
      var i := 0;
      while i < 256
        invariant 0 <= i <= 256 && Valid() && Abs() == Reset(i)
      {
        FreeReset(i);
        var ok := PcbFree(i);
        i := i + 1;
      }
    }

    /** load_init, once the program is loaded: init is the first process and becomes ready. */
    method LoadInit()
      requires Valid() && Abs() == Reset(256)
      modifies this, ptable, next, queues
      ensures Valid() && Abs() == Boot() && Inv(Abs())
    {
      hide Chains, Unlinked, Disjoint, Loose, Schedule, Inv;
      var p := PcbAlloc();
      init := p;
      ScheduleBoot(Abs());
      var ok := PcbSchedule(p);
      BootInv();
    }
  }

  /** The state once the first `n` entries have been freed. */
  function Reset(n: nat): Sys
    requires n <= 256
  {
    Sys(seq(256, j => BLANK), EmptyBut(Counted(0, n)), NULL, 0, 1, 0, [])
  }

  lemma FreeReset(i: nat)
    requires i < 256
    ensures i !in Reset(i).q[FREE] && Loose(Reset(i).q, i) && Free(Reset(i), i) == Ok(Reset(i + 1))
  {
    CountedLoose(i);
    var s := Reset(i);
    var s1 := s.Put(i, s.t[i].(state := Unused));
    assert s1.t == s.t;
    FifoAppends(s.t, Counted(0, i), i);
    assert Counted(0, i + 1) == Counted(0, i) + [i];
    assert s.q[FREE := Counted(0, i + 1)] == EmptyBut(Counted(0, i + 1));
  }

  lemma ScheduleBoot(s: Sys)
    requires s == Reset(256).(t := Reset(256).t[0 := BLANK.(pid := 1, state := New)],
                              q := Reset(256).q[FREE := Counted(0, 256)[1..]], nextPid := 2)
    ensures Loose(s.q, 0) && Schedule(s, 0) == Ok(Boot())
  {
    LooseNotLinked(s.q, 0);
    hide Linked;
    var s' := Schedule(s, 0).value;
    assert s'.q[READY] == [0];
    assert Counted(0, 256)[1..] == Boot().q[FREE];
    assert s'.q == Boot().q && s'.t == Boot().t && s'.log == Boot().log;
  }

  /** The free list holds `xs`, the other queues nothing. */
  function EmptyBut(xs: seq<Slot>): Queues {
    seq(27, k => if k == FREE then xs else [])
  }

  function Counted(a: nat, b: nat): seq<Slot>
    requires a <= b <= 256
  {
    seq(b - a, i requires 0 <= i < b - a => a + i)
  }

  lemma CountedLoose(i: nat)
    requires i < 256
    ensures Loose(EmptyBut(Counted(0, i)), i) && !Linked(EmptyBut(Counted(0, i)), i)
  {
    LooseNotLinked(EmptyBut(Counted(0, i)), i);
  }

  lemma EmptyLinkage(nx: Links, hs: Heads, q: Queues)
    requires forall p: Slot :: nx[p] == NULL
    requires forall k: Qid :: hs[k].head == NULL && hs[k].tail == NULL && q[k] == []
    ensures Chains(nx, hs, q) && Unlinked(nx, q) && Disjoint(q)
  {
  }

  lemma WaitSafe(s: Sys, call: Call, pid: nat)
    requires s.current != NULL && call.Waitpid? && call.pid == pid
    ensures Safe(s, Do(call)) <==> FirstMatch(Enter(s, call).t, s.current, pid % PID_MOD, 0) == NULL
  {
    SameMatches(s.t, Enter(s, call).t, s.current, pid % PID_MOD, 0);
  }

  lemma OwnedStep(t: Table, pid: nat, v: Slot)
    ensures Owned(t, pid, v) <==> t[v].pid == pid || (t[v].parent != NULL && Owned(t, pid, t[v].parent))
  {
    forall anc: Slot
      ensures Ancestor(t, anc, v) <==> anc == v || (t[v].parent != NULL && Ancestor(t, anc, t[v].parent))
    {
      AncestorStep(t, anc, v);
    }
  }

  lemma KillState(s: Sys, run: Ptr, v: Slot)
    requires Mid(s, run, {}) && Live(s.t[v])
    ensures !s.t[v].state.New? && !s.t[v].state.Unused?
    ensures s.t[v].state.Ready? ==> v in s.q[READY]
    ensures s.t[v].state.Blocked? ==> s.t[v].syscall < N_SYSCALLS && v in s.q[WAIT + s.t[v].syscall]
  {
    hide Family;
    assert ProperAt(s.t[v], v == run);
    assert s.t[v].state.Ready? ==> Home(s.t[v]) == READY;
  }

  lemma MidFamily(s: Sys, run: Ptr, f: set<Slot>)
    requires Mid(s, run, f)
    ensures Family(s.t, s.init, s.nextPid)
  {
  }

  lemma MidLoose(s: Sys, run: Ptr, f: set<Slot>, p: Slot)
    requires Mid(s, run, f) && p in f
    ensures Loose(s.q, p)
  {
    forall k: Qid ensures p !in s.q[k] { FloatAbsent(s, run, f, p, k); }
  }

  lemma RunnerLoose(s: Sys)
    requires Inv(s) && s.current != NULL
    ensures Loose(s.q, s.current)
  {
    assert ProperAt(s.t[s.current], true);
  }

  lemma ZombieNotFree(s: Sys, run: Ptr, f: set<Slot>, z: Slot)
    requires Mid(s, run, f) && s.t[z].state.Zombie?
    ensures z !in s.q[FREE]
  {
  }

  lemma FreePid(s: Sys, p: Slot)
    requires Free(s, p).Ok?
    ensures Free(s, p).value.t[p].pid == s.t[p].pid
  {
  }

  lemma ScheduleSleepers(s: Sys, p: Slot)
    requires Schedule(s, p).Ok?
    ensures Schedule(s, p).value.q[SLEEPING] == s.q[SLEEPING]
  {
  }

  lemma WakeNone(s: Sys)
    requires s.q[SLEEPING] == [] || s.t[s.q[SLEEPING][0]].wakeup >= s.now
    ensures WakeSleepers(s) == Ok(s)
  {
    assert s.q[SLEEPING := s.q[SLEEPING][0..]] == s.q;
  }

  lemma {:induction false} DueSame(t: Table, t': Table, xs: seq<Slot>, now: nat)
    requires forall p: Slot :: t[p].wakeup == t'[p].wakeup
    ensures DuePrefix(t, xs, now) == DuePrefix(t', xs, now)
  {
    if xs != [] { DueSame(t, t', xs[1..], now); }
  }

  /** Scheduling a process outside all queues does not depend on what the sleep queue holds. */
  lemma ScheduleFrame(s: Sys, p: Slot, ys: seq<Slot>)
    requires Loose(s.q, p) && p !in ys
    ensures var r := Schedule(s, p);
      Schedule(s.(q := s.q[SLEEPING := ys]), p) == if r.Ok? then Ok(r.value.(q := r.value.q[SLEEPING := ys])) else Panic
  {
    hide Linked;
    LooseNotLinked(s.q, p);
    LooseNotLinked(s.q[SLEEPING := ys], p);
    assert s.q[SLEEPING := ys][READY] == s.q[READY];
    if Schedule(s, p).Ok? {
      var q1 := s.q[READY := Schedule(s, p).value.q[READY]];
      assert q1[SLEEPING := ys] == s.q[SLEEPING := ys][READY := q1[READY]];
    }
  }

  lemma ScheduleSame(s: Sys, p: Slot)
    ensures var r := Schedule(s, p);
      r.Ok? ==>
        && r.value.q[SLEEPING] == s.q[SLEEPING] && r.value.now == s.now
        && forall x: Slot :: r.value.t[x].wakeup == s.t[x].wakeup
  {
  }

  lemma HeadOnce(nx: Links, hs: Heads, q: Queues, k: Qid, n: nat)
    requires Chains(nx, hs, q) && 0 < n <= |q[k]|
    ensures q[k][0] !in q[k][n..]
  {
    assert Chain(nx, hs[k], q[k]);
  }

  /** The first sleeper is due: wake it, then the others. */
  lemma WakeOne(s: Sys, nx: Links, hs: Heads)
    requires Chains(nx, hs, s.q) && Disjoint(s.q)
    requires s.q[SLEEPING] != [] && s.t[s.q[SLEEPING][0]].wakeup < s.now
    ensures var p := s.q[SLEEPING][0];
      var r := Schedule(s.(q := s.q[SLEEPING := s.q[SLEEPING][1..]]), p);
      WakeSleepers(s) == if r.Ok? then WakeSleepers(r.value) else Panic
  {
    hide Chains, Disjoint, Schedule;
    var xs := s.q[SLEEPING];
    var p := xs[0];
    var s1 := s.(q := s.q[SLEEPING := xs[1..]]);
    var n := DuePrefix(s.t, xs, s.now);
    assert xs[1..] == Cut(xs, 0);
    CutDisjoint(nx, hs, s.q, SLEEPING, 0);
    HeadOnce(nx, hs, s.q, SLEEPING, n);
    ScheduleFrame(s1, p, xs[n..]);
    assert s1.q[SLEEPING := xs[n..]] == s.q[SLEEPING := xs[n..]];
    assert xs[..n][1..] == xs[1..][..n - 1] && xs[1..][n - 1..] == xs[n..];
    ScheduleSame(s1, p);
    if Schedule(s1, p).Ok? {
      DueSame(s.t, Schedule(s1, p).value.t, xs[1..], s.now);
    }
  }

  lemma ChainOf(nx: Links, hs: Heads, q: Queues, k: Qid)
    requires Chains(nx, hs, q)
    ensures Chain(nx, hs[k], q[k])
  {
  }

  /** A PCB has a next link exactly when it is linked in a queue before its last. */
  lemma LinkedIff(nx: Links, hs: Heads, q: Queues, p: Slot)
    requires Chains(nx, hs, q) && Unlinked(nx, q)
    ensures nx[p] != NULL <==> Linked(q, p)
  {
    if Linked(q, p) { LinkedHasNext(nx, hs, q, p); }
  }

  lemma LooseApart(q: Queues, p: Slot)
    requires Loose(q, p)
    ensures forall k: Qid :: p !in q[k]
  {
  }

  lemma LooseOut(q: Queues, p: Slot)
    requires Loose(q, p)
    ensures p !in q[FREE]
  {
  }

  /** Nobody but `p` has entered a queue. */
  ghost predicate LooseKept(q: Queues, q': Queues, p: Slot) {
    forall x: Slot :: x != p && Loose(q, x) ==> Loose(q', x)
  }

  function Orders(hs: Heads): seq<Order> {
    seq(27, k requires 0 <= k < 27 => hs[k].order)
  }

  lemma LooseNotLinked(q: Queues, p: Slot)
    requires Loose(q, p)
    ensures !Linked(q, p)
  {
    forall k: Qid, i: nat | i + 1 < |q[k]| ensures q[k][i] != p {
      assert q[k][i] in q[k];
    }
  }

  lemma LooseInserted(q: Queues, k: Qid, p: Slot, t: Table, o: Order)
    ensures LooseKept(q, q[k := Inserted(o, t, q[k], p)], p)
  {
    SpliceMembers(q[k], Rank(o, t, q[k], Key(o, t[p])), p);
  }

  lemma {:induction false} FirstAt(xs: seq<Slot>, p: Slot, i: nat)
    requires i < |xs| && xs[i] == p && p !in xs[..i]
    ensures IndexOf(xs, p) == i
  {
    if i > 0 {
      assert xs[0] in xs[..i];
      assert xs[1..][..i - 1] == xs[..i][1..];
      FirstAt(xs[1..], p, i - 1);
    }
  }

  lemma CutFacts(nx: Links, hs: Heads, q: Queues, k: Qid, i: nat)
    requires Chains(nx, hs, q) && Unlinked(nx, q) && Disjoint(q) && i < |q[k]|
    ensures var q' := q[k := Cut(q[k], i)];
      var nx' := CutLinks(nx, q[k], i);
      && Chains(nx', hs[k := CutHead(nx, hs[k], q[k], i)], q')
      && Unlinked(nx', q') && Disjoint(q') && Loose(q', q[k][i])
  {
    hide Chains, Unlinked, Disjoint, Loose, CutLinks, Cut, CutHead;
    CutChains(nx, hs, q, k, i);
    CutUnlinked(nx, hs, q, k, i);
    CutDisjoint(nx, hs, q, k, i);
  }

  lemma InsertFacts(nx: Links, hs: Heads, q: Queues, k: Qid, i: nat, p: Slot)
    requires Chains(nx, hs, q) && Unlinked(nx, q) && Disjoint(q) && i <= |q[k]| && p !in q[k] && nx[p] == NULL
    requires i < |q[k]| ==> Loose(q, p)
    ensures var q' := q[k := Splice(q[k], i, p)];
      var nx' := SplicedLinks(nx, q[k], i, p);
      && Chains(nx', hs[k := SplicedHead(hs[k], q[k], i, p)], q') && Unlinked(nx', q')
      && (Loose(q, p) ==> Disjoint(q'))
  {
    hide Chains, Unlinked, Disjoint, SplicedLinks, Splice, SplicedHead;
    SpliceChains(nx, hs, q, k, i, p);
    SpliceUnlinked(nx, q, k, i, p);
    if Loose(q, p) { SpliceDisjoint(q, k, i, p); }
  }
}
