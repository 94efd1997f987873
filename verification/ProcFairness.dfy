/** The ready queue as a replay of its history, and the bound on overtaking that follows. */
module ProcFairness {
  import opened ProcSpec

  /** A place in the ready queue: who, and with which priority. */
  type Ticket = (Slot, nat)

  function View(t: Table, xs: seq<Slot>): seq<Ticket> {
    seq(|xs|, i requires 0 <= i < |xs| => (xs[i], t[xs[i]].priority))
  }

  /** How many tickets at the front have a priority value not above `prio`. */
  function Ahead(rq: seq<Ticket>, prio: nat): (r: nat)
    ensures r <= |rq|
  {
    if rq == [] || rq[0].1 > prio then 0 else 1 + Ahead(rq[1..], prio)
  }

  /** Where `p` stands, or the queue length if it is not there. */
  function Place(rq: seq<Ticket>, p: Slot): (i: nat)
    ensures i <= |rq|
    ensures i < |rq| ==> rq[i].0 == p
    ensures forall j :: 0 <= j < i ==> rq[j].0 != p
  {
    if rq == [] || rq[0].0 == p then 0 else 1 + Place(rq[1..], p)
  }

  /** One event of the history; Panic if the event does not fit the queue. */
  function Apply(rq: seq<Ticket>, e: Sched): Outcome<seq<Ticket>> {
    match e
    case Arrive(p, prio) =>
      var i := Ahead(rq, prio);
      if Place(rq, p) < |rq| then Panic else Ok(rq[..i] + [(p, prio)] + rq[i..])
    case Run(p) => if rq != [] && rq[0].0 == p then Ok(rq[1..]) else Panic
    case Withdraw(p) => var i := Place(rq, p); if i < |rq| then Ok(rq[..i] + rq[i + 1..]) else Panic
  }

  function Replay(rq: seq<Ticket>, es: seq<Sched>): Outcome<seq<Ticket>>
    decreases |es|
  {
    if es == [] then Ok(rq)
    else
      var rq' :- Apply(rq, es[0]);
      Replay(rq', es[1..])
  }

  // ---------------------------------------------------------------- counting

  function Runs(es: seq<Sched>): nat {
    if es == [] then 0 else (if es[0].Run? then 1 else 0) + Runs(es[1..])
  }

  /** Arrivals with a strictly smaller priority value. */
  function Urgent(es: seq<Sched>, prio: nat): nat {
    if es == [] then 0 else (if es[0].Arrive? && es[0].prio < prio then 1 else 0) + Urgent(es[1..], prio)
  }

  lemma {:induction false} AheadBefore(rq: seq<Ticket>, prio: nat, k: nat)
    requires k < Ahead(rq, prio)
    ensures rq[k].1 <= prio
  {
    if k > 0 { AheadBefore(rq[1..], prio, k - 1); }
  }

  lemma {:induction false} AheadAfter(rq: seq<Ticket>, prio: nat)
    ensures Ahead(rq, prio) < |rq| ==> rq[Ahead(rq, prio)].1 > prio
  {
    if rq != [] && rq[0].1 <= prio { AheadAfter(rq[1..], prio); }
  }

  ghost predicate Holds(rq: seq<Ticket>, p: Slot, prio: nat, k: nat) {
    k < |rq| && rq[k] == (p, prio) && Place(rq, p) == k
  }

  ghost predicate Prioritised(rq: seq<Ticket>) {
    forall i, j :: 0 <= i < j < |rq| ==> rq[i].1 <= rq[j].1
  }

  lemma {:induction false} PlaceIs(rq: seq<Ticket>, p: Slot, k: nat)
    requires k < |rq| && rq[k].0 == p && forall j :: 0 <= j < k ==> rq[j].0 != p
    ensures Place(rq, p) == k
  {
    if k > 0 { PlaceIs(rq[1..], p, k - 1); }
  }

  lemma ApplySorted(rq: seq<Ticket>, e: Sched)
    requires Prioritised(rq) && Apply(rq, e).Ok?
    ensures Prioritised(Apply(rq, e).value)
  {
    hide Ahead, Place;
    match e
    case Arrive(p, prio) =>
      AheadAfter(rq, prio);
      forall k | 0 <= k < Ahead(rq, prio) ensures rq[k].1 <= prio { AheadBefore(rq, prio, k); }
      InsertPrioritised(rq, Ahead(rq, prio), (p, prio));
    case Run(_) =>
    case Withdraw(p) => DropPrioritised(rq, Place(rq, p));
  }

  lemma InsertPrioritised(rq: seq<Ticket>, i: nat, x: Ticket)
    requires Prioritised(rq) && i <= |rq| && (forall k :: 0 <= k < i ==> rq[k].1 <= x.1)
    requires (i < |rq| ==> x.1 <= rq[i].1)
    ensures Prioritised(rq[..i] + [x] + rq[i..])
  {
    var ys := rq[..i] + [x] + rq[i..];
    forall a, b | 0 <= a < b < |ys| ensures ys[a].1 <= ys[b].1 {
      assert (a < i ==> ys[a] == rq[a]) && (a > i ==> ys[a] == rq[a - 1]);
      assert (b < i ==> ys[b] == rq[b]) && (b > i ==> ys[b] == rq[b - 1]);
    }
  }

  lemma DropPrioritised(rq: seq<Ticket>, i: nat)
    requires Prioritised(rq) && i < |rq|
    ensures Prioritised(rq[..i] + rq[i + 1..])
  {
  }

  lemma ArrivePlace(rq: seq<Ticket>, w: Slot, wp: nat, p: Slot, prio: nat, k: nat) returns (k': nat)
    requires Prioritised(rq) && Holds(rq, p, prio, k) && w != p
    ensures var i := Ahead(rq, wp); Holds(rq[..i] + [(w, wp)] + rq[i..], p, prio, k')
    ensures k' <= k + if wp < prio then 1 else 0
  {
    var i := Ahead(rq, wp);
    if i > k { k' := k; } else { AheadAfter(rq, wp); k' := k + 1; }
    PlaceIs(rq[..i] + [(w, wp)] + rq[i..], p, k');
  }

  lemma WithdrawPlace(rq: seq<Ticket>, w: Slot, p: Slot, prio: nat, k: nat) returns (k': nat)
    requires Holds(rq, p, prio, k) && w != p && Place(rq, w) < |rq|
    ensures var i := Place(rq, w); Holds(rq[..i] + rq[i + 1..], p, prio, k')
    ensures k' <= k
  {
    var i := Place(rq, w);
    k' := if i < k then k - 1 else k;
    PlaceIs(rq[..i] + rq[i + 1..], p, k');
  }

  /** One event moves `p` back by at most one place, and then only for a more urgent arrival; a
      dispatch moves it forward. */
  lemma ApplyPlace(rq: seq<Ticket>, e: Sched, p: Slot, prio: nat, k: nat) returns (k': nat)
    requires Prioritised(rq) && Holds(rq, p, prio, k) && e.who != p && Apply(rq, e).Ok?
    ensures Holds(Apply(rq, e).value, p, prio, k')
    ensures k' + (if e.Run? then 1 else 0) <= k + (if e.Arrive? && e.prio < prio then 1 else 0)
  {
    match e
    case Arrive(w, wp) => k' := ArrivePlace(rq, w, wp, p, prio, k);
    case Run(w) =>
      k' := k - 1;
      PlaceIs(rq[1..], p, k');
    case Withdraw(w) => k' := WithdrawPlace(rq, w, p, prio, k);
  }

  /** Bounded overtaking: as long as `p` stays in the queue, dispatches are paid for by the places
      ahead of it at the start and by more urgent arrivals. */
  lemma {:induction false} Overtaking(rq: seq<Ticket>, es: seq<Sched>, p: Slot, prio: nat, k: nat) returns (k': nat)
    requires Prioritised(rq) && Holds(rq, p, prio, k) && Replay(rq, es).Ok?
    requires forall e :: e in es ==> e.who != p
    ensures Holds(Replay(rq, es).value, p, prio, k')
    ensures k' + Runs(es) <= k + Urgent(es, prio)
    decreases |es|
  {
    hide Holds, Prioritised;
    if es == [] {
      k' := k;
    } else {
      assert es[0] in es;
      ApplySorted(rq, es[0]);
      var k1 := ApplyPlace(rq, es[0], p, prio, k);
      forall e | e in es[1..] ensures e in es {}
      k' := Overtaking(Apply(rq, es[0]).value, es[1..], p, prio, k1);
    }
  }

  /** Enough dispatches and too few urgent arrivals: `p` itself was dispatched, or it was killed. */
  lemma {:induction false} MustLeave(rq: seq<Ticket>, es: seq<Sched>, p: Slot, prio: nat, k: nat)
    requires Prioritised(rq) && Holds(rq, p, prio, k) && Replay(rq, es).Ok?
    requires Runs(es) > k + Urgent(es, prio)
    ensures Run(p) in es || Withdraw(p) in es
    decreases |es|
  {
    if es[0].who == p {
      assert es[0].Arrive? ==> Place(rq, p) < |rq|;
      assert es[0] in es;
    } else {
      hide Holds, Prioritised;
      ApplySorted(rq, es[0]);
      var k1 := ApplyPlace(rq, es[0], p, prio, k);
      MustLeave(Apply(rq, es[0]).value, es[1..], p, prio, k1);
      assert forall e :: e in es[1..] ==> e in es;
    }
  }
}
