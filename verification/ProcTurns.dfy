/** Turns: when the processor changes hands, to whom, for how long, and how soon everybody has a turn. */
module ProcTurns {
  import opened Base
  import opened ProcSpec
  import opened ProcInv
  import opened ProcSteps
  import opened ProcForkKill
  import opened ProcRuns
  import opened ProcFairness
  import opened ProcTrace
  import opened ProcTheorems
  import opened ProcEffects
  import opened ProcDeaths

  // ---------------------------------------------------------------- one step

  /** The step gives the processor away: it is idle, or the running process used up its time, or it asked to end,
      to wait, to sleep, or to become another program. */
  ghost predicate GivesUp(s: Sys, e: Event)
    requires Enabled(s, e)
  {
    match e
    case Tick => s.current != NULL && s.t[s.current].ticks == 1
    case Resume => true
    case Do(call) =>
      match call
      case Exit(_) => true
      case BadNumber(_) => true
      case Waitpid(_, _) => true
      case Sleep(_) => true
      case Exec(loaded, _) => loaded
      case Kill(pid) => s.t[s.current].pid == pid % 0x1_0000
      case _ => false
  }

  ghost predicate AllArrive(es: seq<Sched>) { forall a :: a in es ==> a.Arrive? }

  /** In a step that gives the processor away some processes become ready, and then the head of the queue runs. */
  ghost predicate Turn(s: Sys, es: seq<Sched>, s': Sys) {
    AllArrive(es) && exists u: Table :: Elects(s, es, u, s')
  }

  /** In any other step whoever runs goes on; a process that leaves the queue is dead. */
  ghost predicate NoTurn(s: Sys, es: seq<Sched>, s': Sys) {
    && Continues(s, es, s'.t, s')
    && forall a :: a in es ==> a.Arrive? || (a.Withdraw? && Alive(s.t[a.who]) && !Alive(s'.t[a.who]))
  }

  lemma TickTurns(s: Sys, s': Sys) returns (es: seq<Sched>)
    requires Inv(s) && StepsTo(s, Tick, s')
    ensures if GivesUp(s, Tick) then Turn(s, es, s') else NoTurn(s, es, s')
    ensures GivesUp(s, Tick) ==> es != [] && es[|es| - 1] == Arrive(s.current, s.t[s.current].priority)
    ensures !GivesUp(s, Tick) && s.current != NULL ==>
      s'.t[s.current] == s.t[s.current].(ticks := s.t[s.current].ticks - 1)
  {
    hide Inv, Step, Elects;
    var now := (s.now + 1) % U64;
    var n := DuePrefix(s.t, s.q[SLEEPING], now);
    DuePrefixLongest(s.t, s.q[SLEEPING], now);
    TickElects(s, s', n);
    if s.current != NULL { RunnerFacts(s); }
    es := Arrivals(s.t, s.q[SLEEPING][..n]);
    var u: Table :| Woken(s.t, u, s.q[SLEEPING][..n]) && Charged(s, es, u, s');
    if GivesUp(s, Tick) {
      es := es + [Arrive(s.current, s.t[s.current].priority)];
    } else {
      ChargedTable(s, es, u, s');
    }
  }

  lemma ChargedTable(s: Sys, es: seq<Sched>, u: Table, s': Sys)
    requires Charged(s, es, u, s') && (s.current == NULL || s.t[s.current].ticks > 1)
    ensures Continues(s, es, s'.t, s')
  {
  }

  lemma AnswersContinues(s: Sys, p: Pcb, s': Sys)
    requires s.current != NULL && s.current !in s.q[READY] && Goes(s, p, s')
    ensures Continues(s, [], s'.t, s')
  {
    hide Traced, Continues;
    QuietTraced(s, s');
    TracedContinues(s, [], s');
  }

  lemma DeathTurns(s: Sys, call: Call, s': Sys) returns (es: seq<Sched>)
    requires Inv(s) && StepsTo(s, Do(call), s')
    requires || call.Exit? || call.BadNumber?
             || (call.Kill? && exists v: Slot :: Named(s, call.pid, v) && !s.t[v].state.Zombie?)
    ensures if GivesUp(s, Do(call)) then Turn(s, es, s') else NoTurn(s, es, s')
  {
    hide Inv, Step, Safe, Elects, Continues, Departed, Named, LastZombie;
    if call.Kill? {
      var v: Slot :| Named(s, call.pid, v) && !s.t[v].state.Zombie?;
      var z := LastZombie(s.t, v, 256);
      NamedSelf(s, call.pid, v);
      NamedAlive(s, call.pid, v);
      es := Comers(s, v, z);
      if v == s.current {
        KillSelf(s, call.pid, s', z);
      } else {
        KillOther(s, call.pid, s', v, z);
        KilledDead(s, v, z, s'.t);
        es := (if s.t[v].state.Ready? then [Withdraw(v)] else []) + es;
      }
    } else {
      var z := LastZombie(s.t, s.current, 256);
      ExitElects(s, call, s', z);
      es := Comers(s, s.current, z);
    }
  }

  lemma NamedSelf(s: Sys, pid: nat, v: Slot)
    requires Inv(s) && s.current != NULL && Named(s, pid, v)
    ensures v == s.current <==> s.t[s.current].pid == pid % 0x1_0000
  {
    hide Inv;
    RunnerFacts(s);
    UniquePid(s, v, s.current);
  }

  lemma KilledDead(s: Sys, v: Slot, z: Ptr, u: Table)
    requires v != s.current && Departed(s, v, 1, z, u)
    ensures !Alive(u[v])
  {
  }

  lemma CallTurns(s: Sys, call: Call, s': Sys) returns (es: seq<Sched>)
    requires Inv(s) && StepsTo(s, Do(call), s')
    ensures if GivesUp(s, Do(call)) then Turn(s, es, s') else NoTurn(s, es, s')
  {
    hide Inv, Step, Elects, Continues, Named, Goes, MayKill, MayDie, Ancestor;
    RunnerFacts(s);
    var c: Slot := s.current;
    es := [];
    match call
    case Exit(_) => es := DeathTurns(s, call, s');
    case BadNumber(_) => es := DeathTurns(s, call, s');
    case Waitpid(pid, ptr) =>
      SafeWait(s, pid, ptr);
      WaitElects(s, pid, ptr, s');
    case Fork(cloned) =>
      ForkAnswers(s, cloned, s');
      if s.q[FREE] == [] {
        AnswersContinues(s, s.t[c].(ret := -1), s');
      } else {
        es := [Arrive(s.q[FREE][0], s.t[c].priority)];
      }
    case Setprio(prio) =>
      SetprioAnswers(s, prio, s');
      AnswersContinues(s, s.t[c].(ret := s.t[c].priority, priority := prio % 0x1_0000_0000), s');
    case Sleep(ms) =>
      SleepElects(s, ms, s');
      es := if ms == 0 then [Arrive(c, s.t[c].priority)] else [];
    case Exec(loaded, argc) =>
      ExecAnswers(s, loaded, argc, s');
      if loaded { es := [Arrive(c, s.t[c].priority)]; } else { AnswersContinues(s, s.t[c].(ret := 1), s'); }
    case Other(num, r) =>
      OtherAnswers(s, num, r, s');
      AnswersContinues(s, s.t[c].(ret := r), s');
    case Kill(pid) =>
      if exists v: Slot :: Named(s, pid, v) && !s.t[v].state.Zombie? {
        es := DeathTurns(s, call, s');
      } else {
        SparedContinues(s, pid, s');
      }
  }

  lemma SafeWait(s: Sys, pid: nat, ptr: nat)
    requires s.current != NULL && Safe(s, Do(Waitpid(pid, ptr)))
    ensures forall z: Slot :: !Matches(s.t, s.current, pid, z)
  {
  }

  lemma SparedContinues(s: Sys, pid: nat, s': Sys)
    requires Inv(s) && StepsTo(s, Do(Kill(pid)), s') && forall v: Slot :: Named(s, pid, v) ==> s.t[v].state.Zombie?
    ensures Continues(s, [], s'.t, s') && !GivesUp(s, Do(Kill(pid)))
  {
    hide Inv, Step, Safe, Continues, Goes, Ancestor;
    RunnerFacts(s);
    KillSpares(s, pid, s');
    AncestorStep(s.t, s.current, s.current);
    var r := if exists v: Slot :: Named(s, pid, v) then 0 else 1;
    AnswersContinues(s, s.t[s.current].(ret := r), s');
  }

  /** Every step either gives the processor to the head of the ready queue or leaves it where it is. */
  lemma StepTurns(s: Sys, e: Event, s': Sys) returns (es: seq<Sched>)
    requires Inv(s) && StepsTo(s, e, s')
    ensures if GivesUp(s, e) then Turn(s, es, s') else NoTurn(s, es, s')
  {
    hide Inv, Step, Safe, Elects, GivesUp, Turn, NoTurn;
    match e
    case Tick => es := TickTurns(s, s');
    case Resume =>
      es := [];
      ResumeElects(s, s');
      ResumeTurns(s, s');
    case Do(call) => es := CallTurns(s, call, s');
  }

  lemma ResumeTurns(s: Sys, s': Sys)
    requires Enabled(s, Resume) && Elects(s, [], s.t, s')
    ensures GivesUp(s, Resume) && Turn(s, [], s')
  {
    hide Elects;
  }

  // ---------------------------------------------------------------- to whom the processor goes

  lemma {:induction false} ReplayArrivals(rq: seq<Ticket>, es: seq<Sched>)
    requires Replay(rq, es).Ok? && AllArrive(es)
    ensures |Replay(rq, es).value| == |rq| + |es|
    decreases |es|
  {
    hide Ahead, Place;
    if es != [] {
      assert es[0] in es;
      ReplayArrivals(Apply(rq, es[0]).value, es[1..]);
    }
  }

  lemma {:induction false} ReplaySorted(rq: seq<Ticket>, es: seq<Sched>)
    requires Replay(rq, es).Ok? && Prioritised(rq)
    ensures Prioritised(Replay(rq, es).value)
    decreases |es|
  {
    hide Prioritised, Apply;
    if es != [] {
      ApplySorted(rq, es[0]);
      ReplaySorted(Apply(rq, es[0]).value, es[1..]);
    }
  }

  lemma ReadySorted(s: Sys)
    requires Inv(s)
    ensures Prioritised(ReadyView(s)) && forall x: Slot :: x in s.q[READY] <==> s.t[x].state.Ready?
  {
    hide Family;
    assert Sorted(OrderOf(READY), s.t, s.q[READY]);
    forall x: Slot ensures x in s.q[READY] <==> s.t[x].state.Ready? {
      assert Home(s.t[x]) == READY <==> s.t[x].state.Ready? by { assert ProperAt(s.t[x], x == s.current); }
    }
  }

  /** After a step that gives the processor away, nobody runs if and only if nobody was ready and nobody has become
      so.  Otherwise exactly one process is dispatched, with three ticks and in no call: one that was ready or has
      become so, none that is still ready having a smaller priority value; and if nobody has become ready, it is
      the former head of the queue. */
  lemma Handover(s: Sys, e: Event, s': Sys) returns (es: seq<Sched>)
    requires Inv(s) && StepsTo(s, e, s') && GivesUp(s, e)
    ensures AllArrive(es) && s'.log == s.log + es + if s'.current == NULL then [] else [Run(s'.current)]
    ensures s'.current == NULL <==> (forall x: Slot :: !s.t[x].state.Ready?) && es == []
    ensures s'.current == NULL ==> forall x: Slot :: !s'.t[x].state.Ready?
    ensures s'.current != NULL ==>
      var p := s'.t[s'.current];
      && p.state.Running? && p.ticks == 3 && p.syscall == 0
      && (s.t[s'.current].state.Ready? || Arrive(s'.current, p.priority) in es)
      && (forall x: Slot :: s'.t[x].state.Ready? ==> p.priority <= s'.t[x].priority)
      && (es == [] ==> s.q[READY] != [] && s'.current == s.q[READY][0])
  {
    hide Inv, Step, Safe, GivesUp, View;
    es := StepTurns(s, e, s');
    StepExact(s, e);
    ReadySorted(s);
    ReadySorted(s');
    ViewAt(s.t, s.q[READY]);
    ReplayArrivals(ReadyView(s), es);
    ReplaySorted(ReadyView(s), es);
    TurnHeads(s, es, s');
  }

  lemma ViewAt(t: Table, xs: seq<Slot>)
    ensures |View(t, xs)| == |xs|
    ensures forall i :: 0 <= i < |xs| ==> View(t, xs)[i] == (xs[i], t[xs[i]].priority)
  {
  }

  lemma TurnHeads(s: Sys, es: seq<Sched>, s': Sys)
    requires Turn(s, es, s') && Replay(ReadyView(s), es).Ok? && Prioritised(Replay(ReadyView(s), es).value)
    requires |Replay(ReadyView(s), es).value| == |s.q[READY]| + |es|
    ensures s'.log == s.log + es + if s'.current == NULL then [] else [Run(s'.current)]
    ensures s'.current == NULL <==> s.q[READY] == [] && es == []
    ensures s'.current == NULL ==> s'.q[READY] == []
    ensures s'.current != NULL ==>
      var p := s'.t[s'.current];
      && p.state.Running? && p.ticks == 3 && p.syscall == 0
      && (s'.current in s.q[READY] || Arrive(s'.current, p.priority) in es)
      && (forall x: Slot :: x in s'.q[READY] ==> p.priority <= s'.t[x].priority)
      && (es == [] ==> s.q[READY] != [] && s'.current == s.q[READY][0])
  {
    hide Replay, View;
    var u: Table :| Elects(s, es, u, s');
    var rq := Replay(ReadyView(s), es).value;
    ViewAt(s.t, s.q[READY]);
    ViewAt(s'.t, s'.q[READY]);
    if rq != [] {
      ReplayMembers(ReadyView(s), es, 0);
      forall x: Slot | x in s'.q[READY] ensures rq[0].1 <= s'.t[x].priority {
        var i :| 0 <= i < |s'.q[READY]| && s'.q[READY][i] == x;
        assert rq[1..][i] == rq[i + 1];
      }
      if es == [] { NoReplay(ReadyView(s), es); }
    }
  }

  lemma NoReplay(rq: seq<Ticket>, es: seq<Sched>)
    requires es == []
    ensures Replay(rq, es) == Ok(rq)
  {
  }

  // ---------------------------------------------------------------- how soon everybody has a turn

  /** How often the processor is given away from state `i` to state `j`. */
  ghost function Turns(r: Trace, i: nat, j: nat): nat
    requires r.Legal() && j < |r.states|
  {
    if i >= j then 0
    else
      assert StepsTo(r.states[j - 1], r.events[j - 1], r.states[j]);
      Turns(r, i, j - 1) + if GivesUp(r.states[j - 1], r.events[j - 1]) then 1 else 0
  }

  /** Step `n` gives the processor to `p`. */
  ghost predicate HasTurn(r: Trace, n: nat, p: Slot)
    requires r.Legal() && n < |r.events|
  {
    assert StepsTo(r.states[n], r.events[n], r.states[n + 1]);
    GivesUp(r.states[n], r.events[n]) && r.states[n + 1].current == p
  }

  /** Step `n` ends the life of `p`. */
  ghost predicate Dies(r: Trace, n: nat, p: Slot)
    requires r.Legal() && n < |r.events|
  {
    Alive(r.states[n].t[p]) && !Alive(r.states[n + 1].t[p])
  }

  lemma {:induction false} RunsConcat(a: seq<Sched>, b: seq<Sched>)
    ensures Runs(a + b) == Runs(a) + Runs(b)
  {
    if a == [] {
      assert a + b == b;
    } else {
      assert (a + b)[1..] == a[1..] + b;
      RunsConcat(a[1..], b);
    }
  }

  lemma {:induction false} NoRuns(es: seq<Sched>)
    requires forall a :: a in es ==> !a.Run?
    ensures Runs(es) == 0
  {
    if es != [] {
      assert es[0] in es;
      NoRuns(es[1..]);
    }
  }

  /** Nobody arrives who is in the queue already. */
  lemma {:induction false} NoneAgain(rq: seq<Ticket>, es: seq<Sched>, p: Slot, prio: nat, k: nat)
    requires Prioritised(rq) && ProcFairness.Holds(rq, p, prio, k) && Replay(rq, es).Ok?
    requires forall a :: a in es ==> a.Arrive? || (a.Withdraw? && a.who != p)
    ensures forall a :: a in es ==> a.who != p
    decreases |es|
  {
    if es != [] {
      assert es[0] in es;
      assert es[0].who != p;
      hide ProcFairness.Holds, Prioritised, Apply;
      ApplySorted(rq, es[0]);
      var k1 := ApplyPlace(rq, es[0], p, prio, k);
      NoneAgain(Apply(rq, es[0]).value, es[1..], p, prio, k1);
    }
  }

  /** What a step logs besides a dispatch. */
  lemma StepLogs(s: Sys, e: Event, s': Sys, p: Slot) returns (es: seq<Sched>)
    requires Inv(s) && StepsTo(s, e, s') && p in s.q[READY]
    requires !(GivesUp(s, e) && s'.current == p) && (Alive(s.t[p]) ==> Alive(s'.t[p]))
    ensures s'.log == s.log + es && (forall a :: a in es ==> a.who != p)
    ensures Runs(es) == if GivesUp(s, e) then 1 else 0
  {
    hide Inv, Step, Safe, GivesUp, View, Prioritised, ProcFairness.Holds, Elects;
    var es0 := StepTurns(s, e, s');
    ViewHolds(s, p);
    TurnReplays(s, e, es0, s');
    NoneAgain(ReadyView(s), es0, p, s.t[p].priority, IndexOf(s.q[READY], p));
    NoRuns(es0);
    if GivesUp(s, e) {
      var es1 := Handover(s, e, s');
      InvReady(s, p);
      NoRuns(es1);
      es := es1 + [Run(s'.current)];
      RunsConcat(es1, [Run(s'.current)]);
      SameArrivals(s, es0, es1, s');
    } else {
      es := es0;
    }
  }

  lemma TurnReplays(s: Sys, e: Event, es: seq<Sched>, s': Sys)
    requires Enabled(s, e) && if GivesUp(s, e) then Turn(s, es, s') else NoTurn(s, es, s')
    ensures Replay(ReadyView(s), es).Ok?
    ensures !GivesUp(s, e) ==> s'.log == s.log + es
  {
  }

  lemma SameArrivals(s: Sys, es0: seq<Sched>, es1: seq<Sched>, s': Sys)
    requires Turn(s, es0, s') && s'.current != NULL && s'.log == s.log + es1 + [Run(s'.current)]
    ensures es0 == es1
  {
    var u: Table :| Elects(s, es0, u, s');
    assert s'.log[|s.log|..|s'.log| - 1] == es0;
    assert s'.log[|s.log|..|s'.log| - 1] == es1;
  }

  /** Nothing that is logged from place `from` on concerns `p`. */
  ghost predicate Silent(log: seq<Sched>, from: nat, p: Slot) {
    forall n :: from <= n < |log| ==> log[n].who != p
  }

  /** A process that is ready stays so until it has its turn or dies; meanwhile every turn dispatches somebody. */
  lemma {:induction false} Waiting(r: Trace, i: nat, j: nat, p: Slot)
    requires r.Legal() && Inv(r.states[0]) && i <= j < |r.states| && p in r.states[i].q[READY]
    requires forall n :: i <= n < j ==> !HasTurn(r, n, p) && !Dies(r, n, p)
    ensures r.states[i].log <= r.states[j].log && p in r.states[j].q[READY]
    ensures Silent(r.states[j].log, |r.states[i].log|, p)
    ensures Runs(r.states[j].log[|r.states[i].log|..]) == Turns(r, i, j)
    decreases j
  {
    hide Inv, StepsTo, HasTurn, Dies, GivesUp;
    if i == j {
      assert r.states[j].log[|r.states[i].log|..] == [];
    } else {
      Waiting(r, i, j - 1, p);
      WaitingStep(r, i, j, p);
    }
  }

  lemma WaitingStep(r: Trace, i: nat, j: nat, p: Slot)
    requires r.Legal() && Inv(r.states[0]) && i < j < |r.states| && p in r.states[i].q[READY]
    requires !HasTurn(r, j - 1, p) && !Dies(r, j - 1, p)
    requires r.states[i].log <= r.states[j - 1].log && p in r.states[j - 1].q[READY]
    requires Silent(r.states[j - 1].log, |r.states[i].log|, p)
    requires Runs(r.states[j - 1].log[|r.states[i].log|..]) == Turns(r, i, j - 1)
    ensures r.states[i].log <= r.states[j].log && p in r.states[j].q[READY]
    ensures Silent(r.states[j].log, |r.states[i].log|, p)
    ensures Runs(r.states[j].log[|r.states[i].log|..]) == Turns(r, i, j)
  {
    hide Inv, Step, Safe, Runs, GivesUp;
    var s0, s, s' := r.states[i], r.states[j - 1], r.states[j];
    RunInv(r, j - 1);
    assert StepsTo(s, r.events[j - 1], s');
    var es := StepLogs(s, r.events[j - 1], s', p);
    assert s'.log[|s0.log|..] == s.log[|s0.log|..] + es;
    RunsConcat(s.log[|s0.log|..], es);
    forall n | |s0.log| <= n < |s'.log| ensures s'.log[n].who != p {
      if n >= |s.log| { assert s'.log[n] == es[n - |s.log|]; } else { assert s'.log[n] == s.log[n]; }
    }
    PlaceInQueue(r, i, j, p);
  }

  /** Over every run a process that is ready with `k` others ahead of it has the processor, or is dead, before it is
      given away more than `k` times, not counting arrivals with a strictly smaller priority value. */
  lemma TurnComes(r: Trace, i: nat, j: nat, p: Slot)
    requires r.Legal() && Inv(r.states[0]) && i <= j < |r.states| && p in r.states[i].q[READY]
    ensures r.states[i].log <= r.states[j].log
    ensures var k := IndexOf(r.states[i].q[READY], p);
      var urgent := Urgent(r.states[j].log[|r.states[i].log|..], r.states[i].t[p].priority);
      Turns(r, i, j) > k + urgent ==> exists n :: i <= n < j && (HasTurn(r, n, p) || Dies(r, n, p))
  {
    hide Inv, StepsTo, HasTurn, Dies, Turns, Runs, Urgent;
    BoundedOvertaking(r, i, j, p);
    if forall n :: i <= n < j ==> !HasTurn(r, n, p) && !Dies(r, n, p) {
      Waiting(r, i, j, p);
      PlaceInQueue(r, i, j, p);
    }
  }

  // ---------------------------------------------------------------- for how long

  /** A process that is given the processor and makes no call loses it at exactly its third tick, and joins the ready
      queue after everybody whom that tick wakes. */
  lemma TimeSlice(r: Trace, n: nat, p: Slot) returns (es: seq<Sched>)
    requires r.Legal() && Inv(r.states[0]) && n + 3 < |r.events| && HasTurn(r, n, p)
    requires r.events[n + 1] == r.events[n + 2] == r.events[n + 3] == Tick
    ensures r.states[n + 1].current == r.states[n + 2].current == r.states[n + 3].current == p
    ensures r.states[n + 1].t[p].ticks == 3 && r.states[n + 2].t[p].ticks == 2 && r.states[n + 3].t[p].ticks == 1
    ensures Turn(r.states[n + 3], es, r.states[n + 4])
    ensures es != [] && es[|es| - 1] == Arrive(p, r.states[n + 1].t[p].priority)
  {
    hide Inv, Step, Safe, Turn, Continues;
    RunInv(r, n);
    assert StepsTo(r.states[n], r.events[n], r.states[n + 1]);
    var es0 := Handover(r.states[n], r.events[n], r.states[n + 1]);
    es := NextTick(r, n + 1);
    es := NextTick(r, n + 2);
    es := NextTick(r, n + 3);
  }

  lemma NextTick(r: Trace, i: nat) returns (es: seq<Sched>)
    requires r.Legal() && Inv(r.states[0]) && i < |r.events| && r.events[i] == Tick && r.states[i].current != NULL
    ensures var s, s' := r.states[i], r.states[i + 1];
      var c := s.current;
      if s.t[c].ticks == 1 then Turn(s, es, s') && es != [] && es[|es| - 1] == Arrive(c, s.t[c].priority)
      else s'.current == c && s'.t[c].ticks + 1 == s.t[c].ticks && s'.t[c].priority == s.t[c].priority
  {
    hide Inv, Step, Turn;
    RunInv(r, i);
    assert StepsTo(r.states[i], r.events[i], r.states[i + 1]);
    es := TickTurns(r.states[i], r.states[i + 1]);
  }
}
