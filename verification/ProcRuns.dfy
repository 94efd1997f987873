/** Whole runs: the invariant in every reachable state, and what follows from it. */
module ProcRuns {
  import opened Base
  import opened ProcSpec
  import opened ProcQueueLaws
  import opened ProcInv
  import opened ProcSteps
  import opened ProcForkKill

  /** When a step is harmless.  Every clause can be read off the state before the step. */
  ghost predicate Safe(s: Sys, e: Event)
    requires Enabled(s, e)
  {
    match e
    case Tick => true
    case Resume => true
    case Do(call) =>
      match call
      case Exit(_) => MayDie(s, s.current)
      case BadNumber(_) => MayDie(s, s.current)
      case Waitpid(pid, _) => FirstMatch(s.t, s.current, pid % PID_MOD, 0) == NULL
      case Fork(cloned) => MayFork(s, cloned)
      case Kill(pid) => MayKill(s, s.current, pid)
      case _ => true
  }

  lemma {:induction false} SameMatches(t: Table, t': Table, c: Slot, pid: nat, i: nat)
    requires i <= 256
    requires forall p: Slot :: t[p].state == t'[p].state && t[p].parent == t'[p].parent && t[p].pid == t'[p].pid
    ensures FirstMatch(t, c, pid, i) == FirstMatch(t', c, pid, i)
    decreases 256 - i
  {
    if i < 256 { SameMatches(t, t', c, pid, i + 1); }
  }

  lemma {:induction false} SamePids(t: Table, t': Table, pid: nat, i: nat)
    requires i <= 256
    requires forall p: Slot :: t[p].state == t'[p].state && t[p].pid == t'[p].pid
    ensures FindPid(t, pid, i) == FindPid(t', pid, i)
    decreases 256 - i
  {
    if i < 256 { SamePids(t, t', pid, i + 1); }
  }

  lemma SameOwned(t: Table, t': Table, pid: nat, v: Slot)
    requires forall p: Slot :: t[p].parent == t'[p].parent && t[p].pid == t'[p].pid
    ensures Owned(t, pid, v) == Owned(t', pid, v)
  {
    forall anc: Slot ensures Ancestor(t, anc, v) == Ancestor(t', anc, v) {
      forall path: seq<Slot> ensures ParentPath(t, path) == ParentPath(t', path) {}
    }
  }

  /** The conditions speak of the state before the call; the call's own entry changes none of them. */
  lemma EnterMayKill(s: Sys, call: Call, pid: nat)
    requires Inv(s) && s.current != NULL && call.Number() != SYS_waitpid
    ensures MayKill(Enter(s, call), s.current, pid) == MayKill(s, s.current, pid)
  {
    hide Inv;
    var e := Enter(s, call);
    SamePids(s.t, e.t, pid % PID_MOD, 0);
    var v := Lookup(s.t, pid % PID_MOD);
    if v != NULL {
      SameOwned(s.t, e.t, s.t[s.current].pid, v);
      hide Owned, Strands;
      EnterStrands(s, call, v);
    }
  }

  lemma CallExact(s: Sys, call: Call)
    requires Inv(s) && s.current != NULL && call.Valid()
    ensures var r := DoCall(s, call); (r.Ok? && Inv(r.value)) <==> Safe(s, Do(call))
  {
    hide Inv, Mid, DoExit, DoWaitpid, DoFork, DoKill, DoSleep, DoExec, DoSetprio, Return, Strands, MayKill, Owned;
    var c: Slot := s.current;
    var e := Enter(s, call);
    EnterKeeps(s, call);
    if call.Number() != SYS_waitpid {
      EnterStrands(s, call, c);
      RunnerBack(e, c);
    }
    match call
    case Exit(code) => ExitExact(e, c, code);
    case BadNumber(_) => ExitExact(e, c, 1);
    case Waitpid(pid, _) =>
      SameMatches(s.t, e.t, c, pid % PID_MOD, 0);
      WaitExact(e, c, pid);
    case Fork(cloned) => if MayFork(e, cloned) { ForkKeeps(e, c, cloned); } else { ForkBreaks(e, c, cloned); }
    case Setprio(prio) => SetprioKeeps(e, c, prio);
    case Kill(pid) =>
      EnterMayKill(s, call, pid);
      KillExact(e, c, pid);
    case Sleep(ms) => SleepKeeps(e, c, ms);
    case Exec(loaded, argc) => ExecKeeps(e, c, loaded, argc);
    case Other(_, r) => ReturnKeeps(e, c, r);
  }

  /** A step from a good state panics or breaks the invariant exactly when it is not safe. */
  lemma StepExact(s: Sys, e: Event)
    requires Inv(s) && Enabled(s, e)
    ensures (Step(s, e).Ok? && Inv(Step(s, e).value)) <==> Safe(s, e)
  {
    match e
    case Tick => hide Inv, OnTick; TickKeeps(s);
    case Resume => DispatchKeeps(s);
    case Do(call) => hide Inv, DoCall; CallExact(s, call);
  }

  // ---------------------------------------------------------------- runs

  /** Right after load_init has scheduled init: entry 0 is ready with pid 1, all others are free. */
  function Boot(): Sys {
    var first := BLANK.(pid := 1, state := Ready);
    Sys(seq(256, i => if i == 0 then first else BLANK),
        seq(27, k => if k == FREE then seq(255, i => i + 1) else if k == READY then [0] else []),
        NULL, 0, 2, 0, [Arrive(0, 0)])
  }

  lemma BootInv()
    ensures Inv(Boot())
  {
    var s := Boot();
    forall p: Slot, k: Qid ensures p in s.q[k] <==> Home(s.t[p]) == k {
      if p != 0 { assert s.q[FREE][p - 1] == p; }
    }
    forall k: Qid ensures Sorted(OrderOf(k), s.t, s.q[k]) && NoDup(s.q[k]) {}
    forall p: Slot ensures ProperAt(s.t[p], false) {}
  }

  /** A run: the states passed through and the safe steps between them. */
  datatype Trace = Trace(states: seq<Sys>, events: seq<Event>) {
    ghost predicate Legal() {
      && |states| == |events| + 1
      && (forall i :: 0 <= i < |events| ==> StepsTo(states[i], events[i], states[i + 1]))
    }
  }

  ghost predicate StepsTo(s: Sys, e: Event, s': Sys) {
    Enabled(s, e) && Safe(s, e) && Step(s, e) == Ok(s')
  }

  /** No assertion or panic fires, and the invariant holds, in every state of every safe run: a safe
      step is always possible to complete, and it ends in a good state again. */
  lemma {:induction false} RunInv(r: Trace, i: nat)
    requires r.Legal() && Inv(r.states[0]) && i < |r.states|
    ensures Inv(r.states[i])
    ensures forall e :: Enabled(r.states[i], e) && Safe(r.states[i], e) ==> Step(r.states[i], e).Ok?
  {
    hide Inv, Step, Safe;
    if i > 0 {
      RunInv(r, i - 1);
      assert StepsTo(r.states[i - 1], r.events[i - 1], r.states[i]);
      StepExact(r.states[i - 1], r.events[i - 1]);
    }
    forall e | Enabled(r.states[i], e) && Safe(r.states[i], e) ensures Step(r.states[i], e).Ok? {
      StepExact(r.states[i], e);
    }
  }

  /** The ready queue is ordered by priority value, the zombies and those who wait by pid. */
  lemma QueueOrders(s: Sys, k: Qid, i: nat, j: nat)
    requires Inv(s) && k > 0 && i < j < |s.q[k]|
    ensures var a, b := s.t[s.q[k][i]], s.t[s.q[k][j]]; if k == 1 then a.priority <= b.priority else a.pid <= b.pid
  {
    hide Family, Proper;
    assert Sorted(OrderOf(k), s.t, s.q[k]);
  }

  // ---------------------------------------------------------------- nobody is lost

  /** The first `n` queues, one after the other. */
  ghost function Flat(q: Queues, n: nat): seq<Slot>
    requires n <= 27
  {
    if n == 0 then [] else Flat(q, n - 1) + q[n - 1]
  }

  ghost predicate Disjoint(q: Queues) {
    forall k: Qid, j: Qid, p: Slot :: p in q[k] && p in q[j] ==> k == j
  }

  lemma {:induction false} FlatMembers(q: Queues, n: nat)
    requires n <= 27 && NoDups(q) && Disjoint(q)
    ensures forall p: Slot :: p in Flat(q, n) <==> exists k: Qid :: k < n && p in q[k]
    ensures NoDup(Flat(q, n))
  {
    if n > 0 {
      FlatMembers(q, n - 1);
      assert NoDup(q[n - 1]);
      var xs := Flat(q, n - 1);
      forall i, j | 0 <= i < j < |Flat(q, n)| ensures Flat(q, n)[i] != Flat(q, n)[j] {
        if i < |xs| <= j {
          assert xs[i] in xs && q[n - 1][j - |xs|] in q[n - 1];
        }
      }
      forall p: Slot ensures p in Flat(q, n) <==> exists k: Qid :: k < n && p in q[k] {
        if p in q[n - 1] { assert exists k: Qid :: k < n && p in q[k]; }
      }
    }
  }

  lemma {:induction false} NoDupSize(xs: seq<Slot>)
    requires NoDup(xs)
    ensures |set p: Slot | p in xs| == |xs|
  {
    if xs == [] {
      assert (set p: Slot | p in xs) == {};
    } else {
      NoDupSize(xs[1..]);
      assert (set p: Slot | p in xs) == {xs[0]} + set p: Slot | p in xs[1..];
      assert xs[0] !in xs[1..];
    }
  }

  /** The table entries below `n`. */
  ghost function Below(n: nat): (r: set<Slot>)
    requires n <= 256
    ensures |r| == n
    ensures forall p: Slot :: p in r <==> p < n
  {
    if n == 0 then {} else Below(n - 1) + {n - 1}
  }

  lemma PlacedDisjoint(t: Table, q: Queues, f: set<Slot>)
    requires Placed(t, q, f)
    ensures Disjoint(q)
  {
    forall k: Qid, j: Qid, p: Slot | p in q[k] && p in q[j] ensures k == j {
      assert Home(t[p]) == k && Home(t[p]) == j;
    }
  }

  lemma InvDisjoint(s: Sys)
    requires Inv(s)
    ensures Disjoint(s.q) && NoDups(s.q)
  {
    PlacedDisjoint(s.t, s.q, {});
  }

  lemma QueuedIffIdle(s: Sys, p: Slot)
    requires Inv(s)
    ensures (exists k: Qid :: k < 27 && p in s.q[k]) <==> p != s.current
  {
    hide Family;
    assert ProperAt(s.t[p], p == s.current);
    if p != s.current {
      var k: Qid := Home(s.t[p]);
      assert p in s.q[k];
    }
  }

  lemma CountAllBut(xs: seq<Slot>, c: Ptr, n: nat)
    requires n == N_PROCS && NoDup(xs) && forall p: Slot :: p in xs <==> p != c
    ensures |xs| + (if c == NULL then 0 else 1) == n
  {
    hide Below;
    NoDupSize(xs);
    hide NoDup;
    var queued := set p: Slot | p in xs;
    if c == NULL {
      assert queued == Below(n);
    } else {
      assert queued == Below(n) - {c};
    }
  }

  /** The queue lengths plus the running process always total the size of the process table. */
  lemma Conservation(s: Sys)
    requires Inv(s)
    ensures |Flat(s.q, 27)| + (if s.current == NULL then 0 else 1) == N_PROCS
  {
    hide Inv, Flat;
    InvDisjoint(s);
    FlatMembers(s.q, 27);
    forall p: Slot ensures p in Flat(s.q, 27) <==> p != s.current { QueuedIffIdle(s, p); }
    CountAllBut(Flat(s.q, 27), s.current, N_PROCS);
  }
}
